/**
 The paginated listing of a user's orders, newest first: the other instance of the keyset walk.
 */
module OrderListing {
  import opened Domain
  import opened Keyset
  import opened Listing
  import Shop

  datatype OrderDoc = OrderDoc(id: int, user: UserId, createdAt: Time, status: Shop.OrderStatus)

  // The payload of an order cursor is the creation time and the id.
  datatype OrderCursor = MalformedOrderCursor | EncodedOrderCursor(createdAt: Time, id: int)

  datatype OrderQuery = OrderQuery(user: UserId, status: Option<Shop.OrderStatus>, cursor: Option<OrderCursor>, limit: nat)

  function OrderRank(o: OrderDoc): Rank {
    Rank(-o.createdAt, -o.id)
  }

  function OrderCursorFor(o: OrderDoc): OrderCursor {
    EncodedOrderCursor(o.createdAt, o.id)
  }

  /** The rank a request continues after: none without a cursor or with a malformed one. */
  function OrderCursorRank(cursor: Option<OrderCursor>): Option<Rank> {
    match cursor
    case Some(EncodedOrderCursor(createdAt, id)) => Some(Rank(-createdAt, -id))
    case _ => None
  }

  predicate Visible(o: OrderDoc, q: OrderQuery) {
    o.user == q.user && (q.status == None || o.status == q.status.value)
  }

  function OrderEntries(orders: seq<OrderDoc>, q: OrderQuery): seq<Entry<OrderDoc>> {
    if orders == [] then []
    else (if Visible(orders[0], q) then [Entry(OrderRank(orders[0]), orders[0])] else []) + OrderEntries(orders[1..], q)
  }

  function OrderPage(orders: seq<OrderDoc>, q: OrderQuery): Page<OrderDoc> {
    PageAfter(OrderEntries(orders, q), OrderCursorRank(q.cursor), q.limit)
  }

  /** The keyset condition as the query states it: created before the cursor's time, or at that time with a lesser id. */
  predicate PastOrderCursor(o: OrderDoc, createdAt: Time, id: int) {
    o.createdAt < createdAt || (o.createdAt == createdAt && o.id < id)
  }

  lemma PastOrderCursorIsAfter(o: OrderDoc, createdAt: Time, id: int)
    ensures PastOrderCursor(o, createdAt, id) <==> IsAfter(OrderRank(o), OrderCursorRank(Some(EncodedOrderCursor(createdAt, id))))
  {
  }

  lemma OrderEntryMember(orders: seq<OrderDoc>, q: OrderQuery, e: Entry<OrderDoc>)
    ensures e in OrderEntries(orders, q) <==> e.doc in orders && Visible(e.doc, q) && e.rank == OrderRank(e.doc)
  {
    if orders != [] {
      OrderEntryMember(orders[1..], q, e);
    }
  }

  ghost predicate DistinctOrderIds(orders: seq<OrderDoc>) {
    forall i, j | 0 <= i < j < |orders| :: orders[i].id != orders[j].id
  }

  lemma {:induction false} OrderEntriesDistinct(orders: seq<OrderDoc>, q: OrderQuery)
    requires DistinctOrderIds(orders)
    ensures DistinctRanks(OrderEntries(orders, q))
    decreases |orders|
  {
    if orders != [] {
      OrderEntriesDistinct(orders[1..], q);
      forall e | e in OrderEntries(orders[1..], q) ensures e.rank != OrderRank(orders[0]) {
        OrderEntryMember(orders[1..], q, e);
      }
    }
  }

  lemma {:induction false} OrderEntriesAppend(a: seq<OrderDoc>, o: OrderDoc, q: OrderQuery)
    ensures OrderEntries(a + [o], q) == OrderEntries(a, q) + if Visible(o, q) then [Entry(OrderRank(o), o)] else []
    decreases |a|
  {
    if a == [] {
      assert a + [o] == [o];
    } else {
      OrderEntriesAppend(a[1..], o, q);
      assert (a + [o])[1..] == a[1..] + [o];
    }
  }

  /** What the scan has found grows by a document exactly if it is visible and lies past the cursor. */
  lemma OrderScanStep(orders: seq<OrderDoc>, i: nat, q: OrderQuery, cursor: Option<Rank>)
    requires i < |orders|
    ensures var o := orders[i];
            After(OrderEntries(orders[..i+1], q), cursor)
            == After(OrderEntries(orders[..i], q), cursor)
               + if Visible(o, q) && IsAfter(OrderRank(o), cursor) then [Entry(OrderRank(o), o)] else []
  {
    var o := orders[i];
    var e := Entry(OrderRank(o), o);
    assert orders[..i+1] == orders[..i] + [o];
    OrderEntriesAppend(orders[..i], o, q);
    AfterAppend(OrderEntries(orders[..i], q), if Visible(o, q) then [e] else [], cursor);
    assert [e][1..] == [];
    assert After([e], cursor) == if IsAfter(e.rank, cursor) then [e] else [];
  }

  lemma FoundOrder(orders: seq<OrderDoc>, q: OrderQuery, keyset: Option<Rank>, e: Entry<OrderDoc>)
    requires e in Sort(After(OrderEntries(orders, q), keyset))
    ensures e.doc in orders && Visible(e.doc, q) && e.rank == OrderRank(e.doc)
  {
    SortMember(After(OrderEntries(orders, q), keyset), e);
    AfterMember(OrderEntries(orders, q), keyset, e);
    OrderEntryMember(orders, q, e);
  }

  /** Every order on a page is the user's own, with the status asked for. */
  lemma PageShowsOwnOrders(orders: seq<OrderDoc>, q: OrderQuery, o: OrderDoc)
    requires o in Docs(OrderPage(orders, q).items)
    ensures o in orders && o.user == q.user && (q.status.Some? ==> o.status == q.status.value)
  {
    var items := OrderPage(orders, q).items;
    var i :| 0 <= i < |items| && items[i].doc == o;
    FoundOrder(orders, q, OrderCursorRank(q.cursor), items[i]);
  }

  /** The orders that the assembled filter lets through. */
  method ScanOrders(orders: seq<OrderDoc>, q: OrderQuery, keyset: Option<OrderCursor>) returns (matching: seq<Entry<OrderDoc>>)
    requires keyset.Some? ==> keyset.value.EncodedOrderCursor?
    ensures matching == After(OrderEntries(orders, q), OrderCursorRank(keyset))
  {
    matching := [];
    for i := 0 to |orders|
      invariant matching == After(OrderEntries(orders[..i], q), OrderCursorRank(keyset))
    {
      var o := orders[i];
      OrderScanStep(orders, i, q, OrderCursorRank(keyset));
      if keyset.Some? {
        PastOrderCursorIsAfter(o, keyset.value.createdAt, keyset.value.id);
      }
      if Visible(o, q) && (keyset == None || PastOrderCursor(o, keyset.value.createdAt, keyset.value.id)) {
        matching := matching + [Entry(OrderRank(o), o)];
      }
    }
    assert orders[..|orders|] == orders;
  }

  lemma CutIsOrderPage(orders: seq<OrderDoc>, q: OrderQuery, items: seq<Entry<OrderDoc>>, hasMore: bool, last: Option<Entry<OrderDoc>>)
    requires var s := Sort(After(OrderEntries(orders, q), OrderCursorRank(q.cursor)));
             |items| == (if |s| < q.limit then |s| else q.limit) && items == s[..|items|]
             && (hasMore <==> |s| > |items|) && (last.Some? <==> hasMore && q.limit > 0)
             && (last.Some? ==> last.value == items[|items|-1])
    ensures OrderPage(orders, q).items == items && OrderPage(orders, q).hasMore == hasMore
    ensures last.None? ==> OrderPage(orders, q).next == None
    ensures last.Some? ==> items != [] && OrderPage(orders, q).next == Some(OrderRank(items[|items|-1].doc))
  {
    var s := Sort(After(OrderEntries(orders, q), OrderCursorRank(q.cursor)));
    CutIsFront(s, q.limit, items, hasMore, last);
    if last.Some? {
      FoundOrder(orders, q, OrderCursorRank(q.cursor), last.value);
    }
  }

  /** One page of a user's orders, as the repository assembles filter and cursor. */
  method FetchOrders(orders: seq<OrderDoc>, q: OrderQuery)
    returns (page: seq<OrderDoc>, nextCursor: Option<OrderCursor>, hasMore: bool)
    ensures page == Docs(OrderPage(orders, q).items) && hasMore == OrderPage(orders, q).hasMore
    ensures OrderCursorRank(nextCursor) == OrderPage(orders, q).next
    ensures nextCursor.Some? ==> page != [] && nextCursor.value == OrderCursorFor(page[|page|-1])
  {
    var keyset := None;
    if q.cursor.Some? && q.cursor.value.EncodedOrderCursor? {
      keyset := q.cursor;
    }
    var matching := ScanOrders(orders, q, keyset);
    var items, last;
    items, hasMore, last := CutPage(matching, q.limit);
    CutIsOrderPage(orders, q, items, hasMore, last);
    page, nextCursor := Docs(items), None;
    if last.Some? {
      nextCursor := Some(EncodedOrderCursor(last.value.doc.createdAt, last.value.doc.id));
    }
  }

  /** The same, in the user's terms. */
  method ListOrdersForUser(orders: seq<OrderDoc>, q: OrderQuery)
    returns (page: seq<OrderDoc>, nextCursor: Option<OrderCursor>, hasMore: bool)
    ensures DistinctOrderIds(orders) && q.limit >= 1 ==> IsOrderPage(orders, q, page, hasMore) && (nextCursor.Some? <==> hasMore)
    ensures nextCursor.Some? ==>
              page != [] && nextCursor.value == EncodedOrderCursor(page[|page|-1].createdAt, page[|page|-1].id)
    ensures page == Docs(OrderPage(orders, q).items) && hasMore == OrderPage(orders, q).hasMore
    ensures OrderCursorRank(nextCursor) == OrderPage(orders, q).next
  {
    page, nextCursor, hasMore := FetchOrders(orders, q);
    if DistinctOrderIds(orders) && q.limit >= 1 {
      OrderPageMeans(orders, q);
      OrderPageInOrder(orders, q);
    }
  }

  // ---------- walks ----------

  /** A client's walk: it sends back each page's cursor, with status and limit unchanged, while the orders are what they are
      at each fetch. */
  function OrderWalk(fetches: seq<seq<OrderDoc>>, q: OrderQuery): seq<Page<OrderDoc>>
    decreases |fetches|
  {
    if fetches == [] then []
    else
      var page := OrderPage(fetches[0], q);
      if page.next == None || page.items == [] then [page]
      else [page] + OrderWalk(fetches[1..], NextOrderQuery(q, page))
  }

  function NextOrderQuery(q: OrderQuery, page: Page<OrderDoc>): OrderQuery
    requires page.items != []
  {
    q.(cursor := Some(OrderCursorFor(page.items[|page.items|-1].doc)))
  }

  function OrderFetches(fetches: seq<seq<OrderDoc>>, q: OrderQuery): seq<seq<Entry<OrderDoc>>> {
    seq(|fetches|, i requires 0 <= i < |fetches| => OrderEntries(fetches[i], q))
  }

  lemma OrderEntriesIgnoreCursor(orders: seq<OrderDoc>, q: OrderQuery, cursor: Option<OrderCursor>)
    ensures OrderEntries(orders, q.(cursor := cursor)) == OrderEntries(orders, q)
  {
  }

  lemma OrderFetchesUnfold(fetches: seq<seq<OrderDoc>>, q: OrderQuery, cursor: Option<OrderCursor>)
    requires fetches != []
    ensures OrderFetches(fetches, q) != [] && OrderFetches(fetches, q)[0] == OrderEntries(fetches[0], q)
    ensures OrderFetches(fetches, q)[1..] == OrderFetches(fetches[1..], q.(cursor := cursor))
  {
    forall i | 0 <= i < |fetches[1..]|
      ensures OrderFetches(fetches[1..], q.(cursor := cursor))[i] == OrderFetches(fetches, q)[1..][i]
    {
      OrderEntriesIgnoreCursor(fetches[i+1], q, cursor);
    }
  }

  /** The cursor handed out with a page continues exactly after its last order. */
  lemma OrderCursorContinues(orders: seq<OrderDoc>, q: OrderQuery)
    requires OrderPage(orders, q).next.Some?
    ensures var page := OrderPage(orders, q);
            page.items != [] && OrderCursorRank(NextOrderQuery(q, page).cursor) == page.next
  {
    NextIsLast(OrderEntries(orders, q), OrderCursorRank(q.cursor), q.limit);
    var page := OrderPage(orders, q);
    FoundOrder(orders, q, OrderCursorRank(q.cursor), page.items[|page.items|-1]);
  }

  lemma {:induction false} OrderWalkIsWalk(fetches: seq<seq<OrderDoc>>, q: OrderQuery)
    ensures OrderWalk(fetches, q) == Walk(OrderFetches(fetches, q), OrderCursorRank(q.cursor), q.limit)
    decreases |fetches|
  {
    if fetches != [] {
      var page := OrderPage(fetches[0], q);
      OrderFetchesUnfold(fetches, q, q.cursor);
      OnePageOfWalk(OrderFetches(fetches, q), OrderCursorRank(q.cursor), q.limit, page);
      if page.next.Some? {
        OrderCursorContinues(fetches[0], q);
        OrderFetchesUnfold(fetches, q, NextOrderQuery(q, page).cursor);
        OrderWalkIsWalk(fetches[1..], NextOrderQuery(q, page));
      }
    }
  }

  // ---------- the listing in the user's terms ----------

  /** a is listed before b: newest first, and among equals by descending id. */
  predicate Newer(a: OrderDoc, b: OrderDoc) {
    a.createdAt > b.createdAt || (a.createdAt == b.createdAt && a.id > b.id)
  }

  ghost predicate NewestFirst(page: seq<OrderDoc>) {
    forall i, j | 0 <= i < j < |page| :: Newer(page[i], page[j])
  }

  /** An order of the user, with the status asked for if one is, that is older than the cursor. */
  ghost predicate OnOrderPage(o: OrderDoc, orders: seq<OrderDoc>, q: OrderQuery) {
    o in orders && o.user == q.user && (q.status.Some? ==> q.status.value == o.status)
    && match q.cursor
       case Some(EncodedOrderCursor(createdAt, id)) => createdAt > o.createdAt || (createdAt == o.createdAt && id > o.id)
       case _ => true
  }

  /** A page of the listing: newest first, up to the limit. It has more to come exactly if something is left out, and all of
      that is older than its last order. */
  ghost predicate IsOrderPage(orders: seq<OrderDoc>, q: OrderQuery, page: seq<OrderDoc>, hasMore: bool) {
    NewestFirst(page) && |page| <= q.limit
    && (forall o | o in page :: OnOrderPage(o, orders, q))
    && (!hasMore ==> forall o | OnOrderPage(o, orders, q) :: o in page)
    && (hasMore ==> 0 < |page| == q.limit && (exists o :: OnOrderPage(o, orders, q) && o !in page)
                    && forall o | OnOrderPage(o, orders, q) && o !in page :: Newer(page[|page|-1], o))
  }

  ghost predicate OrdersRanked(entries: seq<Entry<OrderDoc>>) {
    forall e | e in entries :: e.rank == OrderRank(e.doc)
  }

  lemma OrderDocsInOrder(entries: seq<Entry<OrderDoc>>)
    requires Ascending(entries) && OrdersRanked(entries)
    ensures NewestFirst(Docs(entries))
  {
    forall i, j | 0 <= i < j < |entries| ensures Newer(Docs(entries)[i], Docs(entries)[j]) {
      assert entries[i] in entries && entries[j] in entries && Before(entries[i].rank, entries[j].rank);
    }
  }

  lemma OrderDocMember(entries: seq<Entry<OrderDoc>>, o: OrderDoc)
    requires OrdersRanked(entries)
    ensures o in Docs(entries) <==> Entry(OrderRank(o), o) in entries
  {
    if o in Docs(entries) {
      var i :| 0 <= i < |entries| && Docs(entries)[i] == o;
      assert entries[i] in entries;
    }
    if Entry(OrderRank(o), o) in entries {
      var i :| 0 <= i < |entries| && entries[i] == Entry(OrderRank(o), o);
      assert Docs(entries)[i] == o;
    }
  }

  lemma EntryOnOrderPage(orders: seq<OrderDoc>, q: OrderQuery, o: OrderDoc)
    ensures OnOrderPage(o, orders, q) <==>
              Entry(OrderRank(o), o) in OrderEntries(orders, q) && IsAfter(OrderRank(o), OrderCursorRank(q.cursor))
  {
    OrderEntryMember(orders, q, Entry(OrderRank(o), o));
  }

  lemma OrderPageRanked(orders: seq<OrderDoc>, q: OrderQuery)
    ensures OrdersRanked(OrderPage(orders, q).items)
  {
    var found := Sort(After(OrderEntries(orders, q), OrderCursorRank(q.cursor)));
    forall e | e in OrderPage(orders, q).items ensures e.rank == OrderRank(e.doc) {
      assert e in found;
      FoundOrder(orders, q, OrderCursorRank(q.cursor), e);
    }
  }

  lemma OrderPageInOrder(orders: seq<OrderDoc>, q: OrderQuery)
    requires DistinctOrderIds(orders) && q.limit >= 1
    ensures var page := OrderPage(orders, q);
            NewestFirst(Docs(page.items)) && |page.items| <= q.limit
            && (page.hasMore <==> page.next.Some?) && (page.hasMore ==> |page.items| == q.limit)
  {
    OrderEntriesDistinct(orders, q);
    PageIsFront(OrderEntries(orders, q), OrderCursorRank(q.cursor), q.limit);
    PageAfterIsPage(OrderEntries(orders, q), OrderCursorRank(q.cursor), q.limit);
    OrderPageRanked(orders, q);
    OrderDocsInOrder(OrderPage(orders, q).items);
  }

  lemma OrderPageHolds(orders: seq<OrderDoc>, q: OrderQuery, o: OrderDoc)
    requires DistinctOrderIds(orders) && q.limit >= 1
    ensures var page := OrderPage(orders, q);
            (o in Docs(page.items) ==> OnOrderPage(o, orders, q))
            && (page.next == None && OnOrderPage(o, orders, q) ==> o in Docs(page.items))
  {
    OrderEntriesDistinct(orders, q);
    PageAfterIsPage(OrderEntries(orders, q), OrderCursorRank(q.cursor), q.limit);
    OrderPageRanked(orders, q);
    EntryOnOrderPage(orders, q, o);
    OrderDocMember(OrderPage(orders, q).items, o);
  }

  lemma SomeOrderIsLeft(orders: seq<OrderDoc>, q: OrderQuery) returns (o: OrderDoc)
    requires DistinctOrderIds(orders) && q.limit >= 1 && OrderPage(orders, q).next.Some?
    ensures OnOrderPage(o, orders, q) && o !in Docs(OrderPage(orders, q).items)
  {
    var entries, cursor, page := OrderEntries(orders, q), OrderCursorRank(q.cursor), OrderPage(orders, q);
    OrderEntriesDistinct(orders, q);
    PageAfterIsPage(entries, cursor, q.limit);
    var e :| e in entries && Before(page.next.value, e.rank);
    var last := page.items[|page.items|-1];
    assert last in page.items;
    if cursor.Some? {
      BeforeIsTransitive(cursor.value, last.rank, e.rank);
    }
    OrderPageRanked(orders, q);
    o := e.doc;
    OrderEntryMember(orders, q, e);
    EntryOnOrderPage(orders, q, o);
    OrderDocMember(page.items, o);
    NoneAfterLast(page.items, e);
  }

  lemma RestIsOlder(orders: seq<OrderDoc>, q: OrderQuery, o: OrderDoc)
    requires DistinctOrderIds(orders) && q.limit >= 1 && OrderPage(orders, q).next.Some?
    requires OnOrderPage(o, orders, q) && o !in Docs(OrderPage(orders, q).items)
    ensures var items := OrderPage(orders, q).items; items != [] && Newer(items[|items|-1].doc, o)
  {
    var page := OrderPage(orders, q);
    OrderEntriesDistinct(orders, q);
    PageAfterIsPage(OrderEntries(orders, q), OrderCursorRank(q.cursor), q.limit);
    OrderPageRanked(orders, q);
    EntryOnOrderPage(orders, q, o);
    OrderDocMember(page.items, o);
    assert page.items[|page.items|-1] in page.items;
  }

  /** Pages in the user's terms: no ranks, but times and ids. */
  lemma OrderPageMeans(orders: seq<OrderDoc>, q: OrderQuery)
    requires DistinctOrderIds(orders) && q.limit >= 1
    ensures var page := OrderPage(orders, q); IsOrderPage(orders, q, Docs(page.items), page.hasMore)
  {
    var page := OrderPage(orders, q);
    OrderPageInOrder(orders, q);
    forall o ensures o in Docs(page.items) ==> OnOrderPage(o, orders, q) {
      OrderPageHolds(orders, q, o);
    }
    if page.hasMore {
      var left := SomeOrderIsLeft(orders, q);
      forall o | OnOrderPage(o, orders, q) && o !in Docs(page.items) ensures Newer(Docs(page.items)[|page.items|-1], o) {
        RestIsOlder(orders, q, o);
      }
    } else {
      forall o | OnOrderPage(o, orders, q) ensures o in Docs(page.items) {
        OrderPageHolds(orders, q, o);
      }
    }
  }

  /** Whatever changes between pages, a walk lists the user's own orders newest first, each as some fetch had it. */
  lemma OrderWalkInOrder(fetches: seq<seq<OrderDoc>>, q: OrderQuery)
    requires q.limit >= 1 && q.cursor == None && forall f | f in fetches :: DistinctOrderIds(f)
    ensures var page := Docs(AllItems(OrderWalk(fetches, q)));
            NewestFirst(page) && forall o | o in page :: exists f | f in fetches :: OnOrderPage(o, f, q)
  {
    var found, entries := OrderFetches(fetches, q), AllItems(OrderWalk(fetches, q));
    OrderWalkIsWalk(fetches, q);
    OrderFetchesAreGood(fetches, q);
    WalkAscends(found, None, q.limit);
    forall e | e in entries ensures e.rank == OrderRank(e.doc) && exists f | f in fetches :: OnOrderPage(e.doc, f, q) {
      WalkFindsOnlyFetched(found, None, q.limit, e);
      var f :| f in found && e in f;
      var i :| 0 <= i < |found| && found[i] == f;
      OrderEntryMember(fetches[i], q, e);
      assert fetches[i] in fetches && OnOrderPage(e.doc, fetches[i], q);
    }
    OrderDocsInOrder(entries);
    forall o | o in Docs(entries) ensures exists f | f in fetches :: OnOrderPage(o, f, q) {
      OrderDocMember(entries, o);
    }
  }

  lemma OrderFetchesAreGood(fetches: seq<seq<OrderDoc>>, q: OrderQuery)
    requires forall f | f in fetches :: DistinctOrderIds(f)
    ensures GoodFetches(OrderFetches(fetches, q))
  {
    forall f | f in OrderFetches(fetches, q) ensures DistinctRanks(f) {
      var i :| 0 <= i < |fetches| && OrderFetches(fetches, q)[i] == f;
      assert fetches[i] in fetches;
      OrderEntriesDistinct(fetches[i], q);
    }
  }

  /** On fixed orders it lists all that the query asks for, and nothing else. */
  lemma FixedOrderWalkListsAll(fetches: seq<seq<OrderDoc>>, orders: seq<OrderDoc>, q: OrderQuery, o: OrderDoc)
    requires q.limit >= 1 && q.cursor == None && DistinctOrderIds(orders)
    requires |fetches| > |orders| && forall f | f in fetches :: f == orders
    ensures o in Docs(AllItems(OrderWalk(fetches, q))) <==> OnOrderPage(o, orders, q)
  {
    var entries := OrderEntries(orders, q);
    OrderWalkOnFixedOrders(fetches, orders, q);
    forall e | e in Sort(entries) ensures e.rank == OrderRank(e.doc) {
      SortMember(entries, e);
      OrderEntryMember(orders, q, e);
    }
    OrderDocMember(Sort(entries), o);
    SortMember(entries, Entry(OrderRank(o), o));
    EntryOnOrderPage(orders, q, o);
  }

  /** At each fetch some order with this rank is visible; what else about it changes, its status included, is free. */
  ghost predicate StaysVisible(fetches: seq<seq<OrderDoc>>, q: OrderQuery, r: Rank) {
    forall f | f in fetches :: exists d | d in f :: Visible(d, q) && OrderRank(d) == r
  }

  lemma VisibleHasRank(orders: seq<OrderDoc>, q: OrderQuery, r: Rank)
    requires exists d | d in orders :: Visible(d, q) && OrderRank(d) == r
    ensures HasRank(OrderEntries(orders, q), r)
  {
    var d :| d in orders && Visible(d, q) && OrderRank(d) == r;
    OrderEntryMember(orders, q, Entry(r, d));
    assert Entry(r, d) in OrderEntries(orders, q);
  }

  /** Orders placed or decided between pages: no order is returned twice, and a finished walk has returned exactly once every
      order that stayed in the listing. */
  lemma OrderWalkUnderChange(fetches: seq<seq<OrderDoc>>, q: OrderQuery, r: Rank)
    requires q.limit >= 1 && q.cursor == None && forall f | f in fetches :: DistinctOrderIds(f)
    ensures Ascending(AllItems(OrderWalk(fetches, q)))
    ensures Finished(OrderWalk(fetches, q)) && StaysVisible(fetches, q, r) ==> OccursOnce(AllItems(OrderWalk(fetches, q)), r)
  {
    var entries := OrderFetches(fetches, q);
    OrderWalkIsWalk(fetches, q);
    forall f | f in entries ensures DistinctRanks(f) {
      var i :| 0 <= i < |entries| && entries[i] == f;
      assert fetches[i] in fetches;
      OrderEntriesDistinct(fetches[i], q);
    }
    WalkAscends(entries, None, q.limit);
    if Finished(OrderWalk(fetches, q)) && StaysVisible(fetches, q, r) {
      forall f | f in entries ensures HasRank(f, r) {
        var i :| 0 <= i < |entries| && entries[i] == f;
        assert fetches[i] in fetches;
        VisibleHasRank(fetches[i], q, r);
      }
      WalkReturnsOnce(entries, q.limit, r);
    }
  }

  lemma OrderEntriesBound(orders: seq<OrderDoc>, q: OrderQuery)
    ensures |OrderEntries(orders, q)| <= |orders|
  {
  }

  /** On fixed orders the walk returns the user's listing, newest first, in ceil(n / limit) pages. */
  lemma OrderWalkOnFixedOrders(fetches: seq<seq<OrderDoc>>, orders: seq<OrderDoc>, q: OrderQuery)
    requires q.limit >= 1 && q.cursor == None && DistinctOrderIds(orders)
    requires |fetches| > |orders| && forall f | f in fetches :: f == orders
    ensures Covers(OrderWalk(fetches, q), Sort(OrderEntries(orders, q)), q.limit)
  {
    var entries := OrderEntries(orders, q);
    OrderWalkIsWalk(fetches, q);
    OrderEntriesDistinct(orders, q);
    OrderEntriesBound(orders, q);
    AfterNoneIsAll(entries);
    SortSorts(entries);
    forall f | f in OrderFetches(fetches, q) ensures f == entries {
      var i :| 0 <= i < |fetches| && OrderFetches(fetches, q)[i] == f;
      assert fetches[i] in fetches;
    }
    FixedWalk(OrderFetches(fetches, q), entries, None, q.limit);
  }
}
