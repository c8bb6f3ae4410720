/**
 The paginated product listing, in three sort orders: an instance of the keyset walk, whose cursor text leads back to the
 rank of the last item.
 */
module Listing {
  import opened Domain
  import opened Keyset

  datatype SortOrder = Newest | PriceAsc | PriceDesc

  datatype SortField = CreatedAt | PriceMinor

  datatype CursorPayload = CursorPayload(field: SortField, value: int, id: nat)

  // What a client may send back: text that decodes to a payload, or anything else.
  datatype CursorText = Malformed | Encoded(payload: CursorPayload)

  datatype ProductDoc = ProductDoc(id: nat, price: int, createdAt: Time, category: nat, isAvailable: bool)

  datatype ProductQuery = ProductQuery(
    includeUnavailable: bool, category: Option<nat>, search: Option<set<nat>>, sort: SortOrder,
    cursor: Option<CursorText>, limit: nat)

  datatype Listed<T> = Listed(items: seq<T>, hasMore: bool, nextCursor: Option<CursorText>)

  function FieldOf(sort: SortOrder): SortField {
    if sort == Newest then CreatedAt else PriceMinor
  }

  function Sign(sort: SortOrder): int {
    if sort == PriceAsc then 1 else -1
  }

  function ValueOf(p: ProductDoc, sort: SortOrder): int {
    if sort == Newest then p.createdAt else p.price
  }

  function RankOf(p: ProductDoc, sort: SortOrder): Rank {
    Rank(Sign(sort) * ValueOf(p, sort), Sign(sort) * p.id)
  }

  function DecodeCursor(text: CursorText): Option<CursorPayload> {
    match text case Malformed => None case Encoded(payload) => Some(payload)
  }

  function CursorFor(p: ProductDoc, sort: SortOrder): CursorText {
    Encoded(CursorPayload(FieldOf(sort), ValueOf(p, sort), p.id))
  }

  /** The rank a request continues after: none without a cursor, with a malformed one, or with one of another sort field. */
  function CursorRank(cursor: Option<CursorText>, sort: SortOrder): Option<Rank> {
    match cursor
    case None => None
    case Some(text) =>
      match DecodeCursor(text)
      case None => None
      case Some(c) =>
        if c.field == FieldOf(sort) then Some(Rank(Sign(sort) * c.value, Sign(sort) * c.id)) else None
  }

  /** The cursor handed out with a page continues exactly after the page's last product. */
  lemma CursorRoundTrip(p: ProductDoc, sort: SortOrder)
    ensures CursorRank(Some(CursorFor(p, sort)), sort) == Some(RankOf(p, sort))
  {
  }

  predicate Listable(p: ProductDoc, q: ProductQuery) {
    (q.includeUnavailable || p.isAvailable)
    && (q.category == None || p.category == q.category.value)
    && (q.search == None || p.id in q.search.value)
  }

  /** The products a query is about, with their ranks. */
  function Entries(products: seq<ProductDoc>, q: ProductQuery): seq<Entry<ProductDoc>> {
    if products == [] then []
    else if Listable(products[0], q) then [Entry(RankOf(products[0], q.sort), products[0])] + Entries(products[1..], q)
    else Entries(products[1..], q)
  }

  function Docs<T>(entries: seq<Entry<T>>): seq<T> {
    seq(|entries|, i requires 0 <= i < |entries| => entries[i].doc)
  }

  function ProductPage(products: seq<ProductDoc>, q: ProductQuery): Page<ProductDoc> {
    PageAfter(Entries(products, q), CursorRank(q.cursor, q.sort), q.limit)
  }

  /** The keyset condition as the query states it: strictly beyond the cursor value in the direction of the sort,
      or at the value and strictly beyond the cursor id. */
  predicate PastCursor(p: ProductDoc, sortField: SortField, sortOrder: int, c: CursorPayload) {
    var value := if sortField == CreatedAt then p.createdAt else p.price;
    if sortOrder == -1
    then value < c.value || (value == c.value && p.id < c.id)
    else value > c.value || (value == c.value && p.id > c.id)
  }

  lemma PastCursorIsAfter(p: ProductDoc, sort: SortOrder, c: CursorPayload)
    requires c.field == FieldOf(sort)
    ensures PastCursor(p, FieldOf(sort), Sign(sort), c)
            <==> IsAfter(RankOf(p, sort), CursorRank(Some(Encoded(c)), sort))
  {
  }

  lemma {:induction false} AfterAppend<T>(a: seq<Entry<T>>, b: seq<Entry<T>>, cursor: Option<Rank>)
    ensures After(a + b, cursor) == After(a, cursor) + After(b, cursor)
    decreases |a|
  {
    if a == [] {
      assert a + b == b;
    } else {
      AfterAppend(a[1..], b, cursor);
      assert (a + b)[1..] == a[1..] + b;
    }
  }

  lemma EntriesAppend(a: seq<ProductDoc>, p: ProductDoc, q: ProductQuery)
    ensures Entries(a + [p], q) == Entries(a, q) + if Listable(p, q) then [Entry(RankOf(p, q.sort), p)] else []
  {
    if a == [] {
      assert a + [p] == [p];
    } else {
      EntriesAppend(a[1..], p, q);
      assert (a + [p])[1..] == a[1..] + [p];
    }
  }

  /** What the scan has found grows by a document exactly if it passes the filter and lies past the cursor. */
  lemma ScanStep(products: seq<ProductDoc>, i: nat, q: ProductQuery, cursor: Option<Rank>)
    requires i < |products|
    ensures var p := products[i];
            After(Entries(products[..i+1], q), cursor)
            == After(Entries(products[..i], q), cursor)
               + if Listable(p, q) && IsAfter(RankOf(p, q.sort), cursor) then [Entry(RankOf(p, q.sort), p)] else []
  {
    var p := products[i];
    assert products[..i+1] == products[..i] + [p];
    EntriesAppend(products[..i], p, q);
    var e := Entry(RankOf(p, q.sort), p);
    if Listable(p, q) {
      AfterAppend(Entries(products[..i], q), [e], cursor);
      assert [e][1..] == [];
      assert After([e], cursor) == if IsAfter(e.rank, cursor) then [e] else [];
    } else {
      assert Entries(products[..i+1], q) == Entries(products[..i], q);
    }
  }

  /** The products that the assembled filter lets through. */
  method ScanProducts(
      products: seq<ProductDoc>, q: ProductQuery, sortField: SortField, sortOrder: int, keyset: Option<CursorPayload>)
    returns (matching: seq<Entry<ProductDoc>>)
    requires sortField == FieldOf(q.sort) && sortOrder == Sign(q.sort) && (keyset.Some? ==> keyset.value.field == sortField)
    ensures matching == After(Entries(products, q), KeysetRank(keyset, q.sort))
  {
    matching := [];
    for i := 0 to |products|
      invariant matching == After(Entries(products[..i], q), KeysetRank(keyset, q.sort))
    {
      var p := products[i];
      ScanStep(products, i, q, KeysetRank(keyset, q.sort));
      if keyset.Some? {
        PastCursorIsAfter(p, q.sort, keyset.value);
      }
      if Listable(p, q) && (keyset == None || PastCursor(p, sortField, sortOrder, keyset.value)) {
        matching := matching + [Entry(RankOf(p, q.sort), p)];
      }
    }
    assert products[..|products|] == products;
  }

  function KeysetRank(keyset: Option<CursorPayload>, sort: SortOrder): Option<Rank> {
    match keyset case None => None case Some(c) => CursorRank(Some(Encoded(c)), sort)
  }

  lemma CutIsProductPage(
      products: seq<ProductDoc>, q: ProductQuery, items: seq<Entry<ProductDoc>>, hasMore: bool, last: Option<Entry<ProductDoc>>)
    requires var s := Sort(After(Entries(products, q), CursorRank(q.cursor, q.sort)));
             |items| == (if |s| < q.limit then |s| else q.limit) && items == s[..|items|]
             && (hasMore <==> |s| > |items|) && (last.Some? <==> hasMore && q.limit > 0)
             && (last.Some? ==> last.value == items[|items|-1])
    ensures ProductPage(products, q).items == items && ProductPage(products, q).hasMore == hasMore
    ensures last.Some? <==> ProductPage(products, q).next.Some?
  {
    CutIsFront(Sort(After(Entries(products, q), CursorRank(q.cursor, q.sort))), q.limit, items, hasMore, last);
  }

  /** One page of products, as the repository assembles filter, sort and cursor. */
  method FetchPage(products: seq<ProductDoc>, q: ProductQuery) returns (r: Listed<ProductDoc>)
    ensures r.items == Docs(ProductPage(products, q).items)
    ensures r.hasMore == ProductPage(products, q).hasMore
    ensures r.nextCursor.Some? <==> ProductPage(products, q).next.Some?
    ensures r.nextCursor.Some? ==> r.items != [] && r.nextCursor.value == CursorFor(r.items[|r.items|-1], q.sort)
  {
    var sortField, sortOrder;
    if q.sort == PriceAsc {
      sortField, sortOrder := PriceMinor, 1;
    } else if q.sort == PriceDesc {
      sortField, sortOrder := PriceMinor, -1;
    } else {
      sortField, sortOrder := CreatedAt, -1;
    }
    var keyset: Option<CursorPayload> := None;
    if q.cursor.Some? {
      var decoded := DecodeCursor(q.cursor.value);
      if decoded.Some? && decoded.value.field == sortField {
        keyset := decoded;
      }
    }
    var matching := ScanProducts(products, q, sortField, sortOrder, keyset);
    var items, hasMore, last := CutPage(matching, q.limit);
    CutIsProductPage(products, q, items, hasMore, last);
    var nextCursor := None;
    if last.Some? {
      var lastItem := last.value.doc;
      nextCursor := Some(Encoded(CursorPayload(sortField, if sortField == CreatedAt then lastItem.createdAt else lastItem.price,
                                               lastItem.id)));
    }
    r := Listed(Docs(items), hasMore, nextCursor);
  }

  /** The same, in the customer's terms. */
  method FindProductsPaginated(products: seq<ProductDoc>, q: ProductQuery) returns (r: Listed<ProductDoc>)
    ensures DistinctIds(products) && q.limit >= 1 ==> IsListingPage(products, q, r.items, r.hasMore)
    ensures DistinctIds(products) && q.limit >= 1 ==> r.nextCursor == NextCursor(r.items, r.hasMore, q.sort)
    ensures r.items == Docs(ProductPage(products, q).items) && r.hasMore == ProductPage(products, q).hasMore
    ensures r.nextCursor.Some? <==> ProductPage(products, q).next.Some?
    ensures r.nextCursor.Some? ==> CursorRank(r.nextCursor, q.sort) == ProductPage(products, q).next
  {
    r := FetchPage(products, q);
    if r.nextCursor.Some? {
      LastItemRanked(products, q);
      CursorRoundTrip(r.items[|r.items|-1], q.sort);
    }
    if DistinctIds(products) && q.limit >= 1 {
      ProductPageMeans(products, q);
    }
  }

  /** With more to come, the cursor holds the sort field of the last product, its value there, and its id. */
  function NextCursor(items: seq<ProductDoc>, hasMore: bool, sort: SortOrder): Option<CursorText> {
    if !hasMore || items == [] then None
    else
      var last := items[|items|-1];
      Some(Encoded(if sort == Newest then CursorPayload(CreatedAt, last.createdAt, last.id)
                   else CursorPayload(PriceMinor, last.price, last.id)))
  }

  /** Entries carry the ranks of their products. */
  ghost predicate Ranked(entries: seq<Entry<ProductDoc>>, sort: SortOrder) {
    forall e | e in entries :: e.rank == RankOf(e.doc, sort)
  }

  lemma {:induction false} EntriesRanked(products: seq<ProductDoc>, q: ProductQuery)
    ensures Ranked(Entries(products, q), q.sort)
    ensures forall cursor :: Ranked(After(Entries(products, q), cursor), q.sort)
    decreases |products|
  {
    if products != [] {
      EntriesRanked(products[1..], q);
    }
    forall cursor ensures Ranked(After(Entries(products, q), cursor), q.sort) {
      forall e | e in After(Entries(products, q), cursor) ensures e.rank == RankOf(e.doc, q.sort) {
        AfterMember(Entries(products, q), cursor, e);
      }
    }
  }

  lemma SortedDocsRanked(entries: seq<Entry<ProductDoc>>, sort: SortOrder)
    requires Ranked(entries, sort)
    ensures Ranked(Sort(entries), sort)
  {
    forall e | e in Sort(entries) ensures e.rank == RankOf(e.doc, sort) {
      SortMember(entries, e);
    }
  }

  ghost predicate DistinctIds(products: seq<ProductDoc>) {
    forall i, j | 0 <= i < j < |products| :: products[i].id != products[j].id
  }

  lemma EntryMember(products: seq<ProductDoc>, q: ProductQuery, e: Entry<ProductDoc>)
    ensures e in Entries(products, q)
            <==> e.doc in products && Listable(e.doc, q) && e.rank == RankOf(e.doc, q.sort)
  {
    if products != [] {
      EntryMember(products[1..], q, e);
    }
  }

  lemma {:induction false} EntriesDistinct(products: seq<ProductDoc>, q: ProductQuery)
    requires DistinctIds(products)
    ensures DistinctRanks(Entries(products, q))
    decreases |products|
  {
    if products != [] {
      var p, rest := products[0], Entries(products[1..], q);
      EntriesDistinct(products[1..], q);
      forall e | e in rest ensures e.rank != RankOf(p, q.sort) {
        EntryMember(products[1..], q, e);
      }
    }
  }

  function NextQuery(q: ProductQuery, page: Page<ProductDoc>): ProductQuery
    requires page.items != []
  {
    q.(cursor := Some(CursorFor(page.items[|page.items|-1].doc, q.sort)))
  }

  /** A client's walk: it sends back each page's cursor, with sort, filters and limit unchanged,
      while the catalog is what it is at each fetch. */
  function ProductWalk(catalogs: seq<seq<ProductDoc>>, q: ProductQuery): seq<Page<ProductDoc>>
    decreases |catalogs|
  {
    if catalogs == [] then []
    else
      var page := ProductPage(catalogs[0], q);
      if page.next == None || page.items == [] then [page]
      else [page] + ProductWalk(catalogs[1..], NextQuery(q, page))
  }

  function Fetches(catalogs: seq<seq<ProductDoc>>, q: ProductQuery): seq<seq<Entry<ProductDoc>>> {
    seq(|catalogs|, i requires 0 <= i < |catalogs| => Entries(catalogs[i], q))
  }

  lemma EntriesIgnoreCursor(products: seq<ProductDoc>, q: ProductQuery, cursor: Option<CursorText>)
    ensures Entries(products, q.(cursor := cursor)) == Entries(products, q)
  {
  }

  lemma FetchesUnfold(catalogs: seq<seq<ProductDoc>>, q: ProductQuery, cursor: Option<CursorText>)
    requires catalogs != []
    ensures Fetches(catalogs, q) != [] && Fetches(catalogs, q)[0] == Entries(catalogs[0], q)
    ensures Fetches(catalogs, q)[1..] == Fetches(catalogs[1..], q.(cursor := cursor))
  {
    forall i | 0 <= i < |catalogs[1..]|
      ensures Fetches(catalogs[1..], q.(cursor := cursor))[i] == Fetches(catalogs, q)[1..][i]
    {
      EntriesIgnoreCursor(catalogs[i+1], q, cursor);
    }
  }

  lemma OnePageOfWalk<T>(fetches: seq<seq<Entry<T>>>, cursor: Option<Rank>, limit: nat, page: Page<T>)
    requires fetches != [] && page == PageAfter(fetches[0], cursor, limit)
    ensures Walk(fetches, cursor, limit)
            == if page.next == None then [page] else [page] + Walk(fetches[1..], page.next, limit)
  {
  }

  lemma {:induction false} ProductWalkIsWalk(catalogs: seq<seq<ProductDoc>>, q: ProductQuery)
    ensures ProductWalk(catalogs, q) == Walk(Fetches(catalogs, q), CursorRank(q.cursor, q.sort), q.limit)
    decreases |catalogs|
  {
    if catalogs != [] {
      var page := ProductPage(catalogs[0], q);
      FetchesUnfold(catalogs, q, q.cursor);
      OnePageOfWalk(Fetches(catalogs, q), CursorRank(q.cursor, q.sort), q.limit, page);
      if page.next.Some? {
        ContinuesAfterPage(catalogs, q, page);
        ProductWalkIsWalk(catalogs[1..], NextQuery(q, page));
      }
    }
  }

  lemma ContinuesAfterPage(catalogs: seq<seq<ProductDoc>>, q: ProductQuery, page: Page<ProductDoc>)
    requires catalogs != [] && page == ProductPage(catalogs[0], q) && page.next.Some?
    ensures page.items != []
    ensures CursorRank(NextQuery(q, page).cursor, q.sort) == page.next
    ensures Fetches(catalogs[1..], NextQuery(q, page)) == Fetches(catalogs, q)[1..]
  {
    LastItemRanked(catalogs[0], q);
    CursorRoundTrip(page.items[|page.items|-1].doc, q.sort);
    FetchesUnfold(catalogs, q, NextQuery(q, page).cursor);
  }

  lemma LastItemRanked(products: seq<ProductDoc>, q: ProductQuery)
    requires ProductPage(products, q).next.Some?
    ensures var page := ProductPage(products, q);
            page.items != [] && page.next == Some(RankOf(page.items[|page.items|-1].doc, q.sort))
  {
    var found := After(Entries(products, q), CursorRank(q.cursor, q.sort));
    EntriesRanked(products, q);
    SortedDocsRanked(found, q.sort);
    var page := ProductPage(products, q);
    assert page.items[|page.items|-1] in Sort(found);
  }

  // ---------- the listing in the customer's terms ----------

  /** a is listed before b: cheapest first, dearest first or newest first, and among equals by id in the same direction. */
  predicate ListedBefore(a: ProductDoc, b: ProductDoc, sort: SortOrder) {
    match sort
    case PriceAsc => a.price < b.price || (a.price == b.price && a.id < b.id)
    case PriceDesc => a.price > b.price || (a.price == b.price && a.id > b.id)
    case Newest => a.createdAt > b.createdAt || (a.createdAt == b.createdAt && a.id > b.id)
  }

  ghost predicate InListingOrder(items: seq<ProductDoc>, sort: SortOrder) {
    forall i, j | 0 <= i < j < |items| :: ListedBefore(items[i], items[j], sort)
  }

  /** What the query asks for. */
  predicate Wanted(p: ProductDoc, q: ProductQuery) {
    (!p.isAvailable ==> q.includeUnavailable)
    && (q.category.Some? ==> q.category.value == p.category)
    && (q.search.Some? ==> p.id in q.search.value)
  }

  /** What is left to list after the cursor. A cursor that does not decode, or is of another sort, leaves everything. */
  predicate LeftToList(p: ProductDoc, q: ProductQuery) {
    match q.cursor
    case Some(Encoded(CursorPayload(PriceMinor, value, id))) =>
      (match q.sort
       case PriceAsc => value < p.price || (value == p.price && id < p.id)
       case PriceDesc => value > p.price || (value == p.price && id > p.id)
       case Newest => true)
    case Some(Encoded(CursorPayload(CreatedAt, value, id))) =>
      q.sort == Newest ==> value > p.createdAt || (value == p.createdAt && id > p.id)
    case _ => true
  }

  lemma ListingIsRanking(a: ProductDoc, b: ProductDoc, q: ProductQuery)
    ensures ListedBefore(a, b, q.sort) <==> Before(RankOf(a, q.sort), RankOf(b, q.sort))
    ensures LeftToList(a, q) <==> IsAfter(RankOf(a, q.sort), CursorRank(q.cursor, q.sort))
    ensures Wanted(a, q) <==> Listable(a, q)
  {
  }

  ghost predicate OnPage(p: ProductDoc, products: seq<ProductDoc>, q: ProductQuery) {
    p in products && Wanted(p, q) && LeftToList(p, q)
  }

  /** A page of the listing: what the query asks for and is left to list, in the order asked for, up to the limit. It has more
      to come exactly if something is left out, and all of that comes after its last product. */
  ghost predicate IsListingPage(products: seq<ProductDoc>, q: ProductQuery, items: seq<ProductDoc>, hasMore: bool) {
    InListingOrder(items, q.sort) && |items| <= q.limit
    && (forall p | p in items :: OnPage(p, products, q))
    && (!hasMore ==> forall p | OnPage(p, products, q) :: p in items)
    && (hasMore ==> 0 < |items| == q.limit && (exists p :: OnPage(p, products, q) && p !in items)
                    && forall p | OnPage(p, products, q) && p !in items :: ListedBefore(items[|items|-1], p, q.sort))
  }

  lemma DocsInOrder(entries: seq<Entry<ProductDoc>>, q: ProductQuery)
    requires Ascending(entries) && Ranked(entries, q.sort)
    ensures InListingOrder(Docs(entries), q.sort)
  {
    var items := Docs(entries);
    forall i, j | 0 <= i < j < |items| ensures ListedBefore(items[i], items[j], q.sort) {
      assert entries[i] in entries && entries[j] in entries && Before(entries[i].rank, entries[j].rank);
      ListingIsRanking(items[i], items[j], q);
    }
  }

  lemma DocMember(entries: seq<Entry<ProductDoc>>, sort: SortOrder, p: ProductDoc)
    requires Ranked(entries, sort)
    ensures p in Docs(entries) <==> Entry(RankOf(p, sort), p) in entries
  {
    if p in Docs(entries) {
      var i :| 0 <= i < |entries| && Docs(entries)[i] == p;
      assert entries[i] in entries;
    }
    if Entry(RankOf(p, sort), p) in entries {
      var i :| 0 <= i < |entries| && entries[i] == Entry(RankOf(p, sort), p);
      assert Docs(entries)[i] == p;
    }
  }

  lemma EntryOnPage(products: seq<ProductDoc>, q: ProductQuery, p: ProductDoc)
    ensures OnPage(p, products, q) <==>
              Entry(RankOf(p, q.sort), p) in Entries(products, q) && IsAfter(RankOf(p, q.sort), CursorRank(q.cursor, q.sort))
  {
    ListingIsRanking(p, p, q);
    EntryMember(products, q, Entry(RankOf(p, q.sort), p));
  }

  lemma PageRanked(products: seq<ProductDoc>, q: ProductQuery)
    ensures Ranked(ProductPage(products, q).items, q.sort)
  {
    var found := After(Entries(products, q), CursorRank(q.cursor, q.sort));
    EntriesRanked(products, q);
    SortedDocsRanked(found, q.sort);
    forall e | e in ProductPage(products, q).items ensures e.rank == RankOf(e.doc, q.sort) {
      assert e in Sort(found);
    }
  }

  lemma PageInOrder(products: seq<ProductDoc>, q: ProductQuery)
    requires DistinctIds(products) && q.limit >= 1
    ensures var page := ProductPage(products, q);
            InListingOrder(Docs(page.items), q.sort) && |page.items| <= q.limit
            && (page.hasMore <==> page.next.Some?) && (page.hasMore ==> |page.items| == q.limit)
  {
    EntriesDistinct(products, q);
    PageIsFront(Entries(products, q), CursorRank(q.cursor, q.sort), q.limit);
    PageAfterIsPage(Entries(products, q), CursorRank(q.cursor, q.sort), q.limit);
    PageRanked(products, q);
    DocsInOrder(ProductPage(products, q).items, q);
  }

  lemma PageHolds(products: seq<ProductDoc>, q: ProductQuery, p: ProductDoc)
    requires DistinctIds(products) && q.limit >= 1
    ensures var page := ProductPage(products, q);
            (p in Docs(page.items) ==> OnPage(p, products, q))
            && (page.next == None && OnPage(p, products, q) ==> p in Docs(page.items))
  {
    EntriesDistinct(products, q);
    PageAfterIsPage(Entries(products, q), CursorRank(q.cursor, q.sort), q.limit);
    PageRanked(products, q);
    EntryOnPage(products, q, p);
    DocMember(ProductPage(products, q).items, q.sort, p);
  }

  /** Pages in the customer's terms: no ranks, but prices, dates and ids. */
  lemma ProductPageMeans(products: seq<ProductDoc>, q: ProductQuery)
    requires DistinctIds(products) && q.limit >= 1
    ensures var page := ProductPage(products, q); IsListingPage(products, q, Docs(page.items), page.hasMore)
  {
    var page := ProductPage(products, q);
    PageInOrder(products, q);
    forall p ensures p in Docs(page.items) ==> OnPage(p, products, q) {
      PageHolds(products, q, p);
    }
    if page.hasMore {
      var left := SomethingIsLeft(products, q);
      forall p | OnPage(p, products, q) && p !in Docs(page.items)
        ensures ListedBefore(Docs(page.items)[|page.items|-1], p, q.sort)
      {
        RestComesLater(products, q, p);
      }
    } else {
      forall p | OnPage(p, products, q) ensures p in Docs(page.items) {
        PageHolds(products, q, p);
      }
    }
  }

  lemma SomethingIsLeft(products: seq<ProductDoc>, q: ProductQuery) returns (p: ProductDoc)
    requires DistinctIds(products) && q.limit >= 1 && ProductPage(products, q).next.Some?
    ensures OnPage(p, products, q) && p !in Docs(ProductPage(products, q).items)
  {
    var entries, cursor, page := Entries(products, q), CursorRank(q.cursor, q.sort), ProductPage(products, q);
    EntriesDistinct(products, q);
    PageAfterIsPage(entries, cursor, q.limit);
    var e :| e in entries && Before(page.next.value, e.rank);
    var last := page.items[|page.items|-1];
    assert last in page.items;
    if cursor.Some? {
      BeforeIsTransitive(cursor.value, last.rank, e.rank);
    }
    PageRanked(products, q);
    p := e.doc;
    EntryMember(products, q, e);
    EntryOnPage(products, q, p);
    DocMember(page.items, q.sort, p);
    NoneAfterLast(page.items, e);
  }

  lemma NoneAfterLast<T>(items: seq<Entry<T>>, e: Entry<T>)
    requires Ascending(items) && items != [] && Before(items[|items|-1].rank, e.rank)
    ensures e !in items
  {
    if i :| 0 <= i < |items| && items[i] == e {
      assert i == |items| - 1 || Before(items[i].rank, items[|items|-1].rank);
    }
  }

  lemma RestComesLater(products: seq<ProductDoc>, q: ProductQuery, p: ProductDoc)
    requires DistinctIds(products) && q.limit >= 1 && ProductPage(products, q).next.Some?
    requires OnPage(p, products, q) && p !in Docs(ProductPage(products, q).items)
    ensures var items := ProductPage(products, q).items; items != [] && ListedBefore(items[|items|-1].doc, p, q.sort)
  {
    var entries, cursor, page := Entries(products, q), CursorRank(q.cursor, q.sort), ProductPage(products, q);
    EntriesDistinct(products, q);
    PageAfterIsPage(entries, cursor, q.limit);
    PageRanked(products, q);
    EntryOnPage(products, q, p);
    DocMember(page.items, q.sort, p);
    var last := page.items[|page.items|-1];
    assert last in page.items;
    ListingIsRanking(last.doc, p, q);
  }

  /** The product is in every catalog of the walk, with its sort key and its listability unchanged. */
  ghost predicate StaysListed(catalogs: seq<seq<ProductDoc>>, q: ProductQuery, r: Rank) {
    forall i | 0 <= i < |catalogs| ::
      exists p | p in catalogs[i] :: Listable(p, q) && RankOf(p, q.sort) == r
  }

  /** Whatever is inserted, removed or re-priced between pages: the walk never returns a product twice with the same key,
      and a finished walk has returned exactly once every product that stayed listed with its key. */
  lemma ProductWalkUnderChange(catalogs: seq<seq<ProductDoc>>, q: ProductQuery, r: Rank)
    requires q.limit >= 1 && q.cursor == None && forall c | c in catalogs :: DistinctIds(c)
    ensures Ascending(AllItems(ProductWalk(catalogs, q)))
    ensures Finished(ProductWalk(catalogs, q)) && StaysListed(catalogs, q, r)
            ==> OccursOnce(AllItems(ProductWalk(catalogs, q)), r)
  {
    var fetches := Fetches(catalogs, q);
    ProductWalkIsWalk(catalogs, q);
    forall f | f in fetches ensures DistinctRanks(f) {
      var i :| 0 <= i < |fetches| && fetches[i] == f;
      assert catalogs[i] in catalogs;
      EntriesDistinct(catalogs[i], q);
    }
    WalkAscends(fetches, None, q.limit);
    if Finished(ProductWalk(catalogs, q)) && StaysListed(catalogs, q, r) {
      forall f | f in fetches ensures HasRank(f, r) {
        var i :| 0 <= i < |fetches| && fetches[i] == f;
        var p :| p in catalogs[i] && Listable(p, q) && RankOf(p, q.sort) == r;
        EntryMember(catalogs[i], q, Entry(r, p));
        assert Entry(r, p) in f;
      }
      WalkReturnsOnce(fetches, q.limit, r);
    }
  }

  /** On a fixed catalog the walk returns the sorted listing, in ceil(n / limit) pages for n listed products. */
  lemma ProductWalkOnFixedCatalog(catalogs: seq<seq<ProductDoc>>, products: seq<ProductDoc>, q: ProductQuery)
    requires q.limit >= 1 && q.cursor == None && DistinctIds(products)
    requires |catalogs| > |products| && forall c | c in catalogs :: c == products
    ensures var pages := ProductWalk(catalogs, q);
            Finished(pages) && AllItems(pages) == Sort(Entries(products, q))
            && PageCount(|pages|, |Entries(products, q)|, q.limit)
  {
    var entries := Entries(products, q);
    ProductWalkIsWalk(catalogs, q);
    EntriesDistinct(products, q);
    EntriesBound(products, q);
    AfterNoneIsAll(entries);
    SortSorts(entries);
    forall f | f in Fetches(catalogs, q) ensures f == entries {
      var i :| 0 <= i < |catalogs| && Fetches(catalogs, q)[i] == f;
      assert catalogs[i] in catalogs;
    }
    FixedWalk(Fetches(catalogs, q), entries, None, q.limit);
  }

  /** Whatever changes between pages, a walk lists products in the order asked for, each as some catalog of the walk had it. */
  lemma ProductWalkInOrder(catalogs: seq<seq<ProductDoc>>, q: ProductQuery)
    requires q.limit >= 1 && q.cursor == None && forall c | c in catalogs :: DistinctIds(c)
    ensures var items := Docs(AllItems(ProductWalk(catalogs, q)));
            InListingOrder(items, q.sort)
            && forall p | p in items :: Wanted(p, q) && exists c | c in catalogs :: p in c
  {
    var fetches, entries := Fetches(catalogs, q), AllItems(ProductWalk(catalogs, q));
    ProductWalkIsWalk(catalogs, q);
    FetchesAreGood(catalogs, q);
    WalkAscends(fetches, None, q.limit);
    forall e | e in entries ensures e.rank == RankOf(e.doc, q.sort) && Wanted(e.doc, q) && exists c | c in catalogs :: e.doc in c {
      WalkFindsOnlyFetched(fetches, None, q.limit, e);
      var f :| f in fetches && e in f;
      var i :| 0 <= i < |fetches| && fetches[i] == f;
      EntryMember(catalogs[i], q, e);
      ListingIsRanking(e.doc, e.doc, q);
      assert catalogs[i] in catalogs;
    }
    DocsInOrder(entries, q);
    forall p | p in Docs(entries) ensures Wanted(p, q) && exists c | c in catalogs :: p in c {
      DocMember(entries, q.sort, p);
    }
  }

  lemma FetchesAreGood(catalogs: seq<seq<ProductDoc>>, q: ProductQuery)
    requires forall c | c in catalogs :: DistinctIds(c)
    ensures GoodFetches(Fetches(catalogs, q))
  {
    forall f | f in Fetches(catalogs, q) ensures DistinctRanks(f) {
      var i :| 0 <= i < |catalogs| && Fetches(catalogs, q)[i] == f;
      assert catalogs[i] in catalogs;
      EntriesDistinct(catalogs[i], q);
    }
  }

  /** On a fixed catalog it lists all that the query asks for, and nothing else. */
  lemma FixedWalkListsAllWanted(catalogs: seq<seq<ProductDoc>>, products: seq<ProductDoc>, q: ProductQuery, p: ProductDoc)
    requires q.limit >= 1 && q.cursor == None && DistinctIds(products)
    requires |catalogs| > |products| && forall c | c in catalogs :: c == products
    ensures p in Docs(AllItems(ProductWalk(catalogs, q))) <==> p in products && Wanted(p, q)
  {
    var entries := Entries(products, q);
    ProductWalkOnFixedCatalog(catalogs, products, q);
    EntriesRanked(products, q);
    SortedDocsRanked(entries, q.sort);
    DocMember(Sort(entries), q.sort, p);
    SortMember(entries, Entry(RankOf(p, q.sort), p));
    EntryMember(products, q, Entry(RankOf(p, q.sort), p));
    ListingIsRanking(p, p, q);
  }

  lemma EntriesBound(products: seq<ProductDoc>, q: ProductQuery)
    ensures |Entries(products, q)| <= |products|
  {
  }

  lemma AfterNoneIsAll<T>(entries: seq<Entry<T>>)
    ensures After(entries, None) == entries
  {
  }
}
