/**
 Keyset pagination in general: pages cut out of a sorted collection by the rank of the last item seen.
 A rank is the sort key with the id as tie-break, negated for descending sorts, so that smaller ranks come first.
 */
module Keyset {
  import opened Domain

  datatype Rank = Rank(key: int, id: int)

  datatype Entry<T> = Entry(rank: Rank, doc: T)

  datatype Page<T> = Page(items: seq<Entry<T>>, hasMore: bool, next: Option<Rank>)

  predicate Before(a: Rank, b: Rank) {
    a.key < b.key || (a.key == b.key && a.id < b.id)
  }

  predicate IsAfter(r: Rank, cursor: Option<Rank>) {
    match cursor case None => true case Some(c) => Before(c, r)
  }

  function After<T>(entries: seq<Entry<T>>, cursor: Option<Rank>): seq<Entry<T>> {
    if entries == [] then []
    else if IsAfter(entries[0].rank, cursor) then [entries[0]] + After(entries[1..], cursor)
    else After(entries[1..], cursor)
  }

  function Insert<T>(e: Entry<T>, entries: seq<Entry<T>>): seq<Entry<T>> {
    if entries == [] || Before(e.rank, entries[0].rank) then [e] + entries
    else [entries[0]] + Insert(e, entries[1..])
  }

  function Sort<T>(entries: seq<Entry<T>>): seq<Entry<T>> {
    if entries == [] then [] else Insert(entries[0], Sort(entries[1..]))
  }

  function First<T>(entries: seq<Entry<T>>, n: nat): seq<Entry<T>> {
    if |entries| <= n then entries else entries[..n]
  }

  function PageAfter<T>(entries: seq<Entry<T>>, cursor: Option<Rank>, limit: nat): Page<T> {
    FrontPage(Sort(After(entries, cursor)), limit)
  }

  /** One fetch: one item more than the limit is read to learn whether there is a next page. */
  function FrontPage<T>(sorted: seq<Entry<T>>, limit: nat): Page<T> {
    var found := First(sorted, limit + 1);
    var hasMore := |found| > limit;
    var items := if hasMore then found[..limit] else found;
    Page(items, hasMore, if hasMore && items != [] then Some(items[|items|-1].rank) else None)
  }

  ghost predicate Ascending<T>(entries: seq<Entry<T>>) {
    forall i, j | 0 <= i < j < |entries| :: Before(entries[i].rank, entries[j].rank)
  }

  /** No two documents share a rank: ids are unique. */
  ghost predicate DistinctRanks<T>(entries: seq<Entry<T>>) {
    forall i, j | 0 <= i < j < |entries| :: entries[i].rank != entries[j].rank
  }

  ghost predicate HasRank<T>(entries: seq<Entry<T>>, r: Rank) {
    exists e | e in entries :: e.rank == r
  }

  // ---------- filtering and sorting ----------

  lemma {:induction false} AfterMember<T>(entries: seq<Entry<T>>, cursor: Option<Rank>, e: Entry<T>)
    ensures e in After(entries, cursor) <==> e in entries && IsAfter(e.rank, cursor)
    decreases |entries|
  {
    if entries != [] {
      AfterMember(entries[1..], cursor, e);
      assert entries == [entries[0]] + entries[1..];
    }
  }

  lemma TailDistinct<T>(entries: seq<Entry<T>>)
    requires DistinctRanks(entries) && entries != []
    ensures DistinctRanks(entries[1..])
    ensures forall x | x in entries[1..] :: x.rank != entries[0].rank
  {
    var rest := entries[1..];
    forall i, j | 0 <= i < j < |rest| ensures rest[i].rank != rest[j].rank {
      assert rest[i] == entries[i+1] && rest[j] == entries[j+1];
    }
  }

  lemma {:induction false} AfterDistinct<T>(entries: seq<Entry<T>>, cursor: Option<Rank>)
    requires DistinctRanks(entries)
    ensures DistinctRanks(After(entries, cursor))
    decreases |entries|
  {
    if entries != [] {
      var e, tail := entries[0], After(entries[1..], cursor);
      TailDistinct(entries);
      AfterDistinct(entries[1..], cursor);
      forall x | x in tail ensures x.rank != e.rank {
        AfterMember(entries[1..], cursor, x);
      }
    }
  }

  lemma AfterSelects<T>(entries: seq<Entry<T>>, cursor: Option<Rank>)
    requires DistinctRanks(entries)
    ensures DistinctRanks(After(entries, cursor))
    ensures forall e :: e in After(entries, cursor) <==> e in entries && IsAfter(e.rank, cursor)
  {
    AfterDistinct(entries, cursor);
    forall e: Entry<T> ensures e in After(entries, cursor) <==> e in entries && IsAfter(e.rank, cursor) {
      AfterMember(entries, cursor, e);
    }
  }

  lemma {:induction false} InsertMember<T>(e: Entry<T>, entries: seq<Entry<T>>, x: Entry<T>)
    ensures x in Insert(e, entries) <==> x == e || x in entries
    ensures |Insert(e, entries)| == |entries| + 1
    decreases |entries|
  {
    if !(entries == [] || Before(e.rank, entries[0].rank)) {
      assert entries == [entries[0]] + entries[1..];
      InsertMember(e, entries[1..], x);
    }
  }

  lemma {:induction false} InsertKeeps<T>(e: Entry<T>, entries: seq<Entry<T>>)
    requires Ascending(entries) && forall x | x in entries :: x.rank != e.rank
    ensures Ascending(Insert(e, entries))
    decreases |entries|
  {
    if entries == [] {
    } else if Before(e.rank, entries[0].rank) {
      ConsAscending(e, entries);
    } else {
      var h, t := entries[0], entries[1..];
      TailOfAscending(entries, h);
      assert forall x | x in t :: x in entries;
      InsertKeeps(e, t);
      assert h in entries && Before(h.rank, e.rank);
      forall x | x in Insert(e, t) ensures Before(h.rank, x.rank) {
        InsertMember(e, t, x);
      }
      ConsAscending(h, Insert(e, t));
    }
  }

  lemma ConsAscending<T>(h: Entry<T>, t: seq<Entry<T>>)
    requires Ascending(t) && (t == [] || Before(h.rank, t[0].rank))
    ensures Ascending([h] + t)
  {
  }

  lemma {:induction false} SortMember<T>(entries: seq<Entry<T>>, x: Entry<T>)
    ensures x in Sort(entries) <==> x in entries
    ensures |Sort(entries)| == |entries|
    decreases |entries|
  {
    if entries != [] {
      assert entries == [entries[0]] + entries[1..];
      SortMember(entries[1..], x);
      InsertMember(entries[0], Sort(entries[1..]), x);
    }
  }

  lemma {:induction false} SortAscends<T>(entries: seq<Entry<T>>)
    requires DistinctRanks(entries)
    ensures Ascending(Sort(entries))
    decreases |entries|
  {
    if entries != [] {
      TailDistinct(entries);
      SortAscends(entries[1..]);
      forall x | x in Sort(entries[1..]) ensures x.rank != entries[0].rank {
        SortMember(entries[1..], x);
      }
      InsertKeeps(entries[0], Sort(entries[1..]));
    }
  }

  lemma SortSorts<T>(entries: seq<Entry<T>>)
    requires DistinctRanks(entries)
    ensures Ascending(Sort(entries)) && |Sort(entries)| == |entries|
    ensures forall x :: x in Sort(entries) <==> x in entries
  {
    SortAscends(entries);
    if entries != [] {
      SortMember(entries, entries[0]);
    }
    forall x: Entry<T> ensures x in Sort(entries) <==> x in entries {
      SortMember(entries, x);
    }
  }

  /** Two ascending sequences of the same entries are the same sequence. */
  lemma {:induction false} AscendingIsUnique<T>(a: seq<Entry<T>>, b: seq<Entry<T>>)
    requires Ascending(a) && Ascending(b) && forall x :: x in a <==> x in b
    ensures a == b
    decreases |a|
  {
    HeadIsMember(a);
    HeadIsMember(b);
    if a != [] && b != [] {
      assert a[0] in b && b[0] in a;
      var i :| 0 <= i < |b| && b[i] == a[0];
      var j :| 0 <= j < |a| && a[j] == b[0];
      assert i == 0;
      forall x ensures x in a[1..] <==> x in b[1..] {
        TailOfAscending(a, x);
        TailOfAscending(b, x);
      }
      TailOfAscending(a, a[0]);
      TailOfAscending(b, b[0]);
      AscendingIsUnique(a[1..], b[1..]);
      assert a == [a[0]] + a[1..] && b == [b[0]] + b[1..];
    }
  }

  lemma HeadIsMember<T>(a: seq<T>)
    ensures a != [] ==> a[0] in a
  {
  }

  lemma TailOfAscending<T>(a: seq<Entry<T>>, x: Entry<T>)
    requires a != [] && Ascending(a)
    ensures Ascending(a[1..]) && (x in a[1..] <==> x in a && x != a[0])
  {
    assert a == [a[0]] + a[1..];
  }

  // ---------- one page ----------

  /** What a page promises: the least entries after the cursor in order, up to the limit, and a cursor to go on with
      exactly when something is left. */
  ghost predicate IsPage<T>(entries: seq<Entry<T>>, cursor: Option<Rank>, limit: nat, page: Page<T>) {
    Ascending(page.items) && |page.items| <= limit
    && (forall e | e in page.items :: e in entries && IsAfter(e.rank, cursor))
    && (page.next == None ==> forall e | e in entries && IsAfter(e.rank, cursor) :: e in page.items)
    && (page.next.Some? ==>
          |page.items| == limit && page.items != [] && page.next.value == page.items[|page.items|-1].rank
          && (exists e | e in entries :: Before(page.next.value, e.rank))
          && forall e | e in entries && IsAfter(e.rank, cursor) && !Before(page.next.value, e.rank) :: e in page.items)
  }

  /** The page is the front of the sorted rest. */
  lemma PageIsFront<T>(entries: seq<Entry<T>>, cursor: Option<Rank>, limit: nat)
    requires limit >= 1
    ensures var s, page := Sort(After(entries, cursor)), PageAfter(entries, cursor, limit);
            page == if |s| > limit then Page(s[..limit], true, Some(s[limit-1].rank)) else Page(s, false, None)
  {
    var s := Sort(After(entries, cursor));
    if |s| > limit {
      assert s[..limit+1][..limit] == s[..limit];
    }
  }

  lemma FrontIsPage<T>(entries: seq<Entry<T>>, cursor: Option<Rank>, limit: nat, s: seq<Entry<T>>)
    requires Ascending(s) && 1 <= limit < |s| && forall e :: e in s <==> e in entries && IsAfter(e.rank, cursor)
    ensures IsPage(entries, cursor, limit, Page(s[..limit], true, Some(s[limit-1].rank)))
  {
    assert s[limit] in s && Before(s[limit-1].rank, s[limit].rank);
    forall e | e in entries && IsAfter(e.rank, cursor) && !Before(s[limit-1].rank, e.rank) ensures e in s[..limit] {
      assert e in s;
      var i :| 0 <= i < |s| && s[i] == e;
      assert i < limit;
      assert s[..limit][i] == e;
    }
  }

  lemma WholeIsPage<T>(entries: seq<Entry<T>>, cursor: Option<Rank>, limit: nat, s: seq<Entry<T>>)
    requires Ascending(s) && |s| <= limit && forall e :: e in s <==> e in entries && IsAfter(e.rank, cursor)
    ensures IsPage(entries, cursor, limit, Page(s, false, None))
  {
  }

  lemma PageAfterIsPage<T>(entries: seq<Entry<T>>, cursor: Option<Rank>, limit: nat)
    requires DistinctRanks(entries) && limit >= 1
    ensures IsPage(entries, cursor, limit, PageAfter(entries, cursor, limit))
  {
    var s := Sort(After(entries, cursor));
    PageIsFront(entries, cursor, limit);
    assert Ascending(s) && forall e :: e in s <==> e in entries && IsAfter(e.rank, cursor) by {
      AfterSelects(entries, cursor);
      SortSorts(After(entries, cursor));
    }
    if |s| > limit {
      FrontIsPage(entries, cursor, limit, s);
    } else {
      WholeIsPage(entries, cursor, limit, s);
    }
  }

  /** The cursor of a page is that of its last item. */
  lemma NextIsLast<T>(entries: seq<Entry<T>>, cursor: Option<Rank>, limit: nat)
    requires PageAfter(entries, cursor, limit).next.Some?
    ensures var page := PageAfter(entries, cursor, limit);
            page.items != [] && page.next.value == page.items[|page.items|-1].rank
            && page.items[|page.items|-1] in Sort(After(entries, cursor))
  {
  }

  /** The tail of a paginated query: the least items in order, up to the limit; whether there are others; and the item that
      the next page continues after, if there is to be one. */
  method CutPage<T>(matching: seq<Entry<T>>, limit: nat)
    returns (items: seq<Entry<T>>, hasMore: bool, last: Option<Entry<T>>)
    ensures |items| == if |matching| < limit then |matching| else limit
    ensures |Sort(matching)| == |matching| && items == Sort(matching)[..|items|]
    ensures hasMore <==> |matching| > |items|
    ensures last.Some? <==> hasMore && limit > 0
    ensures last.Some? ==> last.value == items[|items|-1]
  {
    SortLength(matching);
    var found := First(Sort(matching), limit + 1);
    hasMore := |found| > limit;
    items := if hasMore then found[..limit] else found;
    last := None;
    if hasMore && |items| > 0 {
      last := Some(items[|items|-1]);
    }
  }

  lemma SortLength<T>(entries: seq<Entry<T>>)
    ensures |Sort(entries)| == |entries|
  {
    if entries != [] {
      SortMember(entries, entries[0]);
    }
  }

  /** Such a cut is the page. */
  lemma CutIsFront<T>(s: seq<Entry<T>>, limit: nat, items: seq<Entry<T>>, hasMore: bool, last: Option<Entry<T>>)
    requires |items| == (if |s| < limit then |s| else limit) && items == s[..|items|]
    requires (hasMore <==> |s| > |items|) && (last.Some? <==> hasMore && limit > 0)
    requires last.Some? ==> last.value == items[|items|-1]
    ensures Page(items, hasMore, if last.Some? then Some(last.value.rank) else None) == FrontPage(s, limit)
    ensures last.Some? ==> last.value in s
  {
    if |s| > limit {
      assert s[..limit+1][..limit] == s[..limit];
      assert limit > 0 ==> s[limit-1] in s;
    }
  }

  // ---------- walks over a changing collection ----------

  /** Following the cursor, with the collection as it is at each fetch. */
  function Walk<T>(fetches: seq<seq<Entry<T>>>, cursor: Option<Rank>, limit: nat): seq<Page<T>>
    decreases |fetches|
  {
    if fetches == [] then []
    else
      var page := PageAfter(fetches[0], cursor, limit);
      if page.next == None then [page] else [page] + Walk(fetches[1..], page.next, limit)
  }

  function AllItems<T>(pages: seq<Page<T>>): seq<Entry<T>> {
    if pages == [] then [] else pages[0].items + AllItems(pages[1..])
  }

  predicate Finished<T>(pages: seq<Page<T>>) {
    pages != [] && pages[|pages|-1].next == None
  }

  ghost predicate GoodFetches<T>(fetches: seq<seq<Entry<T>>>) {
    forall f | f in fetches :: DistinctRanks(f)
  }

  lemma WalkStep<T>(fetches: seq<seq<Entry<T>>>, cursor: Option<Rank>, limit: nat)
    requires GoodFetches(fetches) && limit >= 1 && fetches != []
    ensures IsPage(fetches[0], cursor, limit, PageAfter(fetches[0], cursor, limit))
    ensures var page := PageAfter(fetches[0], cursor, limit);
            var pages := Walk(fetches, cursor, limit);
            pages[0] == page
            && (page.next == None ==> pages[1..] == [] && AllItems(pages) == page.items && Finished(pages))
            && (page.next.Some? ==>
                  pages[1..] == Walk(fetches[1..], page.next, limit)
                  && AllItems(pages) == page.items + AllItems(pages[1..])
                  && (Finished(pages) <==> Finished(pages[1..])))
    ensures GoodFetches(fetches[1..])
  {
    assert fetches[0] in fetches;
    PageAfterIsPage(fetches[0], cursor, limit);
    var page := PageAfter(fetches[0], cursor, limit);
    var pages := Walk(fetches, cursor, limit);
    if page.next == None {
      assert pages == [page] && pages[1..] == [];
      assert AllItems(pages) == page.items + [];
    } else {
      assert pages[1..] == Walk(fetches[1..], page.next, limit);
    }
    assert forall f | f in fetches[1..] :: f in fetches;
  }

  /** A page, continued by items after its last one. */
  lemma PageThenRest<T>(entries: seq<Entry<T>>, cursor: Option<Rank>, limit: nat, page: Page<T>, rest: seq<Entry<T>>)
    requires IsPage(entries, cursor, limit, page) && page.next.Some?
    requires Ascending(rest) && forall e | e in rest :: IsAfter(e.rank, page.next)
    ensures Ascending(page.items + rest)
    ensures forall e | e in page.items + rest :: IsAfter(e.rank, cursor)
  {
    JoinAscending(page.items, rest);
    var last := page.items[|page.items|-1];
    assert last in page.items;
    forall e | e in rest ensures IsAfter(e.rank, cursor) {
      if cursor.Some? {
        BeforeIsTransitive(cursor.value, last.rank, e.rank);
      }
    }
  }

  lemma {:induction false} BeforeIsTransitive(a: Rank, b: Rank, c: Rank)
    requires Before(a, b) && Before(b, c)
    ensures Before(a, c)
  {
  }

  /** However the collection changes between pages, the ranks seen only go up: nothing whose rank stays is seen twice. */
  lemma {:induction false} WalkAscends<T>(fetches: seq<seq<Entry<T>>>, cursor: Option<Rank>, limit: nat)
    requires GoodFetches(fetches) && limit >= 1
    ensures Ascending(AllItems(Walk(fetches, cursor, limit)))
    ensures forall e | e in AllItems(Walk(fetches, cursor, limit)) :: IsAfter(e.rank, cursor)
    decreases |fetches|
  {
    if fetches != [] {
      WalkStep(fetches, cursor, limit);
      var page := PageAfter(fetches[0], cursor, limit);
      if page.next.Some? {
        WalkAscends(fetches[1..], page.next, limit);
        PageThenRest(fetches[0], cursor, limit, page, AllItems(Walk(fetches[1..], page.next, limit)));
      }
    }
  }

  lemma JoinAscending<T>(a: seq<Entry<T>>, b: seq<Entry<T>>)
    requires Ascending(a) && Ascending(b) && a != []
    requires forall e | e in b :: Before(a[|a|-1].rank, e.rank)
    ensures Ascending(a + b)
  {
    forall i, j | 0 <= i < j < |a + b| ensures Before((a + b)[i].rank, (a + b)[j].rank) {
      if i < |a| <= j {
        assert b[j-|a|] in b && Before(a[|a|-1].rank, b[j-|a|].rank);
        assert i == |a|-1 || Before(a[i].rank, a[|a|-1].rank);
      }
    }
  }

  /** A finished walk has returned every rank that was there at each of its fetches. */
  lemma {:induction false} WalkMissesNothing<T>(fetches: seq<seq<Entry<T>>>, cursor: Option<Rank>, limit: nat, r: Rank)
    requires GoodFetches(fetches) && limit >= 1 && Finished(Walk(fetches, cursor, limit))
    requires IsAfter(r, cursor) && forall f | f in fetches :: HasRank(f, r)
    ensures HasRank(AllItems(Walk(fetches, cursor, limit)), r)
    decreases |fetches|
  {
    WalkStep(fetches, cursor, limit);
    var page := PageAfter(fetches[0], cursor, limit);
    var items := AllItems(Walk(fetches, cursor, limit));
    assert fetches[0] in fetches;
    var e :| e in fetches[0] && e.rank == r;
    if page.next == None || !Before(page.next.value, r) {
      assert e in page.items && e in items;
    } else {
      assert forall f | f in fetches[1..] :: f in fetches;
      WalkMissesNothing(fetches[1..], page.next, limit, r);
      var x :| x in AllItems(Walk(fetches[1..], page.next, limit)) && x.rank == r;
      assert x in items;
    }
  }

  ghost predicate OccursOnce<T>(items: seq<Entry<T>>, r: Rank) {
    exists i | 0 <= i < |items| :: items[i].rank == r && forall j | 0 <= j < |items| && j != i :: items[j].rank != r
  }

  lemma AscendingOccursOnce<T>(items: seq<Entry<T>>, r: Rank)
    requires Ascending(items) && HasRank(items, r)
    ensures OccursOnce(items, r)
  {
    var e :| e in items && e.rank == r;
    var i :| 0 <= i < |items| && items[i] == e;
    forall j | 0 <= j < |items| && j != i ensures items[j].rank != r {
      assert if j < i then Before(items[j].rank, items[i].rank) else Before(items[i].rank, items[j].rank);
    }
  }

  /** ... and has returned it exactly once. */
  lemma WalkReturnsOnce<T>(fetches: seq<seq<Entry<T>>>, limit: nat, r: Rank)
    requires GoodFetches(fetches) && limit >= 1 && Finished(Walk(fetches, None, limit))
    requires forall f | f in fetches :: HasRank(f, r)
    ensures OccursOnce(AllItems(Walk(fetches, None, limit)), r)
  {
    WalkMissesNothing(fetches, None, limit, r);
    WalkAscends(fetches, None, limit);
    AscendingOccursOnce(AllItems(Walk(fetches, None, limit)), r);
  }

  /** A walk returns nothing that was not there at some fetch. */
  lemma {:induction false} WalkFindsOnlyFetched<T>(fetches: seq<seq<Entry<T>>>, cursor: Option<Rank>, limit: nat, e: Entry<T>)
    requires GoodFetches(fetches) && limit >= 1 && e in AllItems(Walk(fetches, cursor, limit))
    ensures exists f | f in fetches :: e in f
    decreases |fetches|
  {
    if fetches != [] {
      WalkStep(fetches, cursor, limit);
      var page := PageAfter(fetches[0], cursor, limit);
      assert fetches[0] in fetches;
      if e !in page.items {
        WalkFindsOnlyFetched(fetches[1..], page.next, limit, e);
        var f :| f in fetches[1..] && e in f;
        assert f in fetches;
      }
    }
  }

  // ---------- walks over a fixed collection ----------

  /** On a fixed collection what is left after a page is the sorted rest. */
  lemma RestAfterPage<T>(entries: seq<Entry<T>>, cursor: Option<Rank>, k: nat)
    requires DistinctRanks(entries)
    requires 1 <= k <= |Sort(After(entries, cursor))|
    ensures var s := Sort(After(entries, cursor));
            Sort(After(entries, Some(s[k-1].rank))) == s[k..]
  {
    var s := Sort(After(entries, cursor));
    var next := Some(s[k-1].rank);
    AfterSelects(entries, cursor);
    AfterSelects(entries, next);
    SortSorts(After(entries, cursor));
    SortSorts(After(entries, next));
    forall x ensures x in s[k..] <==> x in entries && Before(s[k-1].rank, x.rank) {
      RestMembers(entries, cursor, s, k, x);
    }
    AscendingIsUnique(s[k..], Sort(After(entries, next)));
  }

  lemma RestMembers<T>(entries: seq<Entry<T>>, cursor: Option<Rank>, s: seq<Entry<T>>, k: nat, x: Entry<T>)
    requires Ascending(s) && 1 <= k <= |s| && forall e :: e in s <==> e in entries && IsAfter(e.rank, cursor)
    ensures x in s[k..] <==> x in entries && Before(s[k-1].rank, x.rank)
  {
    if x in s[k..] {
      var i :| k <= i < |s| && s[i] == x;
      assert x in s && Before(s[k-1].rank, s[i].rank);
    }
    if x in entries && Before(s[k-1].rank, x.rank) {
      assert s[k-1] in s;
      if cursor.Some? {
        BeforeIsTransitive(cursor.value, s[k-1].rank, x.rank);
      }
      assert x in s;
      var i :| 0 <= i < |s| && s[i] == x;
      assert i < k - 1 ==> Before(s[i].rank, s[k-1].rank);
      assert s[k..][i-k] == x;
    }
  }

  /** `pages` pages of at most `limit` items each, none but the last short, hold n items. */
  predicate PageCount(pages: int, n: nat, limit: nat) {
    if n == 0 then pages == 1 else (pages - 1) * limit < n <= pages * limit
  }

  /** The pages hold all of the sorted items s, and a walk needs just so many. */
  ghost predicate Covers<T>(pages: seq<Page<T>>, s: seq<Entry<T>>, limit: nat) {
    Finished(pages) && AllItems(pages) == s && PageCount(|pages|, |s|, limit)
  }

  lemma LastPageCovers<T>(fetches: seq<seq<Entry<T>>>, cursor: Option<Rank>, limit: nat, s: seq<Entry<T>>)
    requires fetches != [] && limit >= 1 && s == Sort(After(fetches[0], cursor)) && |s| <= limit
    ensures Covers(Walk(fetches, cursor, limit), s, limit)
  {
    PageIsFront(fetches[0], cursor, limit);
    var pages := Walk(fetches, cursor, limit);
    assert pages == [Page(s, false, None)] && pages[1..] == [];
    assert AllItems(pages) == s + [];
  }

  lemma FullPageCovers<T>(fetches: seq<seq<Entry<T>>>, cursor: Option<Rank>, limit: nat, s: seq<Entry<T>>)
    requires fetches != [] && limit >= 1 && s == Sort(After(fetches[0], cursor)) && |s| > limit
    requires Covers(Walk(fetches[1..], Some(s[limit-1].rank), limit), s[limit..], limit)
    ensures Covers(Walk(fetches, cursor, limit), s, limit)
  {
    PageIsFront(fetches[0], cursor, limit);
    var page := Page(s[..limit], true, Some(s[limit-1].rank));
    JoinPages(page, Walk(fetches[1..], page.next, limit), s, limit);
  }

  lemma JoinPages<T>(page: Page<T>, rest: seq<Page<T>>, s: seq<Entry<T>>, limit: nat)
    requires |s| > limit && page.items == s[..limit] && Covers(rest, s[limit..], limit)
    ensures Covers([page] + rest, s, limit)
  {
    assert ([page] + rest)[1..] == rest;
    assert s[..limit] + s[limit..] == s;
    OneMorePage(|rest|, |s|, limit);
  }

  /** On a fixed collection the pages join up to the sorted collection, in ceil(n / limit) pages for n items. */
  lemma {:induction false} FixedWalk<T>(fetches: seq<seq<Entry<T>>>, entries: seq<Entry<T>>, cursor: Option<Rank>, limit: nat)
    requires DistinctRanks(entries) && limit >= 1 && |fetches| > |Sort(After(entries, cursor))|
    requires forall f | f in fetches :: f == entries
    ensures Covers(Walk(fetches, cursor, limit), Sort(After(entries, cursor)), limit)
    decreases |fetches|
  {
    var s := Sort(After(entries, cursor));
    assert fetches[0] in fetches;
    if |s| > limit {
      RestAfterPage(entries, cursor, limit);
      assert forall f | f in fetches[1..] :: f in fetches;
      FixedWalk(fetches[1..], entries, Some(s[limit-1].rank), limit);
      FullPageCovers(fetches, cursor, limit, s);
    } else {
      LastPageCovers(fetches, cursor, limit, s);
    }
  }

  lemma OneMorePage(pages: int, n: nat, limit: nat)
    requires limit < n && PageCount(pages, n - limit, limit)
    ensures PageCount(pages + 1, n, limit)
  {
    assert (pages + 1) * limit == pages * limit + limit;
    assert (pages - 1) * limit == pages * limit - limit;
  }
}
