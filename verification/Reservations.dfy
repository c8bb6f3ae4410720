/**
 The reservation service over its two collections, as a store updated in place.
 A method named `...InSession` runs inside a transaction of its caller; the others are whole transactions.
 */
module Reservations {
  import opened Domain
  import opened Ledger

  datatype ReserveResult =
    | Reserved
    | InsufficientStock(product: ProductId)
    | InvalidReservation
    | DuplicateReservation

  datatype StockLevel = StockLevel(onHand: int, reserved: int, available: int)

  // ---------- totals do not depend on the order of the lines ----------

  lemma QtyOfConcat(a: seq<Item>, b: seq<Item>, p: ProductId)
    ensures QtyOf(a + b, p) == QtyOf(a, p) + QtyOf(b, p)
  {
    if a == [] {
      assert a + b == b;
    } else {
      QtyOfConcat(a[1..], b, p);
      assert (a + b)[1..] == a[1..] + b;
    }
  }

  lemma QtyOfRemove(items: seq<Item>, i: nat, p: ProductId)
    requires i < |items|
    ensures QtyOf(items, p) == QtyOf(items[..i] + items[i+1..], p) + (if items[i].product == p then items[i].qty else 0)
  {
    assert items == items[..i] + ([items[i]] + items[i+1..]);
    QtyOfConcat(items[..i], [items[i]] + items[i+1..], p);
    QtyOfConcat(items[..i], items[i+1..], p);
  }

  lemma RestMultiset(items: seq<Item>, i: nat)
    requires i < |items|
    ensures multiset(items[..i] + items[i+1..]) == multiset(items) - multiset{items[i]}
  {
    assert items == items[..i] + [items[i]] + items[i+1..];
  }

  /** The total is the same in whatever order the lines are taken. */
  lemma {:induction false} QtyOfPermutation(a: seq<Item>, b: seq<Item>, p: ProductId)
    requires multiset(a) == multiset(b)
    ensures QtyOf(a, p) == QtyOf(b, p)
    decreases |a|
  {
    if a == [] {
      assert |multiset(b)| == |b|;
    } else {
      assert a[0] in multiset(a);
      var i :| 0 <= i < |b| && b[i] == a[0];
      RestMultiset(a, 0);
      RestMultiset(b, i);
      QtyOfRemove(b, i, p);
      assert a[..0] + a[1..] == a[1..];
      QtyOfPermutation(a[1..], b[..i] + b[i+1..], p);
    }
  }

  ghost predicate SortedByProduct(items: seq<Item>) {
    forall i, j | 0 <= i < j < |items| :: items[i].product <= items[j].product
  }

  function InsertByProduct(item: Item, items: seq<Item>): (r: seq<Item>)
    ensures |r| == |items| + 1
  {
    if items == [] || item.product <= items[0].product then [item] + items
    else [items[0]] + InsertByProduct(item, items[1..])
  }

  function SortByProduct(items: seq<Item>): seq<Item> {
    if items == [] then [] else InsertByProduct(items[0], SortByProduct(items[1..]))
  }

  lemma {:induction false} InsertByProductKeeps(item: Item, items: seq<Item>)
    ensures multiset(InsertByProduct(item, items)) == multiset(items) + multiset{item}
    decreases |items|
  {
    if !(items == [] || item.product <= items[0].product) {
      assert items == [items[0]] + items[1..];
      InsertByProductKeeps(item, items[1..]);
    }
  }

  lemma SameMembers(a: seq<Item>, b: seq<Item>)
    requires multiset(a) == multiset(b)
    ensures forall x :: x in a <==> x in b
  {
    assert forall x :: x in a <==> x in multiset(a);
    assert forall x :: x in b <==> x in multiset(b);
  }

  lemma ConsSorted(item: Item, items: seq<Item>)
    requires SortedByProduct(items) && (items == [] || item.product <= items[0].product)
    ensures SortedByProduct([item] + items)
  {
  }

  lemma {:induction false} InsertByProductSorts(item: Item, items: seq<Item>)
    requires SortedByProduct(items)
    ensures SortedByProduct(InsertByProduct(item, items))
    ensures InsertByProduct(item, items)[0] == if items == [] || item.product <= items[0].product then item else items[0]
    decreases |items|
  {
    if items == [] || item.product <= items[0].product {
      ConsSorted(item, items);
    } else {
      InsertByProductSorts(item, items[1..]);
      ConsSorted(items[0], InsertByProduct(item, items[1..]));
    }
  }

  lemma {:induction false} SortByProductSorts(items: seq<Item>)
    ensures SortedByProduct(SortByProduct(items))
    ensures multiset(SortByProduct(items)) == multiset(items)
    decreases |items|
  {
    if items != [] {
      assert items == [items[0]] + items[1..];
      SortByProductSorts(items[1..]);
      InsertByProductSorts(items[0], SortByProduct(items[1..]));
      InsertByProductKeeps(items[0], SortByProduct(items[1..]));
    }
  }

  /** p is the least product on the lines that does not fit. */
  ghost predicate LeastUnfit(inventory: map<ProductId, Stock>, items: seq<Item>, p: ProductId) {
    !Fits(inventory, items, p)
    && (exists item | item in items :: item.product == p)
    && forall item | item in items && item.product < p :: Fits(inventory, items, item.product)
  }

  /** What the rest of the proof needs of the sorted lines. */
  ghost predicate IsSortingOf(sorted: seq<Item>, items: seq<Item>) {
    SortedByProduct(sorted)
    && (forall x :: x in sorted <==> x in items)
    && forall p: ProductId :: QtyOf(sorted, p) == QtyOf(items, p)
  }

  lemma SortByProductIsSorting(items: seq<Item>)
    ensures IsSortingOf(SortByProduct(items), items)
  {
    SortByProductSorts(items);
    SameMembers(SortByProduct(items), items);
    forall p: ProductId ensures QtyOf(SortByProduct(items), p) == QtyOf(items, p) {
      QtyOfPermutation(SortByProduct(items), items, p);
    }
  }

  lemma SplitTotal(items: seq<Item>, i: nat, p: ProductId)
    requires i <= |items|
    ensures QtyOf(items, p) == QtyOf(items[..i], p) + QtyOf(items[i..], p)
  {
    QtyOfConcat(items[..i], items[i..], p);
    assert items == items[..i] + items[i..];
  }

  /** Every line before line i has passed its conditional increment. */
  ghost predicate PassedUpTo(inventory: map<ProductId, Stock>, sorted: seq<Item>, i: nat)
    requires i <= |sorted|
  {
    forall j | 0 <= j < i :: Fits(inventory, sorted[..i], sorted[j].product)
  }

  lemma EarlierLinesFit(inventory: map<ProductId, Stock>, items: seq<Item>, sorted: seq<Item>, i: nat, item: Item)
    requires IsSortingOf(sorted, items) && i < |sorted| && PassedUpTo(inventory, sorted, i)
    requires item in items && item.product < sorted[i].product
    ensures Fits(inventory, items, item.product)
  {
    var j :| 0 <= j < |sorted| && sorted[j] == item;
    assert j < i;
    SplitTotal(sorted, i, item.product);
    UnlistedQty(sorted[i..], item.product);
  }

  /** A line that fails its conditional increment proves that the reservation as a whole does not fit,
      and is on the least product that does not. */
  lemma FailureMeansUnfit(inventory: map<ProductId, Stock>, items: seq<Item>, sorted: seq<Item>, i: nat)
    requires ValidItems(items) && IsSortingOf(sorted, items) && i < |sorted| && PassedUpTo(inventory, sorted, i)
    requires !Fits(inventory, sorted[..i+1], sorted[i].product)
    ensures !AllFit(inventory, items)
    ensures LeastUnfit(inventory, items, sorted[i].product)
  {
    var p := sorted[i].product;
    assert sorted[i] in items;
    SplitTotal(sorted, i + 1, p);
    QtyNonNegative(sorted[i+1..], p);
    forall item | item in items && item.product < p ensures Fits(inventory, items, item.product) {
      EarlierLinesFit(inventory, items, sorted, i, item);
    }
  }

  /** Once every sorted line has passed, the lines fit as a whole. */
  lemma NoFailureMeansFit(inventory: map<ProductId, Stock>, items: seq<Item>, sorted: seq<Item>)
    requires IsSortingOf(sorted, items) && PassedUpTo(inventory, sorted, |sorted|)
    ensures AllFit(inventory, items)
  {
    assert sorted[..|sorted|] == sorted;
    forall item | item in items ensures Fits(inventory, items, item.product) {
      var j :| 0 <= j < |sorted| && sorted[j] == item;
    }
  }

  /** The counters after the first i lines. */
  ghost predicate HeldUpTo(before: map<ProductId, Stock>, now: map<ProductId, Stock>, sorted: seq<Item>, i: nat)
    requires i <= |sorted|
  {
    now.Keys == before.Keys && forall p | p in now :: now[p] == Moved(before[p], Hold, QtyOf(sorted[..i], p))
  }

  lemma LinePasses(before: map<ProductId, Stock>, now: map<ProductId, Stock>, sorted: seq<Item>, i: nat)
    requires i < |sorted| && HeldUpTo(before, now, sorted, i) && PassedUpTo(before, sorted, i)
    requires sorted[i].qty >= 1
    ensures (var p := sorted[i].product; p in now && now[p].onHand - now[p].reserved >= sorted[i].qty)
            <==> Fits(before, sorted[..i+1], sorted[i].product)
    ensures Fits(before, sorted[..i+1], sorted[i].product) ==>
              var p := sorted[i].product;
              PassedUpTo(before, sorted, i + 1)
              && HeldUpTo(before, now[p := Moved(now[p], Hold, sorted[i].qty)], sorted, i + 1)
  {
    PrefixGrows(sorted, i);
  }

  lemma PrefixGrows(items: seq<Item>, i: nat)
    requires i < |items|
    ensures forall p: ProductId ::
              QtyOf(items[..i+1], p) == QtyOf(items[..i], p) + (if items[i].product == p then items[i].qty else 0)
  {
    forall p: ProductId
      ensures QtyOf(items[..i+1], p) == QtyOf(items[..i], p) + (if items[i].product == p then items[i].qty else 0)
    {
      assert items[..i+1] == items[..i] + [items[i]];
      QtyOfConcat(items[..i], [items[i]], p);
    }
  }

  /** Reserving does not depend on how the lines are listed: neither whether it succeeds nor the stock it leaves. */
  lemma ReserveOrderFree(s: State, o: OrderId, a: seq<Item>, b: seq<Item>)
    requires multiset(a) == multiset(b)
    ensures CanReserve(s, o, a) <==> CanReserve(s, o, b)
    ensures forall move :: Shifted(s.inventory, a, move) == Shifted(s.inventory, b, move)
  {
    forall p: ProductId ensures QtyOf(a, p) == QtyOf(b, p) {
      QtyOfPermutation(a, b, p);
    }
    SameMembers(a, b);
    assert |multiset(a)| == |a| && |multiset(b)| == |b|;
  }

  // ---------- runs ----------

  lemma PostAllAppend(s: State, steps: seq<Step>, last: Step)
    ensures PostAll(s, steps + [last]) == Post(PostAll(s, steps), last)
    decreases |steps|
  {
    if steps == [] {
      assert [] + [last] == [last];
      assert PostAll(s, [last]) == PostAll(Post(s, last), []);
    } else {
      PostAllAppend(Post(s, steps[0]), steps[1..], last);
      assert (steps + [last])[1..] == steps[1..] + [last];
    }
  }

  predicate PastExpiry(s: State, o: OrderId, now: Time) {
    IsActive(s, o) && s.reservations[o].expiresAt < now
  }

  function PastExpirySet(s: State, now: Time): set<OrderId> {
    set o | o in s.reservations && PastExpiry(s, o, now)
  }

  function SweepSteps(swept: seq<OrderId>, now: Time): seq<Step> {
    if swept == [] then [] else [ExpireSwept(swept[0], now)] + SweepSteps(swept[1..], now)
  }

  lemma SweepStepsAppend(swept: seq<OrderId>, o: OrderId, now: Time)
    ensures SweepSteps(swept + [o], now) == SweepSteps(swept, now) + [ExpireSwept(o, now)]
  {
    if swept == [] {
      assert [] + [o] == [o];
    } else {
      assert (swept + [o])[1..] == swept[1..] + [o];
    }
  }

  ghost predicate Distinct(os: seq<OrderId>) {
    forall i, j | 0 <= i < j < |os| :: os[i] != os[j]
  }

  /** Units of p on the listed reservations. */
  function HeldBy(s: State, os: seq<OrderId>, p: ProductId): int {
    if os == [] then 0
    else (if os[0] in s.reservations then QtyOf(s.reservations[os[0]].items, p) else 0) + HeldBy(s, os[1..], p)
  }

  lemma HeldByFrame(s: State, t: State, os: seq<OrderId>, p: ProductId)
    requires forall o | o in os :: o in s.reservations && o in t.reservations && s.reservations[o] == t.reservations[o]
    ensures HeldBy(s, os, p) == HeldBy(t, os, p)
  {
    if os != [] {
      assert forall o | o in os[1..] :: o in os;
      HeldByFrame(s, t, os[1..], p);
    }
  }

  /** A sweep puts back exactly what the swept reservations held, and touches nothing else. */
  lemma {:induction false} SweepReturnsHolds(s: State, swept: seq<OrderId>, now: Time, t: State)
    requires Distinct(swept) && forall o | o in swept :: PastExpiry(s, o, now)
    requires t == PostAll(s, SweepSteps(swept, now))
    ensures t.reservations.Keys == s.reservations.Keys && t.inventory.Keys == s.inventory.Keys
    ensures forall o | o in s.reservations ::
              t.reservations[o] == if o in swept then s.reservations[o].(status := Expired) else s.reservations[o]
    ensures forall p | p in s.inventory ::
              t.inventory[p] == Stock(s.inventory[p].onHand, s.inventory[p].reserved - HeldBy(s, swept, p))
    decreases |swept|
  {
    if swept != [] {
      var o := swept[0];
      assert PastExpiry(s, o, now);
      var s1 := Post(s, ExpireSwept(o, now));
      var steps := SweepSteps(swept, now);
      assert steps[0] == ExpireSwept(o, now) && steps[1..] == SweepSteps(swept[1..], now);
      assert forall o' | o' in swept[1..] :: o' in swept && o' != o;
      SweepReturnsHolds(s1, swept[1..], now, t);
      forall p | p in s.inventory
        ensures t.inventory[p] == Stock(s.inventory[p].onHand, s.inventory[p].reserved - HeldBy(s, swept, p))
      {
        HeldByFrame(s, s1, swept[1..], p);
        assert HeldBy(s, swept, p) == QtyOf(s.reservations[o].items, p) + HeldBy(s, swept[1..], p);
        assert s1.inventory[p] == Moved(s.inventory[p], Return, QtyOf(s.reservations[o].items, p));
      }
    }
  }

  class InventoryStore {
    var inventory: map<ProductId, Stock>
    var reservations: map<OrderId, Reservation>

    constructor (inventory: map<ProductId, Stock>)
      ensures Contents() == State(inventory, map[])
    {
      this.inventory := inventory;
      this.reservations := map[];
    }

    function Contents(): State
      reads this
    {
      State(inventory, reservations)
    }

    /** Conditional increments in product order, then the reservation record.
        After a failure the counters may be half updated: the caller's transaction rolls them back. */
    method ReserveStockInSession(order: OrderId, items: seq<Item>, expiresAt: Time) returns (r: ReserveResult)
      modifies this
      ensures r.Reserved? <==> CanReserve(old(Contents()), order, items)
      ensures r.Reserved? ==> Contents() == Post(old(Contents()), Reserve(order, items, expiresAt))
      ensures r.InsufficientStock? && ValidItems(items) ==> LeastUnfit(old(inventory), items, r.product)
      ensures r.InvalidReservation? ==> !ValidItems(items)
      ensures r.DuplicateReservation? <==> order in old(reservations) && Reservable(old(inventory), items)
    {
      var sortedItems := SortByProduct(items);
      SortByProductIsSorting(items);
      var i := 0;
      while i < |sortedItems|
        invariant 0 <= i <= |sortedItems|
        invariant reservations == old(reservations)
        invariant ValidItems(items) ==>
                    HeldUpTo(old(inventory), inventory, sortedItems, i) && PassedUpTo(old(inventory), sortedItems, i)
      {
        var item := sortedItems[i];
        assert item in items;
        if ValidItems(items) {
          LinePasses(old(inventory), inventory, sortedItems, i);
        }
        if !(item.product in inventory
             && inventory[item.product].onHand - inventory[item.product].reserved >= item.qty) {
          if ValidItems(items) {
            FailureMeansUnfit(old(inventory), items, sortedItems, i);
          }
          return InsufficientStock(item.product);
        }
        var row := inventory[item.product];
        inventory := inventory[item.product := row.(reserved := row.reserved + item.qty)];
        i := i + 1;
      }
      if !ValidItems(items) {
        return InvalidReservation;
      }
      NoFailureMeansFit(old(inventory), items, sortedItems);
      if order in reservations {
        return DuplicateReservation;
      }
      reservations := reservations[order := Reservation(items, Active, expiresAt)];
      assert sortedItems[..i] == sortedItems;
      assert inventory == Shifted(old(inventory), items, Hold);
      return Reserved;
    }

    /** Reserve all lines or nothing: a failure leaves the store as it was. */
    method ReserveStock(order: OrderId, items: seq<Item>, expiresAt: Time) returns (r: ReserveResult)
      modifies this
      ensures r.Reserved? <==> CanReserve(old(Contents()), order, items)
      ensures Contents() == Post(old(Contents()), Reserve(order, items, expiresAt))
      ensures r.Reserved? <==>
                items != [] && order !in old(reservations)
                && forall item | item in items ::
                     item.qty >= 1 && item.product in old(inventory)
                     && old(inventory)[item.product].reserved + QtyOf(items, item.product) <= old(inventory)[item.product].onHand
      ensures r.Reserved? ==>
                reservations == old(reservations)[order := Reservation(items, Active, expiresAt)]
                && forall p | p in inventory :: inventory[p].reserved == old(inventory)[p].reserved + QtyOf(items, p)
      ensures !r.Reserved? ==> Contents() == old(Contents())
      ensures r.InsufficientStock? && ValidItems(items) ==> LeastUnfit(old(inventory), items, r.product)
    {
      var inventoryBefore, reservationsBefore := inventory, reservations;
      r := ReserveStockInSession(order, items, expiresAt);
      if !r.Reserved? {
        inventory, reservations := inventoryBefore, reservationsBefore;
      }
    }

    /** The counter updates of one reservation, completed in any order; a missing stock row is skipped. */
    method ShiftStock(items: seq<Item>, move: Move)
      modifies this`inventory
      ensures inventory == Shifted(old(inventory), items, move)
    {
      var pending := items;
      while pending != []
        invariant inventory.Keys == old(inventory).Keys
        invariant forall p | p in inventory ::
                    Moved(inventory[p], move, QtyOf(pending, p)) == Moved(old(inventory)[p], move, QtyOf(items, p))
        decreases |pending|
      {
        var i :| 0 <= i < |pending|;
        var item := pending[i];
        forall p: ProductId
          ensures QtyOf(pending, p)
               == QtyOf(pending[..i] + pending[i+1..], p) + (if item.product == p then item.qty else 0)
        {
          QtyOfRemove(pending, i, p);
        }
        if item.product in inventory {
          inventory := inventory[item.product := Moved(inventory[item.product], move, item.qty)];
        }
        pending := pending[..i] + pending[i+1..];
      }
    }

    method CommitReservationInSession(order: OrderId) returns (committed: bool)
      modifies this
      ensures committed <==> order in old(reservations) && old(reservations)[order].status == Active
      ensures Contents() == Post(old(Contents()), Commit(order))
      ensures committed ==> reservations == old(reservations)[order := old(reservations)[order].(status := Committed)]
      ensures !committed ==> Contents() == old(Contents())
    {
      committed := order in reservations && reservations[order].status == Active;
      if committed {
        var reservation := reservations[order];
        reservations := reservations[order := reservation.(status := Committed)];
        ShiftStock(reservation.items, Consume);
      }
    }

    /** Idempotent: nothing happens unless the reservation is ACTIVE. */
    method ReleaseReservationInSession(order: OrderId)
      modifies this
      ensures Contents() == Post(old(Contents()), Release(order))
      ensures reservations == if order in old(reservations) && old(reservations)[order].status == Active
                              then old(reservations)[order := old(reservations)[order].(status := Released)]
                              else old(reservations)
    {
      if order in reservations && reservations[order].status == Active {
        var reservation := reservations[order];
        reservations := reservations[order := reservation.(status := Released)];
        ShiftStock(reservation.items, Return);
      }
    }

    method ExpireSingleReservation(order: OrderId, now: Time) returns (expired: bool)
      modifies this
      ensures Contents() == Post(old(Contents()), ExpireOne(order, now))
      ensures expired <==> order in old(reservations) && old(reservations)[order].status == Active
                           && old(reservations)[order].expiresAt <= now
      ensures expired ==> reservations == old(reservations)[order := old(reservations)[order].(status := Expired)]
      ensures !expired ==> Contents() == old(Contents())
    {
      expired := order in reservations && reservations[order].status == Active && reservations[order].expiresAt <= now;
      if expired {
        var reservation := reservations[order];
        reservations := reservations[order := reservation.(status := Expired)];
        ShiftStock(reservation.items, Return);
      }
    }

    /** One transaction per reservation of the cursor, in whatever order the cursor yields them.
        A batch size below one still lets the first reservation through. */
    method SweepExpiredReservations(now: Time, batchSize: int) returns (totalExpired: nat, ghost swept: seq<OrderId>)
      modifies this
      ensures Contents() == PostAll(old(Contents()), SweepSteps(swept, now))
      ensures Distinct(swept) && forall o | o in swept :: PastExpiry(old(Contents()), o, now)
      ensures totalExpired == |swept|
      ensures var limit := if batchSize < 1 then 1 else batchSize;
              var found := |PastExpirySet(old(Contents()), now)|;
              totalExpired == if found < limit then found else limit
    {
      ghost var before := Contents();
      var cursor := PastExpirySet(Contents(), now);
      ghost var found := cursor;
      totalExpired, swept := 0, [];
      var full := false;
      while cursor != {} && !full
        invariant Contents() == PostAll(before, SweepSteps(swept, now))
        invariant Distinct(swept) && forall o | o in swept :: o in found && o !in cursor
        invariant cursor <= found && forall o | o in cursor :: o in reservations && reservations[o] == before.reservations[o]
        invariant totalExpired == |swept| && totalExpired + |cursor| == |found|
        invariant full <==> totalExpired >= 1 && totalExpired >= batchSize
        invariant totalExpired <= if batchSize < 1 then 1 else batchSize
        decreases cursor
      {
        var o :| o in cursor;
        ghost var soFar := Contents();
        if o in reservations && reservations[o].status == Active && reservations[o].expiresAt < now {
          var reservation := reservations[o];
          reservations := reservations[o := reservation.(status := Expired)];
          ShiftStock(reservation.items, Return);
          totalExpired := totalExpired + 1;
        }
        assert Contents() == Post(soFar, ExpireSwept(o, now));
        PostAllAppend(before, SweepSteps(swept, now), ExpireSwept(o, now));
        SweepStepsAppend(swept, o, now);
        swept := swept + [o];
        cursor := cursor - {o};
        full := totalExpired >= batchSize;
      }
    }

    /** The admin's restock: the count is set whatever is on hold; a negative count is refused. */
    method UpsertInventory(product: ProductId, onHand: int) returns (accepted: bool)
      modifies this`inventory
      ensures accepted <==> onHand >= 0
      ensures Contents() == Post(old(Contents()), Restock(product, onHand))
      ensures accepted ==>
                inventory == old(inventory)[product := Stock(onHand, if product in old(inventory) then old(inventory)[product].reserved else 0)]
      ensures !accepted ==> inventory == old(inventory)
    {
      accepted := onHand >= 0;
      if accepted {
        if product in inventory {
          inventory := inventory[product := inventory[product].(onHand := onHand)];
        } else {
          inventory := inventory[product := Stock(onHand, 0)];
        }
      }
    }

    method GetInventoryForProducts(products: set<ProductId>) returns (levels: map<ProductId, StockLevel>)
      ensures levels.Keys == products * inventory.Keys
      ensures forall p | p in levels ::
                levels[p].available >= 0
                && (levels[p].available > 0 ==> inventory[p].reserved + levels[p].available == inventory[p].onHand)
                && (levels[p].available == 0 ==> inventory[p].onHand <= inventory[p].reserved)
      ensures forall p | p in levels :: Stock(levels[p].onHand, levels[p].reserved) == inventory[p]
    {
      levels := map[];
      var docs := products * inventory.Keys;
      while docs != {}
        invariant docs <= products * inventory.Keys
        invariant levels.Keys == products * inventory.Keys - docs
        invariant forall p | p in levels ::
                    Stock(levels[p].onHand, levels[p].reserved) == inventory[p]
                    && levels[p].available == Available(inventory[p])
      {
        var p :| p in docs;
        levels := levels[p := StockLevel(inventory[p].onHand, inventory[p].reserved, Available(inventory[p]))];
        docs := docs - {p};
      }
    }
  }

  function Available(row: Stock): nat {
    if row.onHand - row.reserved < 0 then 0 else row.onHand - row.reserved
  }
}
