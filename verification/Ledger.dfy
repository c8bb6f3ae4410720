/**
 The stock ledger: the `inventory` and `reservations` collections and the atomic steps that move stock between them.
 `Post` is one transaction, `PostAll` is any interleaving of them.
 */
module Ledger {
  import opened Domain

  datatype State = State(inventory: map<ProductId, Stock>, reservations: map<OrderId, Reservation>)

  datatype Step =
    | Reserve(order: OrderId, items: seq<Item>, expiresAt: Time)
    | Commit(order: OrderId)
    | Release(order: OrderId)
    | ExpireSwept(order: OrderId, now: Time)
    | ExpireOne(order: OrderId, now: Time)
    | Restock(product: ProductId, onHand: int)

  // What a reservation's quantities do to a stock row: taken on hold, shipped, or put back.
  datatype Move = Hold | Consume | Return

  /** Units of p over all lines, duplicate lines counted. */
  function QtyOf(items: seq<Item>, p: ProductId): int {
    if items == [] then 0
    else (if items[0].product == p then items[0].qty else 0) + QtyOf(items[1..], p)
  }

  function Moved(row: Stock, move: Move, qty: int): Stock {
    match move
    case Hold => row.(reserved := row.reserved + qty)
    case Consume => Stock(row.onHand - qty, row.reserved - qty)
    case Return => row.(reserved := row.reserved - qty)
  }

  /** The inventory after moving all of the lines, whatever their order. */
  function Shifted(inventory: map<ProductId, Stock>, items: seq<Item>, move: Move): map<ProductId, Stock> {
    map p | p in inventory :: Moved(inventory[p], move, QtyOf(items, p))
  }

  /** All that is requested of p fits into what is available of p. */
  predicate Fits(inventory: map<ProductId, Stock>, items: seq<Item>, p: ProductId) {
    p in inventory && QtyOf(items, p) <= inventory[p].onHand - inventory[p].reserved
  }

  // What the reservation schema accepts
  predicate ValidItems(items: seq<Item>) {
    items != [] && forall item | item in items :: item.qty >= 1
  }

  predicate AllFit(inventory: map<ProductId, Stock>, items: seq<Item>) {
    forall item | item in items :: Fits(inventory, items, item.product)
  }

  predicate Reservable(inventory: map<ProductId, Stock>, items: seq<Item>) {
    ValidItems(items) && AllFit(inventory, items)
  }

  predicate CanReserve(s: State, o: OrderId, items: seq<Item>) {
    Reservable(s.inventory, items) && o !in s.reservations
  }

  predicate IsActive(s: State, o: OrderId) {
    o in s.reservations && s.reservations[o].status == Active
  }

  /** The reservation leaves ACTIVE: committing ships its units, every other way puts them back. */
  function Close(s: State, o: OrderId, status: ReservationStatus): State
    requires IsActive(s, o)
  {
    var r := s.reservations[o];
    State(Shifted(s.inventory, r.items, if status == Committed then Consume else Return),
          s.reservations[o := r.(status := status)])
  }

  function Post(s: State, step: Step): State {
    match step
    case Reserve(o, items, expiresAt) =>
      if CanReserve(s, o, items)
      then State(Shifted(s.inventory, items, Hold), s.reservations[o := Reservation(items, Active, expiresAt)])
      else s
    case Commit(o) => if IsActive(s, o) then Close(s, o, Committed) else s
    case Release(o) => if IsActive(s, o) then Close(s, o, Released) else s
    case ExpireSwept(o, now) =>
      if IsActive(s, o) && s.reservations[o].expiresAt < now then Close(s, o, Expired) else s
    case ExpireOne(o, now) =>
      if IsActive(s, o) && s.reservations[o].expiresAt <= now then Close(s, o, Expired) else s
    case Restock(p, onHand) =>
      if onHand < 0 then s
      else s.(inventory := s.inventory[p := Stock(onHand, ReservedOf(s, p))])
  }

  function PostAll(s: State, steps: seq<Step>): State
    decreases |steps|
  {
    if steps == [] then s else PostAll(Post(s, steps[0]), steps[1..])
  }

  function ReservedOf(s: State, p: ProductId): int {
    if p in s.inventory then s.inventory[p].reserved else 0
  }

  function OnHandOf(s: State, p: ProductId): int {
    if p in s.inventory then s.inventory[p].onHand else 0
  }

  // ---------- sums over all reservations ----------

  function UnitsIn(r: Reservation, status: ReservationStatus, p: ProductId): int {
    if r.status == status then QtyOf(r.items, p) else 0
  }

  ghost function PickKey(rs: map<OrderId, Reservation>): OrderId
    requires rs != map[]
  {
    var o :| o in rs; o
  }

  /** Units of p over every reservation with the given status. */
  ghost function Units(rs: map<OrderId, Reservation>, status: ReservationStatus, p: ProductId): int
    decreases |rs|
  {
    if rs == map[] then 0
    else
      var o := PickKey(rs);
      UnitsIn(rs[o], status, p) + Units(rs - {o}, status, p)
  }

  lemma {:induction false} UnitsRemove(rs: map<OrderId, Reservation>, o: OrderId, status: ReservationStatus, p: ProductId)
    requires o in rs
    ensures Units(rs, status, p) == UnitsIn(rs[o], status, p) + Units(rs - {o}, status, p)
    decreases |rs|
  {
    var k := PickKey(rs);
    if k != o {
      UnitsRemove(rs - {k}, o, status, p);
      UnitsRemove(rs - {o}, k, status, p);
      assert rs - {k} - {o} == rs - {o} - {k};
    }
  }

  lemma UnitsUpdate(rs: map<OrderId, Reservation>, o: OrderId, r: Reservation, status: ReservationStatus, p: ProductId)
    ensures Units(rs[o := r], status, p)
         == Units(rs, status, p) - (if o in rs then UnitsIn(rs[o], status, p) else 0) + UnitsIn(r, status, p)
  {
    UnitsRemove(rs[o := r], o, status, p);
    assert rs[o := r] - {o} == rs - {o};
    if o in rs {
      UnitsRemove(rs, o, status, p);
    } else {
      assert rs - {o} == rs;
    }
  }

  lemma QtyNonNegative(items: seq<Item>, p: ProductId)
    requires forall item | item in items :: item.qty >= 1
    ensures QtyOf(items, p) >= 0
    ensures (exists item | item in items :: item.product == p) ==> QtyOf(items, p) >= 1
  {
    if items != [] {
      QtyNonNegative(items[1..], p);
    }
  }

  lemma {:induction false} UnitsNonNegative(rs: map<OrderId, Reservation>, status: ReservationStatus, p: ProductId)
    requires forall o | o in rs :: ValidItems(rs[o].items)
    ensures Units(rs, status, p) >= 0
    decreases |rs|
  {
    if rs != map[] {
      var o := PickKey(rs);
      QtyNonNegative(rs[o].items, p);
      UnitsNonNegative(rs - {o}, status, p);
    }
  }

  // ---------- conservation ----------

  ghost predicate WellFormed(s: State) {
    forall o | o in s.reservations :: ValidItems(s.reservations[o].items)
  }

  /** Every unit counted as reserved is on an ACTIVE reservation, and conversely. */
  ghost predicate Conserved(s: State) {
    forall p: ProductId :: ReservedOf(s, p) == Units(s.reservations, Active, p)
  }

  ghost predicate Inv(s: State) {
    WellFormed(s) && Conserved(s)
  }

  /** A product without a stock row is on no ACTIVE reservation. */
  lemma ActiveItemsStocked(s: State, o: OrderId, p: ProductId)
    requires Inv(s) && IsActive(s, o) && p !in s.inventory
    ensures QtyOf(s.reservations[o].items, p) == 0
  {
    UnitsRemove(s.reservations, o, Active, p);
    UnitsNonNegative(s.reservations - {o}, Active, p);
    QtyNonNegative(s.reservations[o].items, p);
  }

  lemma CloseConserves(s: State, o: OrderId, status: ReservationStatus)
    requires Inv(s) && IsActive(s, o) && status != Active
    ensures Inv(Close(s, o, status))
  {
    var t := Close(s, o, status);
    forall p: ProductId ensures ReservedOf(t, p) == Units(t.reservations, Active, p) {
      UnitsUpdate(s.reservations, o, t.reservations[o], Active, p);
      if p !in s.inventory {
        ActiveItemsStocked(s, o, p);
      }
    }
  }

  lemma FittingItemsStocked(inventory: map<ProductId, Stock>, items: seq<Item>, p: ProductId)
    requires forall item | item in items :: item.product in inventory
    requires p !in inventory
    ensures QtyOf(items, p) == 0
  {
    if items != [] {
      FittingItemsStocked(inventory, items[1..], p);
    }
  }

  lemma StepConserves(s: State, step: Step)
    requires Inv(s)
    ensures Inv(Post(s, step))
  {
    var t := Post(s, step);
    match step
    case Reserve(o, items, expiresAt) =>
      if CanReserve(s, o, items) {
        forall p: ProductId ensures ReservedOf(t, p) == Units(t.reservations, Active, p) {
          UnitsUpdate(s.reservations, o, t.reservations[o], Active, p);
          if p !in s.inventory {
            FittingItemsStocked(s.inventory, items, p);
          }
        }
      }
    case Commit(o) => if IsActive(s, o) { CloseConserves(s, o, Committed); }
    case Release(o) => if IsActive(s, o) { CloseConserves(s, o, Released); }
    case ExpireSwept(o, now) => if IsActive(s, o) { CloseConserves(s, o, Expired); }
    case ExpireOne(o, now) => if IsActive(s, o) { CloseConserves(s, o, Expired); }
    case Restock(p, onHand) =>
  }

  /** Ledger conservation: in every reachable state `reserved` is the sum over ACTIVE reservations, hence never negative. */
  lemma {:induction false} LedgerConserved(s: State, steps: seq<Step>)
    requires Inv(s)
    ensures Inv(PostAll(s, steps))
    ensures forall p: ProductId :: 0 <= ReservedOf(PostAll(s, steps), p) == Units(PostAll(s, steps).reservations, Active, p)
    decreases |steps|
  {
    if steps == [] {
      forall p: ProductId ensures 0 <= Units(s.reservations, Active, p) {
        UnitsNonNegative(s.reservations, Active, p);
      }
    } else {
      StepConserves(s, steps[0]);
      LedgerConserved(Post(s, steps[0]), steps[1..]);
    }
  }

  /** A store with unreserved stock and no reservation starts balanced. */
  lemma FreshStoreConserved(inventory: map<ProductId, Stock>)
    requires forall p | p in inventory :: inventory[p].reserved == 0
    ensures Inv(State(inventory, map[]))
  {
  }

  // ---------- bounds, and what is ever sold ----------

  ghost predicate InBounds(s: State) {
    forall p | p in s.inventory :: 0 <= s.inventory[p].reserved <= s.inventory[p].onHand
  }

  /** A restock that is accepted does not cut the count below what is on hold. */
  predicate RestockCoversHolds(s: State, step: Step) {
    step.Restock? && step.onHand >= 0 ==> ReservedOf(s, step.product) <= step.onHand
  }

  lemma CloseInBounds(s: State, o: OrderId, status: ReservationStatus)
    requires Inv(s) && InBounds(s) && IsActive(s, o) && status != Active
    ensures InBounds(Close(s, o, status))
  {
    CloseConserves(s, o, status);
    var t := Close(s, o, status);
    forall p | p in t.inventory ensures 0 <= t.inventory[p].reserved <= t.inventory[p].onHand {
      UnitsNonNegative(t.reservations, Active, p);
      QtyNonNegative(s.reservations[o].items, p);
      assert t.inventory[p].reserved == ReservedOf(t, p);
    }
  }

  lemma ReserveInBounds(s: State, o: OrderId, items: seq<Item>, expiresAt: Time)
    requires InBounds(s) && CanReserve(s, o, items)
    ensures InBounds(Post(s, Reserve(o, items, expiresAt)))
  {
    forall p | p in s.inventory
      ensures 0 <= QtyOf(items, p) <= s.inventory[p].onHand - s.inventory[p].reserved
    {
      QtyNonNegative(items, p);
      if item :| item in items && item.product == p {
        assert Fits(s.inventory, items, item.product);
      } else {
        UnlistedQty(items, p);
      }
    }
  }

  lemma UnlistedQty(items: seq<Item>, p: ProductId)
    requires forall item | item in items :: item.product != p
    ensures QtyOf(items, p) == 0
  {
    if items != [] {
      UnlistedQty(items[1..], p);
    }
  }

  /** One step keeps `0 <= reserved <= onHand` exactly when it is not a restock below what is on hold. */
  lemma StepInBounds(s: State, step: Step)
    requires Inv(s) && InBounds(s)
    ensures InBounds(Post(s, step)) <==> RestockCoversHolds(s, step)
  {
    match step
    case Reserve(o, items, expiresAt) => if CanReserve(s, o, items) { ReserveInBounds(s, o, items, expiresAt); }
    case Commit(o) => if IsActive(s, o) { CloseInBounds(s, o, Committed); }
    case Release(o) => if IsActive(s, o) { CloseInBounds(s, o, Released); }
    case ExpireSwept(o, now) => if IsActive(s, o) { CloseInBounds(s, o, Expired); }
    case ExpireOne(o, now) => if IsActive(s, o) { CloseInBounds(s, o, Expired); }
    case Restock(p, onHand) =>
      if onHand >= 0 {
        UnitsNonNegative(s.reservations, Active, p);
        assert Post(s, step).inventory[p] == Stock(onHand, ReservedOf(s, p));
      }
  }

  ghost predicate InBoundsThroughout(s: State, steps: seq<Step>)
    decreases |steps|
  {
    InBounds(s) && (steps != [] ==> InBoundsThroughout(Post(s, steps[0]), steps[1..]))
  }

  predicate RestocksCoverHolds(s: State, steps: seq<Step>)
    decreases |steps|
  {
    steps != [] ==> RestockCoversHolds(s, steps[0]) && RestocksCoverHolds(Post(s, steps[0]), steps[1..])
  }

  /** The stock bound holds all along a run exactly when every restock of the run covers the holds of its moment. */
  lemma {:induction false} NoOversell(s: State, steps: seq<Step>)
    requires Inv(s) && InBounds(s)
    ensures InBoundsThroughout(s, steps) <==> RestocksCoverHolds(s, steps)
    decreases |steps|
  {
    if steps != [] {
      var t := Post(s, steps[0]);
      StepConserves(s, steps[0]);
      StepInBounds(s, steps[0]);
      if InBounds(t) {
        NoOversell(t, steps[1..]);
      }
    }
  }

  /** Why restocks need a condition: a count below an ACTIVE reservation's quantity is stored as it is,
      and shipping that reservation then leaves a negative count. */
  lemma RestockCanBreakBounds(s: State, o: OrderId, p: ProductId, onHand: nat)
    requires IsActive(s, o) && QtyOf(s.reservations[o].items, p) > onHand
    ensures OnHandOf(PostAll(s, [Restock(p, onHand), Commit(o)]), p) == onHand - QtyOf(s.reservations[o].items, p) < 0
  {
    var s1 := Post(s, Restock(p, onHand));
    assert [Restock(p, onHand), Commit(o)][1..] == [Commit(o)];
    assert PostAll(s1, [Commit(o)]) == PostAll(Post(s1, Commit(o)), []);
  }

  /** Units that restocks of the run brought in (or took out) of p. */
  function Delivered(s: State, steps: seq<Step>, p: ProductId): int
    decreases |steps|
  {
    if steps == [] then 0
    else
      var t := Post(s, steps[0]);
      (if steps[0].Restock? then OnHandOf(t, p) - OnHandOf(s, p) else 0) + Delivered(t, steps[1..], p)
  }

  /** Units of p that are still in the store or were sold from it. */
  ghost function Accounted(s: State, p: ProductId): int {
    OnHandOf(s, p) + Units(s.reservations, Committed, p)
  }

  lemma StepBalance(s: State, step: Step, p: ProductId)
    requires Inv(s)
    ensures Accounted(Post(s, step), p) == Accounted(s, p) + Delivered(s, [step], p)
  {
    var t := Post(s, step);
    assert [step][1..] == [];
    if !step.Restock? && t != s {
      UnitsUpdate(s.reservations, step.order, t.reservations[step.order], Committed, p);
      if step.Commit? && p !in s.inventory {
        ActiveItemsStocked(s, step.order, p);
      }
    }
  }

  /** Stock balance: what is on hand plus what was sold is what was there plus what was delivered. */
  lemma {:induction false} StockBalance(s: State, steps: seq<Step>, p: ProductId)
    requires Inv(s)
    ensures Accounted(PostAll(s, steps), p) == Accounted(s, p) + Delivered(s, steps, p)
    decreases |steps|
  {
    if steps != [] {
      var t := Post(s, steps[0]);
      StepConserves(s, steps[0]);
      StepBalance(s, steps[0], p);
      assert Delivered(s, [steps[0]], p) + Delivered(t, steps[1..], p) == Delivered(s, steps, p) by {
        assert [steps[0]][1..] == [];
      }
      StockBalance(t, steps[1..], p);
    }
  }

  /** Units sold by a run never exceed the units it was supplied with, less what is still on hold. */
  lemma SoldWithinSupply(s: State, steps: seq<Step>, t: State, p: ProductId)
    requires Inv(s) && InBounds(s) && RestocksCoverHolds(s, steps) && t == PostAll(s, steps)
    ensures Units(t.reservations, Committed, p) - Units(s.reservations, Committed, p)
            <= OnHandOf(s, p) + Delivered(s, steps, p) - Units(t.reservations, Active, p)
  {
    StockBalance(s, steps, p);
    LedgerConserved(s, steps);
    NoOversell(s, steps);
    EndInBounds(s, steps);
  }

  lemma {:induction false} EndInBounds(s: State, steps: seq<Step>)
    requires InBoundsThroughout(s, steps)
    ensures InBounds(PostAll(s, steps))
    decreases |steps|
  {
    if steps != [] {
      EndInBounds(Post(s, steps[0]), steps[1..]);
    }
  }

  // ---------- a reservation leaves ACTIVE at most once ----------

  lemma StepKeepsClosed(s: State, step: Step, o: OrderId)
    requires o in s.reservations
    ensures o in Post(s, step).reservations
    ensures Post(s, step).reservations[o].items == s.reservations[o].items
    ensures Post(s, step).reservations[o].expiresAt == s.reservations[o].expiresAt
    ensures s.reservations[o].status != Active ==> Post(s, step).reservations[o] == s.reservations[o]
  {
  }

  lemma {:induction false} PostAllKeepsClosed(s: State, steps: seq<Step>, o: OrderId)
    requires o in s.reservations
    ensures o in PostAll(s, steps).reservations
    ensures PostAll(s, steps).reservations[o].items == s.reservations[o].items
    ensures PostAll(s, steps).reservations[o].expiresAt == s.reservations[o].expiresAt
    ensures s.reservations[o].status != Active ==> PostAll(s, steps).reservations[o] == s.reservations[o]
    decreases |steps|
  {
    if steps != [] {
      StepKeepsClosed(s, steps[0], o);
      PostAllKeepsClosed(Post(s, steps[0]), steps[1..], o);
    }
  }

  /** An expiry of o that comes no sooner than it is due: the sweeper only takes what is past its time, a job of its own may
      come exactly on time. */
  predicate ExpiresInTime(step: Step, o: OrderId, expiresAt: Time) {
    match step
    case ExpireSwept(p, now) => p == o && expiresAt < now
    case ExpireOne(p, now) => p == o && expiresAt <= now
    case _ => false
  }

  /** A step expires an ACTIVE reservation exactly if it is an expiry of it that is due. */
  lemma StepExpires(s: State, step: Step, o: OrderId)
    requires IsActive(s, o)
    ensures o in Post(s, step).reservations
    ensures Post(s, step).reservations[o].status == Expired <==> ExpiresInTime(step, o, s.reservations[o].expiresAt)
  {
  }

  /** Along every run, a reservation that ends EXPIRED was expired by some step of the run that came when it was due. */
  lemma {:induction false} ExpiredOnlyWhenDue(s: State, steps: seq<Step>, o: OrderId)
    requires IsActive(s, o)
    ensures o in PostAll(s, steps).reservations
    ensures PostAll(s, steps).reservations[o].status == Expired ==>
              exists step | step in steps :: ExpiresInTime(step, o, s.reservations[o].expiresAt)
    decreases |steps|
  {
    if steps != [] {
      var t := Post(s, steps[0]);
      StepKeepsClosed(s, steps[0], o);
      StepExpires(s, steps[0], o);
      PostAllKeepsClosed(t, steps[1..], o);
      if IsActive(t, o) {
        ExpiredOnlyWhenDue(t, steps[1..], o);
      }
    }
  }

  /** How often the run moves the reservation of o out of ACTIVE. */
  function Closings(s: State, steps: seq<Step>, o: OrderId): nat
    decreases |steps|
  {
    if steps == [] then 0
    else
      var t := Post(s, steps[0]);
      (if IsActive(s, o) && !IsActive(t, o) then 1 else 0) + Closings(t, steps[1..], o)
  }

  /** Under any races, the units of one reservation are shipped or put back at most once,
      and exactly once if the run took the reservation from ACTIVE to another status. */
  lemma {:induction false} ClosedAtMostOnce(s: State, steps: seq<Step>, o: OrderId)
    ensures Closings(s, steps, o) <= 1
    ensures o in s.reservations ==>
              (Closings(s, steps, o) == 1 <==> IsActive(s, o) && !IsActive(PostAll(s, steps), o))
    decreases |steps|
  {
    if steps != [] {
      var t := Post(s, steps[0]);
      ClosedAtMostOnce(t, steps[1..], o);
      if o in s.reservations {
        StepKeepsClosed(s, steps[0], o);
        PostAllKeepsClosed(t, steps[1..], o);
      }
    }
  }
}
