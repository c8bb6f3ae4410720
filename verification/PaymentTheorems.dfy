/**
 Money, idempotency and redelivery along runs of the shop.
 */
module PaymentTheorems {
  import opened Domain
  import opened Ledger
  import opened Cart
  import opened Reservations
  import opened Shop
  import opened ShopInvariants

  // ---------- the money of an order ----------

  /** The order's price is the sum of its lines, its payment record exists, and its reservation lists its lines. */
  ghost predicate OrderMoney(db: Db, o: OrderId)
    requires o in db.orders
  {
    SumTotals(db.orders[o].lines) == db.orders[o].grandTotal
    && PaymentOf(db, db.orders[o].paymentRef, o)
    && o in db.ledger.reservations && db.ledger.reservations[o].items == ItemsOf(db.orders[o].lines)
  }

  /** The payment is the one its order names, and is for exactly the order's price. */
  ghost predicate PaymentMoney(db: Db, ref: PaymentRef)
    requires ref in db.payments
  {
    var p := db.payments[ref];
    p.order in db.orders && db.orders[p.order].paymentRef == ref
    && Matches(db.orders[p.order].grandTotal, db.orders[p.order].currency, p)
  }

  ghost predicate Money(db: Db) {
    (forall o | o in db.orders :: OrderMoney(db, o)) && forall ref | ref in db.payments :: PaymentMoney(db, ref)
  }

  lemma LineTotals(items: seq<LiveItem>)
    ensures SumTotals(LinesOf(items)) == SumSubtotals(items)
  {
  }

  /** db' is db with one more order, its payment and its reservation. */
  ghost predicate AddsOrder(db: Db, o: OrderId, order: Order, r: Reservation, db': Db) {
    o !in db.orders && order.paymentRef !in db.payments
    && db'.orders == db.orders[o := order]
    && db'.payments == db.payments[order.paymentRef := Payment(o, Initiated, order.grandTotal, order.currency)]
    && db'.ledger.reservations == db.ledger.reservations[o := r]
    && r.items == ItemsOf(order.lines)
  }

  lemma PlacingAddsOrder(db: Db, req: Request, db': Db)
    requires Changes(db, Placed(req), db')
    ensures AddsOrder(db, req.order, NewOrder(req), Reservation(ItemsOf(NewOrder(req).lines), Active, req.heldUntil), db')
    ensures SumTotals(NewOrder(req).lines) == NewOrder(req).grandTotal
    ensures db'.outbox == db.outbox + OutboxPair(req)
    ensures !HasOrder(db.orders, req.user, req.key)
  {
    LineTotals(CartOf(req).items);
  }

  lemma AddingKeepsMoney(db: Db, o: OrderId, order: Order, r: Reservation, db': Db)
    requires Money(db) && AddsOrder(db, o, order, r, db') && SumTotals(order.lines) == order.grandTotal
    ensures Money(db')
  {
    forall o' | o' in db'.orders ensures OrderMoney(db', o') {
      if o' != o {
        assert OrderMoney(db, o');
      }
    }
    forall ref | ref in db'.payments ensures PaymentMoney(db', ref) {
      if ref != order.paymentRef {
        assert PaymentMoney(db, ref);
      }
    }
  }

  lemma ChangeKeepsMoney(db: Db, c: Change, db': Db)
    requires Table(db) && Money(db) && Changes(db, c, db')
    ensures Money(db')
  {
    if c.Placed? {
      var order := NewOrder(c.req);
      PlacingAddsOrder(db, c.req, db');
      AddingKeepsMoney(db, c.req.order, order, Reservation(ItemsOf(order.lines), Active, c.req.heldUntil), db');
    } else {
      ChangeKeepsItems(db, c, db');
      ChangeKeepsPayments(db, c, db');
      forall o | o in db'.orders ensures OrderMoney(db', o) {
        assert OrderMoney(db, o) && Terms(db'.orders[o]) == Terms(db.orders[o]);
      }
      forall ref | ref in db'.payments ensures PaymentMoney(db', ref) {
        assert PaymentMoney(db, ref);
        var o := db.payments[ref].order;
        assert Terms(db'.orders[o]) == Terms(db.orders[o]);
      }
    }
  }

  lemma ChangeKeepsItems(db: Db, c: Change, db': Db)
    requires Changes(db, c, db')
    ensures forall o | o in db.ledger.reservations ::
              o in db'.ledger.reservations && db'.ledger.reservations[o].items == db.ledger.reservations[o].items
  {
    match LedgerStepOf(c)
    case None =>
    case Some(l) =>
      forall o | o in db.ledger.reservations
        ensures o in db'.ledger.reservations && db'.ledger.reservations[o].items == db.ledger.reservations[o].items
      {
        StepKeepsClosed(db.ledger, l, o);
      }
  }

  lemma ChangeKeepsPayments(db: Db, c: Change, db': Db)
    requires Money(db) && Changes(db, c, db') && !c.Placed?
    ensures forall ref :: ref in db'.payments <==> ref in db.payments
    ensures forall ref | ref in db.payments ::
              db'.payments[ref].order == db.payments[ref].order && db'.payments[ref].amount == db.payments[ref].amount
              && db'.payments[ref].currency == db.payments[ref].currency
    ensures db'.orders.Keys == db.orders.Keys
    ensures forall o | o in db.orders ::
              db'.orders[o].paymentRef == db.orders[o].paymentRef && Terms(db'.orders[o]) == Terms(db.orders[o])
  {
    ChangeKeepsPaymentTerms(db, c, db');
    ChangeKeepsPaymentRefs(db, c, db');
  }

  lemma ChangeKeepsPaymentTerms(db: Db, c: Change, db': Db)
    requires Changes(db, c, db') && !c.Placed?
    ensures db'.payments.Keys == db.payments.Keys
    ensures forall ref | ref in db.payments ::
              db'.payments[ref].order == db.payments[ref].order && db'.payments[ref].amount == db.payments[ref].amount
              && db'.payments[ref].currency == db.payments[ref].currency
  {
    forall ref | ref in db.payments
      ensures db'.payments[ref].order == db.payments[ref].order && db'.payments[ref].amount == db.payments[ref].amount
              && db'.payments[ref].currency == db.payments[ref].currency
    {
      assert db'.payments[ref].(status := Initiated) == db.payments[ref].(status := Initiated);
    }
  }

  lemma ChangeKeepsPaymentRefs(db: Db, c: Change, db': Db)
    requires Money(db) && Changes(db, c, db') && !c.Placed?
    ensures db'.orders.Keys == db.orders.Keys
    ensures forall o | o in db.orders ::
              db'.orders[o].paymentRef == db.orders[o].paymentRef && Terms(db'.orders[o]) == Terms(db.orders[o])
  {
    if c.PaidNow? {
      assert PaymentMoney(db, c.ref);
    }
    OrdersKeepRefs(db.orders, c);
  }

  lemma OrdersKeepRefs(orders: map<OrderId, Order>, c: Change)
    requires (c.PaidNow? || c.FailedNow? || c.CancelledNow?) ==> c.order in orders
    requires c.PaidNow? ==> orders[c.order].paymentRef == c.ref
    requires !c.Placed?
    ensures var after := OrdersAfter(orders, c);
            after.Keys == orders.Keys
            && forall o | o in orders :: after[o].paymentRef == orders[o].paymentRef && Terms(after[o]) == Terms(orders[o])
  {
  }

  /** The gateway's amount and currency are those of the payment record, which are those of the order and of its lines. */
  ghost predicate PaidExactly(db: Db, o: OrderId, ref: PaymentRef, amount: int, currency: Currency) {
    PaymentOf(db, ref, o) && o in db.orders
    && amount == db.payments[ref].amount == db.orders[o].grandTotal == SumTotals(db.orders[o].lines)
    && currency == db.payments[ref].currency == db.orders[o].currency
  }

  /** The step is one of the three paying paths, and carries a success report for exactly the price of o. */
  ghost predicate PaysFor(db: Db, step: ShopStep, o: OrderId) {
    match step
    case SettleWebhook(key) =>
      key in db.handling
      && var event := db.handling[key];
         event.kind == ChargeSuccess && PaidExactly(db, o, event.ref, event.amount, event.currency)
    case Reconcile(p, ref, report, now) =>
      p == o && report.status == GatewaySuccess && PaidExactly(db, o, ref, report.amount, report.currency)
    case Verify(p, ref, report) =>
      p == o && report.status == GatewaySuccess && PaidExactly(db, o, ref, report.amount, report.currency)
    case _ => false
  }

  predicate IsPaid(db: Db, o: OrderId) {
    o in db.orders && db.orders[o].status == Paid
  }

  /** Only the three paying paths make an order PAID, and only with a report that matches the payment record. */
  lemma PaidNowIsReported(db: Db, step: ShopStep, o: OrderId, ref: PaymentRef)
    requires ChangeOf(db, step) == PaidNow(o, ref)
    requires PaymentOf(db, ref, o) && PaymentMoney(db, ref) && o in db.orders && OrderMoney(db, o)
    ensures PaysFor(db, step, o)
  {
    match step
    case SettleWebhook(key) =>
    case Reconcile(p, r, report, now) =>
    case Verify(p, r, report) =>
    case _ =>
  }

  lemma PayingStep(db: Db, step: ShopStep, o: OrderId)
    requires Money(db) && !IsPaid(db, o) && IsPaid(Apply(db, step), o)
    ensures PaysFor(db, step, o)
  {
    var c := ChangeOf(db, step);
    StepIsChange(db, step);
    OnlyPaidNowPays(db, c, Apply(db, step), o);
    PaidNowIsReported(db, step, o, c.ref);
  }

  lemma OnlyPaidNowPays(db: Db, c: Change, db': Db, o: OrderId)
    requires Changes(db, c, db') && !IsPaid(db, o) && IsPaid(db', o)
    ensures c.PaidNow? && c.order == o && PaymentOf(db, c.ref, o) && o in db.orders
  {
  }

  /** The step makes o PAID, and does so with a report of exactly the price of o. */
  ghost predicate TurnsPaid(db: Db, step: ShopStep, o: OrderId) {
    !IsPaid(db, o) && IsPaid(Apply(db, step), o) && PaysFor(db, step, o)
  }

  lemma StepKeepsMoney(db: Db, step: ShopStep)
    requires Table(db) && Money(db)
    ensures Table(Apply(db, step)) && Money(Apply(db, step))
  {
    StepIsChange(db, step);
    ChangeKeepsTable(db, ChangeOf(db, step), Apply(db, step));
    ChangeKeepsMoney(db, ChangeOf(db, step), Apply(db, step));
  }

  lemma PaidAtOnce(db: Db, step: ShopStep, o: OrderId, none: seq<ShopStep>)
    requires Money(db) && !IsPaid(db, o) && IsPaid(Apply(db, step), o) && none == []
    ensures TurnsPaid(Run(db, none), step, o)
  {
    PayingStep(db, step, o);
  }

  lemma TurnsPaidLater(db: Db, steps: seq<ShopStep>, first: ShopStep, next: Db, k: nat, o: OrderId)
    requires next == Apply(db, first) && k < |steps| && TurnsPaid(Run(next, steps[..k]), steps[k], o)
    ensures var all := [first] + steps; TurnsPaid(Run(db, all[..k+1]), all[k+1], o)
  {
    var all := [first] + steps;
    assert all[..k+1] == [first] + steps[..k];
    RunFirst(db, all[..k+1], first, steps[..k], next);
  }

  lemma SomeTurnLater(db: Db, steps: seq<ShopStep>, first: ShopStep, rest: seq<ShopStep>, next: Db, o: OrderId)
    requires steps == [first] + rest && next == Apply(db, first)
    requires exists k | 0 <= k < |rest| :: TurnsPaid(Run(next, rest[..k]), rest[k], o)
    ensures exists k | 0 <= k < |steps| :: TurnsPaid(Run(db, steps[..k]), steps[k], o)
  {
    var k :| 0 <= k < |rest| && TurnsPaid(Run(next, rest[..k]), rest[k], o);
    TurnsPaidLater(db, rest, first, next, k, o);
  }

  /** Every order that a run made PAID was made so by one step of that run, with a report of exactly the order's price. */
  lemma {:induction false} PaidByMatchingReport(db: Db, steps: seq<ShopStep>, o: OrderId)
    requires Table(db) && Money(db) && !IsPaid(db, o) && IsPaid(Run(db, steps), o)
    ensures exists k | 0 <= k < |steps| :: TurnsPaid(Run(db, steps[..k]), steps[k], o)
    decreases |steps|
  {
    var next := Apply(db, steps[0]);
    if IsPaid(next, o) {
      PaidAtOnce(db, steps[0], o, steps[..0]);
    } else {
      StepKeepsMoney(db, steps[0]);
      PaidByMatchingReport(next, steps[1..], o);
      SomeTurnLater(db, steps, steps[0], steps[1..], next, o);
    }
  }

  /** Along every run each order keeps one payment for exactly its price, and a reservation of exactly its lines. */
  lemma {:induction false} MoneyKept(db: Db, steps: seq<ShopStep>)
    requires Table(db) && Money(db)
    ensures Money(Run(db, steps))
    decreases |steps|
  {
    if steps != [] {
      StepKeepsMoney(db, steps[0]);
      MoneyKept(Apply(db, steps[0]), steps[1..]);
    }
  }

  lemma FreshShopHolds(inventory: map<ProductId, Stock>)
    requires forall p | p in inventory :: inventory[p].reserved == 0
    ensures var db := FreshShop(inventory);
            Inv(db.ledger) && Table(db) && Money(db) && CommittedMeansPaid(db) && OnePerKey(db) && OutboxMatches(db)
            && HandlingRecorded(db)
  {
    FreshStoreConserved(inventory);
    assert forall u: UserId :: OrdersOfUser(map[], u) == {};
  }

  // ---------- one order for one idempotency key ----------

  ghost predicate OnePerKey(db: Db) {
    forall a, b | a in db.orders && b in db.orders ::
      db.orders[a].user == db.orders[b].user && db.orders[a].key == db.orders[b].key ==> a == b
  }

  function Initiations(outbox: seq<OutboxMessage>, o: OrderId): nat {
    if outbox == [] then 0
    else (if outbox[0].InitiatePayment? && outbox[0].order == o then 1 else 0) + Initiations(outbox[1..], o)
  }

  function CartClearings(outbox: seq<OutboxMessage>, u: UserId): nat {
    if outbox == [] then 0
    else (if outbox[0] == ClearCart(u) then 1 else 0) + CartClearings(outbox[1..], u)
  }

  function OrdersOfUser(orders: map<OrderId, Order>, u: UserId): set<OrderId> {
    set o | o in orders && orders[o].user == u
  }

  /** The outbox holds one payment initiation per order, and one cart clearing per order of each user. */
  ghost predicate OutboxMatches(db: Db) {
    (forall o: OrderId :: Initiations(db.outbox, o) == if o in db.orders then 1 else 0)
    && forall u: UserId :: CartClearings(db.outbox, u) == |OrdersOfUser(db.orders, u)|
  }

  lemma OutboxAppend(a: seq<OutboxMessage>, b: seq<OutboxMessage>, o: OrderId, u: UserId)
    ensures Initiations(a + b, o) == Initiations(a, o) + Initiations(b, o)
    ensures CartClearings(a + b, u) == CartClearings(a, u) + CartClearings(b, u)
  {
    if a == [] {
      assert a + b == b;
    } else {
      OutboxAppend(a[1..], b, o, u);
      assert (a + b)[1..] == a[1..] + b;
    }
  }

  /** One initiation for o and one clearing for u, and nothing else. */
  ghost predicate IsPairFor(pair: seq<OutboxMessage>, o: OrderId, u: UserId) {
    (forall o' :: Initiations(pair, o') == if o' == o then 1 else 0)
    && forall u' :: CartClearings(pair, u') == if u' == u then 1 else 0
  }

  lemma PairCounts(req: Request)
    ensures IsPairFor(OutboxPair(req), req.order, req.user)
  {
    var pair := OutboxPair(req);
    var second := [ClearCart(req.user)];
    assert pair[0].InitiatePayment? && pair[1..] == second && second[1..] == [];
    forall o: OrderId ensures Initiations(pair, o) == if o == req.order then 1 else 0 {
      assert Initiations(second, o) == Initiations([], o);
    }
    forall u: UserId ensures CartClearings(pair, u) == if u == req.user then 1 else 0 {
      assert CartClearings(second, u) == (if second[0] == ClearCart(u) then 1 else 0) + CartClearings([], u);
      assert CartClearings(pair, u) == CartClearings(second, u);
    }
  }

  lemma OneMoreOrder(orders: map<OrderId, Order>, o: OrderId, order: Order, u: UserId)
    requires o !in orders
    ensures |OrdersOfUser(orders[o := order], u)| == |OrdersOfUser(orders, u)| + if u == order.user then 1 else 0
  {
    var before, after := OrdersOfUser(orders, u), OrdersOfUser(orders[o := order], u);
    if u == order.user {
      assert after == before + {o};
    } else {
      assert after == before;
    }
  }

  lemma AddingKeepsOutbox(db: Db, o: OrderId, order: Order, pair: seq<OutboxMessage>, db': Db)
    requires OutboxMatches(db) && o !in db.orders && IsPairFor(pair, o, order.user)
    requires db'.orders == db.orders[o := order] && db'.outbox == db.outbox + pair
    ensures OutboxMatches(db')
  {
    forall o': OrderId ensures Initiations(db'.outbox, o') == if o' in db'.orders then 1 else 0 {
      OutboxAppend(db.outbox, pair, o', 0);
    }
    forall u: UserId ensures CartClearings(db'.outbox, u) == |OrdersOfUser(db'.orders, u)| {
      OutboxAppend(db.outbox, pair, 0, u);
      OneMoreOrder(db.orders, o, order, u);
    }
  }

  /** No change touches the user or the key of an order; placing one needs a free key. */
  lemma ChangeKeepsOnePerKey(db: Db, c: Change, db': Db)
    requires OnePerKey(db) && Changes(db, c, db')
    ensures OnePerKey(db')
  {
    forall o | o in db.orders
      ensures o in db'.orders && db'.orders[o].user == db.orders[o].user && db'.orders[o].key == db.orders[o].key
    {
      ChangeKeepsDecided(db, c, db', o);
      assert Terms(db'.orders[o]) == Terms(db.orders[o]);
    }
    if c.Placed? {
      assert forall o | o in db'.orders :: o == c.req.order || o in db.orders;
    } else {
      assert db'.orders.Keys == db.orders.Keys;
    }
  }

  lemma ChangeKeepsOutbox(db: Db, c: Change, db': Db)
    requires OutboxMatches(db) && Changes(db, c, db')
    ensures OutboxMatches(db')
  {
    if c.Placed? {
      PlacingAddsOrder(db, c.req, db');
      PairCounts(c.req);
      AddingKeepsOutbox(db, c.req.order, NewOrder(c.req), OutboxPair(c.req), db');
    } else {
      assert db'.orders.Keys == db.orders.Keys;
      forall u: UserId ensures OrdersOfUser(db'.orders, u) == OrdersOfUser(db.orders, u) {
        forall o | o in db.orders ensures db'.orders[o].user == db.orders[o].user {
          ChangeKeepsDecided(db, c, db', o);
          assert Terms(db'.orders[o]) == Terms(db.orders[o]);
        }
      }
    }
  }

  /** How often the run places an order for the key. */
  function Placements(db: Db, steps: seq<ShopStep>, user: UserId, key: IdempotencyKey): nat
    decreases |steps|
  {
    if steps == [] then 0
    else
      (match ChangeOf(db, steps[0]) case Placed(req) => if req.user == user && req.key == key then 1 else 0 case _ => 0)
      + Placements(Apply(db, steps[0]), steps[1..], user, key)
  }

  lemma ChangeAndKey(db: Db, c: Change, db': Db, user: UserId, key: IdempotencyKey)
    requires Changes(db, c, db')
    ensures HasOrder(db'.orders, user, key)
            <==> HasOrder(db.orders, user, key) || (c.Placed? && c.req.user == user && c.req.key == key)
    ensures c.Placed? && c.req.user == user && c.req.key == key ==> !HasOrder(db.orders, user, key)
  {
    if o :| o in db.orders && db.orders[o].user == user && db.orders[o].key == key {
      ChangeKeepsDecided(db, c, db', o);
      assert Terms(db'.orders[o]) == Terms(db.orders[o]);
    }
    if o :| o in db'.orders && db'.orders[o].user == user && db'.orders[o].key == key {
      if o in db.orders {
        ChangeKeepsDecided(db, c, db', o);
        assert Terms(db'.orders[o]) == Terms(db.orders[o]);
      }
    }
    if c.Placed? && c.req.user == user && c.req.key == key {
      assert db'.orders[c.req.order].user == user;
    }
  }

  /** However checkouts with one key race or are retried: at most one of them places an order, with one reservation, one
      payment and one outbox pair; and one of them did exactly if the key went from no order to an order. */
  lemma {:induction false} OneOrderPerKey(db: Db, steps: seq<ShopStep>, user: UserId, key: IdempotencyKey)
    requires OnePerKey(db) && OutboxMatches(db)
    ensures OnePerKey(Run(db, steps)) && OutboxMatches(Run(db, steps))
    ensures Placements(db, steps, user, key) <= 1
    ensures Placements(db, steps, user, key) == 1
            <==> !HasOrder(db.orders, user, key) && HasOrder(Run(db, steps).orders, user, key)
    ensures HasOrder(db.orders, user, key) ==> HasOrder(Run(db, steps).orders, user, key)
    decreases |steps|
  {
    if steps != [] {
      var c, next := ChangeOf(db, steps[0]), Apply(db, steps[0]);
      StepIsChange(db, steps[0]);
      ChangeKeepsOnePerKey(db, c, next);
      ChangeKeepsOutbox(db, c, next);
      ChangeAndKey(db, c, next, user, key);
      OneOrderPerKey(next, steps[1..], user, key);
    }
  }

  // ---------- webhook redelivery ----------

  ghost predicate HandlingRecorded(db: Db) {
    forall key | key in db.handling :: key in db.events && db.handling[key].key == key
  }

  lemma EventsGrow(db: Db, step: ShopStep)
    requires HandlingRecorded(db)
    ensures HandlingRecorded(Apply(db, step))
    ensures Apply(db, step).events.Keys
         == db.events.Keys + (if step.ReceiveWebhook? then {step.event.key} else {})
  {
    if step.SettleWebhook? {
      if step.key in db.handling {
        SettlingKeepsKeys(db, db.handling[step.key]);
      }
    } else if step.Reconcile? || step.Verify? || step.Compensate? {
      PayingKeepsEvents(db, step);
    }
  }

  lemma PayingKeepsEvents(db: Db, step: ShopStep)
    requires step.Reconcile? || step.Verify? || step.Compensate?
    ensures Apply(db, step).events == db.events && Apply(db, step).handling == db.handling
  {
    match step
    case Reconcile(o, ref, report, now) =>
      if ref in db.payments {
        PayingKeepsRecords(db, o, ref);
      }
      FailingKeepsRecords(db, o, PaymentFailed);
      FailingKeepsRecords(db, o, OrderExpired);
    case Verify(o, ref, report) =>
      if ref in db.payments {
        PayingKeepsRecords(db, o, ref);
      }
    case Compensate(o, ref) => FailingKeepsRecords(db, o, PaymentFailed);
    case _ =>
  }

  lemma PayingKeepsRecords(db: Db, o: OrderId, ref: PaymentRef)
    requires ref in db.payments
    ensures Pay(db, o, ref).events == db.events && Pay(db, o, ref).handling == db.handling
    ensures PayUnchecked(db, o, ref).events == db.events && PayUnchecked(db, o, ref).handling == db.handling
  {
  }

  lemma FailingKeepsRecords(db: Db, o: OrderId, status: OrderStatus)
    ensures Fail(db, o, status).events == db.events && Fail(db, o, status).handling == db.handling
    ensures Fail(db, o, status).payments == db.payments
  {
  }

  /** Settling adds no record but the event's own. */
  lemma SettlingMarks(db: Db, event: Event)
    ensures SettleEvent(db, event).handling == db.handling
    ensures db.events.Keys <= SettleEvent(db, event).events.Keys <= db.events.Keys + {event.key}
  {
    if event.ref in db.payments {
      var payment := db.payments[event.ref];
      match event.kind
      case ChargeSuccess => PayingKeepsRecords(db, payment.order, event.ref);
      case ChargeFailed => FailingKeepsRecords(db, payment.order, PaymentFailed);
      case OtherEvent =>
    }
  }

  lemma SettlingKeepsKeys(db: Db, event: Event)
    requires event.key in db.events
    ensures SettleEvent(db, event).events.Keys == db.events.Keys
    ensures SettleEvent(db, event).handling == db.handling
  {
    SettlingMarks(db, event);
  }

  /** The run with every delivery of an already delivered event taken out. */
  function DropRedeliveries(steps: seq<ShopStep>, seen: set<EventKey>): seq<ShopStep>
    decreases |steps|
  {
    if steps == [] then []
    else if steps[0].ReceiveWebhook? then
      if steps[0].event.key in seen then DropRedeliveries(steps[1..], seen)
      else [steps[0]] + DropRedeliveries(steps[1..], seen + {steps[0].event.key})
    else [steps[0]] + DropRedeliveries(steps[1..], seen)
  }

  /** Redelivered events change nothing at all, whether the first delivery was settled, aborted, or is still in hand. */
  lemma {:induction false} RedeliveryIsIgnored(db: Db, steps: seq<ShopStep>, seen: set<EventKey>)
    requires HandlingRecorded(db) && seen == db.events.Keys
    ensures Run(db, DropRedeliveries(steps, seen)) == Run(db, steps)
    decreases |steps|
  {
    if steps != [] {
      var step, next := steps[0], Apply(db, steps[0]);
      EventsGrow(db, step);
      if step.ReceiveWebhook? && step.event.key in seen {
        assert next == db;
        RedeliveryIsIgnored(db, steps[1..], seen);
      } else {
        RedeliveryIsIgnored(next, steps[1..], next.events.Keys);
        KeepFirst(steps, seen, next.events.Keys);
        KeptStep(db, step, DropRedeliveries(steps[1..], next.events.Keys));
      }
    }
  }

  lemma KeepFirst(steps: seq<ShopStep>, seen: set<EventKey>, now: set<EventKey>)
    requires steps != [] && !(steps[0].ReceiveWebhook? && steps[0].event.key in seen)
    requires now == seen + if steps[0].ReceiveWebhook? then {steps[0].event.key} else {}
    ensures DropRedeliveries(steps, seen) == [steps[0]] + DropRedeliveries(steps[1..], now)
  {
    if !steps[0].ReceiveWebhook? {
      assert now == seen;
    }
  }

  lemma KeptStep(db: Db, step: ShopStep, rest: seq<ShopStep>)
    ensures Run(db, [step] + rest) == Run(Apply(db, step), rest)
  {
    assert ([step] + rest)[1..] == rest;
  }

  /** Once an order is decided, no webhook about it changes any order or any stock, whatever event it is settled with. */
  lemma DecidedOrderIgnoresWebhooks(db: Db, key: EventKey)
    requires key in db.handling && db.handling[key].ref in db.payments
    requires !IsPending(db, db.payments[db.handling[key].ref].order)
    ensures Apply(db, SettleWebhook(key)).orders == db.orders
    ensures Apply(db, SettleWebhook(key)).ledger == db.ledger
  {
    StepIsChange(db, SettleWebhook(key));
  }

  // ---------- line totals against quantities ----------

  lemma ItemsOfLines(items: seq<LiveItem>)
    ensures |LinesOf(items)| == |items| == |ItemsOf(LinesOf(items))|
    ensures forall i | 0 <= i < |items| ::
              LinesOf(items)[i] == Line(items[i].product, items[i].price, items[i].currency, items[i].qty, items[i].subtotal)
              && ItemsOf(LinesOf(items))[i] == Item(items[i].product, items[i].qty)
  {
  }

  lemma ListedQty(items: seq<Item>, i: nat)
    requires i < |items| && forall item | item in items :: item.qty >= 1
    ensures items[i].qty <= QtyOf(items, items[i].product)
  {
    QtyNonNegative(items[1..], items[i].product);
    if i > 0 {
      ListedQty(items[1..], i - 1);
    }
  }

  predicate ChargedPerUnit(line: Line) {
    line.total == line.unitPrice * line.qty
  }

  predicate Covered(req: Request, item: CartItem) {
    item.qty <= StockAvailable(req.levels, item.product)
    || (item.product in req.catalog && req.catalog[item.product].price == 0)
  }

  lemma AcceptedLine(db: Db, req: Request, i: nat)
    requires Decide(db, req) == Accepted && i < |req.items|
    ensures |NewOrder(req).lines| == |req.items|
    ensures ChargedPerUnit(NewOrder(req).lines[i]) <==> Covered(req, req.items[i])
  {
    var live := CartOf(req).items;
    ItemsOfLines(live);
    assert live[i] in live;
    assert live[i] == PriceItem(req.items[i], req.catalog, req.levels) && !Barred(live[i]);
    ChargedInFull(req.items[i], req.catalog, req.levels);
  }

  /** An accepted checkout charges every line per unit exactly when, at pricing time, each line's stock covered its quantity
      (or the line was free): a line that was cut to the stock is charged for fewer units than it reserves. */
  lemma ChargedPerUnitIffCovered(db: Db, req: Request)
    requires Decide(db, req) == Accepted
    ensures (forall line | line in NewOrder(req).lines :: ChargedPerUnit(line))
            <==> forall item | item in req.items :: Covered(req, item)
  {
    var lines := NewOrder(req).lines;
    forall i | 0 <= i < |req.items|
      ensures |lines| == |req.items| && (ChargedPerUnit(lines[i]) <==> Covered(req, req.items[i]))
    {
      AcceptedLine(db, req, i);
    }
    ItemsOfLines(CartOf(req).items);
    AllAlike(lines, req.items, (line: Line) => ChargedPerUnit(line), (item: CartItem) => Covered(req, item));
  }

  lemma AllAlike<T, U>(a: seq<T>, b: seq<U>, f: T -> bool, g: U -> bool)
    requires |a| == |b| && forall i | 0 <= i < |a| :: f(a[i]) <==> g(b[i])
    ensures (forall x | x in a :: f(x)) <==> (forall y | y in b :: g(y))
  {
    if forall x | x in a :: f(x) {
      forall y | y in b ensures g(y) {
        var i :| 0 <= i < |b| && b[i] == y;
        assert a[i] in a;
      }
    }
    if forall y | y in b :: g(y) {
      forall x | x in a ensures f(x) {
        var i :| 0 <= i < |a| && a[i] == x;
        assert b[i] in b;
      }
    }
  }

  predicate NoStockRose(db: Db, req: Request) {
    forall p | p in db.ledger.inventory ::
      db.ledger.inventory[p].onHand - db.ledger.inventory[p].reserved <= StockAvailable(req.levels, p)
  }

  lemma ReservedWithinLevels(s: State, items: seq<Item>, levels: map<ProductId, StockLevel>, i: nat)
    requires ValidItems(items) && AllFit(s.inventory, items) && i < |items|
    requires forall p | p in s.inventory :: s.inventory[p].onHand - s.inventory[p].reserved <= StockAvailable(levels, p)
    ensures items[i].qty <= StockAvailable(levels, items[i].product)
  {
    ListedQty(items, i);
    assert items[i] in items;
    assert Fits(s.inventory, items, items[i].product);
  }

  /** If no stock became available between pricing and reserving, an accepted checkout charges every line per unit:
      a line that was cut to the stock cannot pass the reservation. */
  lemma NoRiseChargesPerUnit(db: Db, req: Request)
    requires Decide(db, req) == Accepted && NoStockRose(db, req)
    ensures forall line | line in NewOrder(req).lines :: ChargedPerUnit(line)
  {
    forall item | item in req.items ensures Covered(req, item) {
      var i :| 0 <= i < |req.items| && req.items[i] == item;
      ItemsOfLines(CartOf(req).items);
      ReservedWithinLevels(db.ledger, ItemsOf(LinesOf(CartOf(req).items)), req.levels, i);
    }
    ChargedPerUnitIffCovered(db, req);
  }

  /** Two units in the cart of a product priced 5 while one unit was available; ten are by the time of the reservation. */
  function ReducedRequest(): Request {
    Request(1, 1, 5, 0, [CartItem(1, 2)], map[1 := Product(5, 0, true, false)], map[1 := StockLevel(1, 0, 1)], 1, 1, 0, 0, 0)
  }

  /** The gap of a cancellation, from an empty shop: this customer checks out, cancels, and has the payment verified before
      the hold is released. The order ends CANCELLED, its reservation COMMITTED. */
  lemma GapFromFreshShop()
    ensures var db, req := FreshShop(map[1 := Stock(10, 0)]), ReducedRequest();
            var t := Run(db, [Checkout(req), MarkCancelled(1), Verify(1, 1, Report(GatewaySuccess, 5, 0)), FinishCancel(1)]);
            1 in t.orders && t.orders[1].status == Cancelled
            && 1 in t.ledger.reservations && t.ledger.reservations[1].status == Committed
  {
    var db, req := FreshShop(map[1 := Stock(10, 0)]), ReducedRequest();
    var report := Report(GatewaySuccess, 5, 0);
    ReducedLineIsUndercharged();
    CheckoutReachesGap(db, req, report);
  }

  /** Without that condition it fails: this checkout reserves two units and charges for one. */
  lemma ReducedLineIsUndercharged()
    ensures var db, req := FreshShop(map[1 := Stock(10, 0)]), ReducedRequest();
            Decide(db, req) == Accepted
            && NewOrder(req).lines == [Line(1, 5, 0, 2, 5)] && NewOrder(req).grandTotal == 5 && !ChargedPerUnit(NewOrder(req).lines[0])
  {
    var db, req := FreshShop(map[1 := Stock(10, 0)]), ReducedRequest();
    var live := LiveItem(1, 5, 0, 2, 1, 1, 5, [QuantityReduced]);
    assert PriceItem(req.items[0], req.catalog, req.levels) == live;
    assert CartOf(req).items == [live] && [live][1..] == [];
    assert CartOf(req).subtotal == live.subtotal + SumSubtotals([]);
    assert LinesOf([live]) == [Line(1, 5, 0, 2, 5)];
    var items := [Item(1, 2)];
    assert [Line(1, 5, 0, 2, 5)][1..] == [] && items[1..] == [];
    assert ItemsOf(LinesOf([live])) == items;
    assert QtyOf(items, 1) == 2 + QtyOf([], 1);
  }
}
