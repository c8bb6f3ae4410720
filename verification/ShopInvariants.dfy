/**
 What every interleaving of the order and payment protocol keeps.
 Whatever service takes a step, its effect on orders and stock is one of the few changes of `Change`; every theorem here
 is an induction over runs with one case per change.
 */
module ShopInvariants {
  import opened Domain
  import opened Ledger
  import opened Cart
  import opened Shop

  datatype Change =
    | Nothing
    | Placed(req: Request)
    | PaidNow(order: OrderId, ref: PaymentRef)
    | FailedNow(order: OrderId, status: OrderStatus)
    | CancelledNow(order: OrderId)
    | StockOnly(step: Step)

  /** When a change can happen at all. */
  ghost predicate Allowed(db: Db, c: Change) {
    match c
    case Nothing => true
    case Placed(req) => Decide(db, req) == Accepted
    case PaidNow(o, ref) => IsPending(db, o) && IsActive(db.ledger, o) && PaymentOf(db, ref, o)
    case FailedNow(o, status) => IsPending(db, o) && (status == PaymentFailed || status == OrderExpired)
    case CancelledNow(o) => IsPending(db, o)
    case StockOnly(l) =>
      match l
      case Reserve(o, items, expiresAt) => false
      case Commit(o) => !IsPending(db, o) && IsActive(db.ledger, o)
      case Release(o) => o in db.cancelling
      case ExpireSwept(o, now) => true
      case ExpireOne(o, now) => true
      case Restock(p, onHand) => true
  }

  function OrdersAfter(orders: map<OrderId, Order>, c: Change): map<OrderId, Order>
    requires (c.PaidNow? || c.FailedNow? || c.CancelledNow?) ==> c.order in orders
  {
    match c
    case Placed(req) => orders[req.order := NewOrder(req)]
    case PaidNow(o, ref) => orders[o := orders[o].(status := Paid, paymentRef := ref)]
    case FailedNow(o, status) => orders[o := orders[o].(status := status)]
    case CancelledNow(o) => orders[o := orders[o].(status := Cancelled)]
    case Nothing => orders
    case StockOnly(l) => orders
  }

  function LedgerStepOf(c: Change): Option<Step> {
    match c
    case Placed(req) => Some(Reserve(req.order, ItemsOf(NewOrder(req).lines), req.heldUntil))
    case PaidNow(o, ref) => Some(Commit(o))
    case FailedNow(o, status) => Some(Release(o))
    case StockOnly(l) => Some(l)
    case Nothing => None
    case CancelledNow(o) => None
  }

  function LedgerAfter(ledger: State, c: Change): State {
    match LedgerStepOf(c) case None => ledger case Some(l) => Post(ledger, l)
  }

  /** Existing payments keep everything but their status; only a new order adds one. */
  ghost predicate PaymentsAfter(before: map<PaymentRef, Payment>, c: Change, after: map<PaymentRef, Payment>) {
    match c
    case Placed(req) =>
      after == before[req.ref := Payment(req.order, Initiated, NewOrder(req).grandTotal, req.currency)]
    case _ =>
      after.Keys == before.Keys && forall r | r in before :: after[r].(status := Initiated) == before[r].(status := Initiated)
  }

  ghost predicate OutboxAfter(before: seq<OutboxMessage>, c: Change, after: seq<OutboxMessage>) {
    match c
    case Placed(req) => after == before + OutboxPair(req)
    case _ => after == before
  }

  ghost predicate CancellingAfter(before: set<OrderId>, c: Change, after: set<OrderId>) {
    after <= before + (if c.CancelledNow? then {c.order} else {})
  }

  /** db' is db after the change c, up to webhook bookkeeping and payment statuses. */
  ghost predicate Changes(db: Db, c: Change, db': Db) {
    Allowed(db, c)
    && db'.orders == OrdersAfter(db.orders, c)
    && db'.ledger == LedgerAfter(db.ledger, c)
    && PaymentsAfter(db.payments, c, db'.payments)
    && OutboxAfter(db.outbox, c, db'.outbox)
    && CancellingAfter(db.cancelling, c, db'.cancelling)
  }

  // ---------- which change a step makes ----------

  function PayChange(db: Db, o: OrderId, ref: PaymentRef): Change {
    if IsPending(db, o) && IsActive(db.ledger, o) then PaidNow(o, ref) else Nothing
  }

  function FailChange(db: Db, o: OrderId, status: OrderStatus): Change {
    if IsPending(db, o) then FailedNow(o, status) else Nothing
  }

  function VerifyChange(db: Db, o: OrderId, ref: PaymentRef): Change {
    if !IsActive(db.ledger, o) then Nothing
    else if IsPending(db, o) then PaidNow(o, ref)
    else StockOnly(Commit(o))
  }

  function EventChange(db: Db, event: Event): Change {
    if event.ref !in db.payments then Nothing
    else
      var payment := db.payments[event.ref];
      match event.kind
      case ChargeSuccess =>
        if Matches(event.amount, event.currency, payment) then PayChange(db, payment.order, event.ref) else Nothing
      case ChargeFailed => FailChange(db, payment.order, PaymentFailed)
      case OtherEvent => Nothing
  }

  function ReportChange(db: Db, o: OrderId, ref: PaymentRef, report: Report, now: Time): Change
    requires PaymentOf(db, ref, o) && o in db.orders
  {
    match report.status
    case GatewaySuccess =>
      if Matches(report.amount, report.currency, db.payments[ref]) then PayChange(db, o, ref) else Nothing
    case GatewayFailed => FailChange(db, o, PaymentFailed)
    case GatewayPending => if db.orders[o].expiresAt < now then FailChange(db, o, OrderExpired) else Nothing
  }

  function ChangeOf(db: Db, step: ShopStep): Change {
    match step
    case Checkout(req) => if Decide(db, req) == Accepted then Placed(req) else Nothing
    case MarkCancelled(o) => if IsPending(db, o) then CancelledNow(o) else Nothing
    case FinishCancel(o) => if o in db.cancelling then StockOnly(Release(o)) else Nothing
    case SettleWebhook(key) => if key in db.handling then EventChange(db, db.handling[key]) else Nothing
    case Reconcile(o, ref, report, now) =>
      if PaymentOf(db, ref, o) && o in db.orders then ReportChange(db, o, ref, report, now) else Nothing
    case Verify(o, ref, report) => if Confirms(db, o, ref, report) then VerifyChange(db, o, ref) else Nothing
    case Compensate(o, ref) => FailChange(db, o, PaymentFailed)
    case SweepOne(o, now) => StockOnly(ExpireSwept(o, now))
    case ExpireReservation(o, now) => StockOnly(ExpireOne(o, now))
    case SetStock(p, onHand) => StockOnly(Restock(p, onHand))
    case DropCancel(o) => Nothing
    case ReceiveWebhook(event) => Nothing
    case DropWebhook(key) => Nothing
  }

  predicate Confirms(db: Db, o: OrderId, ref: PaymentRef, report: Report) {
    PaymentOf(db, ref, o) && report.status == GatewaySuccess
    && Matches(report.amount, report.currency, db.payments[ref])
  }

  lemma PayIsChange(db: Db, o: OrderId, ref: PaymentRef)
    requires PaymentOf(db, ref, o)
    ensures Changes(db, PayChange(db, o, ref), Pay(db, o, ref))
    ensures Changes(db, VerifyChange(db, o, ref), PayUnchecked(db, o, ref))
  {
  }

  lemma FailIsChange(db: Db, o: OrderId, status: OrderStatus)
    requires status == PaymentFailed || status == OrderExpired
    ensures Changes(db, FailChange(db, o, status), Fail(db, o, status))
    ensures Fail(db, o, status).payments == db.payments
  {
  }

  lemma FailAndMarkIsChange(db: Db, o: OrderId, status: OrderStatus, ref: PaymentRef, mark: PaymentStatus)
    requires ref in db.payments && (status == PaymentFailed || status == OrderExpired)
    ensures Changes(db, FailChange(db, o, status), SetPayment(Fail(db, o, status), ref, mark))
  {
    FailIsChange(db, o, status);
  }

  lemma SettleIsChange(db: Db, event: Event)
    ensures Changes(db, EventChange(db, event), SettleEvent(db, event))
  {
    if event.ref in db.payments {
      var o := db.payments[event.ref].order;
      match event.kind
      case ChargeSuccess => PayIsChange(db, o, event.ref);
      case ChargeFailed => FailAndMarkIsChange(db, o, PaymentFailed, event.ref, Failed);
      case OtherEvent =>
    }
  }

  lemma ReportIsChange(db: Db, o: OrderId, ref: PaymentRef, report: Report, now: Time)
    requires PaymentOf(db, ref, o) && o in db.orders
    ensures Changes(db, ReportChange(db, o, ref, report, now), ApplyReport(db, o, ref, report, now))
  {
    match report.status
    case GatewaySuccess => PayIsChange(db, o, ref);
    case GatewayFailed => FailAndMarkIsChange(db, o, PaymentFailed, ref, Failed);
    case GatewayPending => FailAndMarkIsChange(db, o, OrderExpired, ref, Abandoned);
  }

  lemma CompensationIsChange(db: Db, o: OrderId, ref: PaymentRef)
    ensures Changes(db, FailChange(db, o, PaymentFailed), CompensateOrder(db, o, ref))
  {
    FailIsChange(db, o, PaymentFailed);
    if ref in db.payments {
      FailAndMarkIsChange(db, o, PaymentFailed, ref, Failed);
    }
  }

  lemma CheckoutIsChange(db: Db, req: Request)
    ensures Changes(db, ChangeOf(db, Checkout(req)), Apply(db, Checkout(req)))
  {
  }

  lemma MarkingIsChange(db: Db, o: OrderId)
    ensures Changes(db, ChangeOf(db, MarkCancelled(o)), Apply(db, MarkCancelled(o)))
  {
  }

  lemma FinishingIsChange(db: Db, o: OrderId)
    ensures Changes(db, ChangeOf(db, FinishCancel(o)), Apply(db, FinishCancel(o)))
  {
  }

  predicate IsPaymentStep(step: ShopStep) {
    step.SettleWebhook? || step.Reconcile? || step.Verify? || step.Compensate?
  }

  lemma SettleStepIsChange(db: Db, key: EventKey)
    ensures Changes(db, ChangeOf(db, SettleWebhook(key)), Apply(db, SettleWebhook(key)))
  {
    if key in db.handling {
      SettleIsChange(db, db.handling[key]);
    }
  }

  lemma ReconcileStepIsChange(db: Db, o: OrderId, ref: PaymentRef, report: Report, now: Time)
    ensures Changes(db, ChangeOf(db, Reconcile(o, ref, report, now)), Apply(db, Reconcile(o, ref, report, now)))
  {
    if PaymentOf(db, ref, o) && o in db.orders {
      ReportIsChange(db, o, ref, report, now);
    }
  }

  lemma VerifyStepIsChange(db: Db, o: OrderId, ref: PaymentRef, report: Report)
    ensures Changes(db, ChangeOf(db, Verify(o, ref, report)), Apply(db, Verify(o, ref, report)))
  {
    if Confirms(db, o, ref, report) {
      PayIsChange(db, o, ref);
    }
  }

  lemma PaymentStepIsChange(db: Db, step: ShopStep)
    requires IsPaymentStep(step)
    ensures Changes(db, ChangeOf(db, step), Apply(db, step))
  {
    match step
    case SettleWebhook(key) => SettleStepIsChange(db, key);
    case Reconcile(o, ref, report, now) => ReconcileStepIsChange(db, o, ref, report, now);
    case Verify(o, ref, report) => VerifyStepIsChange(db, o, ref, report);
    case Compensate(o, ref) => CompensationIsChange(db, o, ref);
  }

  lemma OtherStepIsChange(db: Db, step: ShopStep)
    requires !IsPaymentStep(step)
    ensures Changes(db, ChangeOf(db, step), Apply(db, step))
  {
    match step
    case Checkout(req) => CheckoutIsChange(db, req);
    case MarkCancelled(o) => MarkingIsChange(db, o);
    case FinishCancel(o) => FinishingIsChange(db, o);
    case _ =>
  }

  /** Every step of every service makes one of the changes. */
  lemma StepIsChange(db: Db, step: ShopStep)
    ensures Changes(db, ChangeOf(db, step), Apply(db, step))
  {
    if IsPaymentStep(step) {
      PaymentStepIsChange(db, step);
    } else {
      OtherStepIsChange(db, step);
    }
  }

  // ---------- refinement of the ledger ----------

  /** The stock side of a shop run, as a run of the ledger. */
  function LedgerRun(db: Db, steps: seq<ShopStep>): seq<Step>
    decreases |steps|
  {
    if steps == [] then []
    else
      var rest := LedgerRun(Apply(db, steps[0]), steps[1..]);
      match LedgerStepOf(ChangeOf(db, steps[0])) case None => rest case Some(l) => [l] + rest
  }

  /** Seen from the stock side, a run of the whole shop is a run of the ledger, so every ledger theorem holds of it. */
  lemma {:induction false} RunRefinesLedger(db: Db, steps: seq<ShopStep>)
    ensures Run(db, steps).ledger == PostAll(db.ledger, LedgerRun(db, steps))
    decreases |steps|
  {
    if steps != [] {
      var next := Apply(db, steps[0]);
      StepIsChange(db, steps[0]);
      RunRefinesLedger(next, steps[1..]);
      var rest := LedgerRun(next, steps[1..]);
      match LedgerStepOf(ChangeOf(db, steps[0]))
      case None =>
      case Some(l) => assert ([l] + rest)[1..] == rest;
    }
  }

  // ---------- the joint table of orders and reservations ----------

  predicate MayCoexist(order: OrderStatus, reservation: ReservationStatus) {
    match order
    case PendingPayment => reservation.Active? || reservation.Expired?
    case Paid => reservation.Committed?
    case PaymentFailed => reservation.Released? || reservation.Expired?
    case OrderExpired => reservation.Released? || reservation.Expired?
    case Cancelled => true
    case Fulfilled => false
    case OrderRefunded => false
  }

  ghost predicate Table(db: Db) {
    db.orders.Keys == db.ledger.reservations.Keys
    && (forall o | o in db.orders :: MayCoexist(db.orders[o].status, db.ledger.reservations[o].status))
    && forall o | o in db.cancelling :: o in db.orders && db.orders[o].status == Cancelled
  }

  /** A ledger step that is no new reservation can only close the one reservation it names. */
  lemma PostClosesOne(s: State, l: Step, o: OrderId)
    requires !l.Reserve?
    ensures Post(s, l).reservations.Keys == s.reservations.Keys
    ensures o in s.reservations && Post(s, l).reservations[o] != s.reservations[o] ==>
              !l.Restock? && l.order == o && IsActive(s, o)
              && Post(s, l).reservations[o].status
                 == (match l case Commit(_) => Committed case Release(_) => Released case _ => Expired)
  {
  }

  lemma StockChangeKeepsTable(db: Db, l: Step, db': Db)
    requires Table(db) && Changes(db, StockOnly(l), db')
    ensures Table(db')
  {
    forall o | o in db.orders ensures MayCoexist(db.orders[o].status, db'.ledger.reservations[o].status) {
      PostClosesOne(db.ledger, l, o);
    }
  }

  lemma PlacingKeepsTable(db: Db, req: Request, db': Db)
    requires Table(db) && Changes(db, Placed(req), db')
    ensures Table(db')
  {
  }

  lemma OrderChangeKeepsTable(db: Db, c: Change, db': Db)
    requires Table(db) && Changes(db, c, db') && !c.StockOnly? && !c.Placed?
    ensures Table(db')
  {
    match c
    case PaidNow(o, ref) =>
    case FailedNow(o, status) =>
    case CancelledNow(o) =>
    case Nothing =>
  }

  lemma ChangeKeepsTable(db: Db, c: Change, db': Db)
    requires Table(db) && Changes(db, c, db')
    ensures Table(db')
  {
    if c.StockOnly? {
      StockChangeKeepsTable(db, c.step, db');
    } else if c.Placed? {
      PlacingKeepsTable(db, c.req, db');
    } else {
      OrderChangeKeepsTable(db, c, db');
    }
  }

  /** The joint table holds along every run, from any state where it holds. */
  lemma {:induction false} TableKept(db: Db, steps: seq<ShopStep>)
    requires Table(db)
    ensures Table(Run(db, steps))
    decreases |steps|
  {
    if steps != [] {
      StepIsChange(db, steps[0]);
      ChangeKeepsTable(db, ChangeOf(db, steps[0]), Apply(db, steps[0]));
      TableKept(Apply(db, steps[0]), steps[1..]);
    }
  }

  // ---------- a decided order stays as it is ----------

  /** What an order keeps for ever: all but its status and payment reference. */
  function Terms(order: Order): Order {
    order.(status := PendingPayment, paymentRef := 0)
  }

  lemma ChangeKeepsDecided(db: Db, c: Change, db': Db, o: OrderId)
    requires o in db.orders && Changes(db, c, db')
    ensures o in db'.orders && Terms(db'.orders[o]) == Terms(db.orders[o])
    ensures db.orders[o].status != PendingPayment ==> db'.orders[o] == db.orders[o]
  {
  }

  /** No order ever leaves a status other than PENDING_PAYMENT, and its terms never change. */
  lemma {:induction false} DecidedForGood(db: Db, steps: seq<ShopStep>, o: OrderId)
    requires o in db.orders
    ensures o in Run(db, steps).orders
    ensures Terms(Run(db, steps).orders[o]) == Terms(db.orders[o])
    ensures db.orders[o].status != PendingPayment ==> Run(db, steps).orders[o] == db.orders[o]
    decreases |steps|
  {
    if steps != [] {
      StepIsChange(db, steps[0]);
      ChangeKeepsDecided(db, ChangeOf(db, steps[0]), Apply(db, steps[0]), o);
      DecidedForGood(Apply(db, steps[0]), steps[1..], o);
    }
  }

  // ---------- COMMITTED against PAID ----------

  ghost predicate CommittedMeansPaid(db: Db) {
    forall o | o in db.ledger.reservations && db.ledger.reservations[o].status == Committed ::
      o in db.orders && db.orders[o].status == Paid
  }

  /** A verification whose order update matches nothing, and which commits the reservation all the same: the order was
      cancelled and its reservation is still to be released. */
  predicate CommitsInGap(db: Db, step: ShopStep) {
    step.Verify? && Confirms(db, step.order, step.ref, step.report)
    && !IsPending(db, step.order) && IsActive(db.ledger, step.order)
  }

  predicate NeverCommitsInGap(db: Db, steps: seq<ShopStep>)
    decreases |steps|
  {
    steps != [] ==> !CommitsInGap(db, steps[0]) && NeverCommitsInGap(Apply(db, steps[0]), steps[1..])
  }

  lemma GapCommitIsTheOnlyOne(db: Db, step: ShopStep)
    ensures CommitsInGap(db, step) <==> ChangeOf(db, step).StockOnly? && ChangeOf(db, step).step.Commit?
    ensures CommitsInGap(db, step) ==> ChangeOf(db, step).step.order == step.order
  {
  }

  lemma StockChangeKeepsCommittedPaid(db: Db, l: Step, db': Db)
    requires CommittedMeansPaid(db) && Changes(db, StockOnly(l), db') && !l.Commit?
    ensures CommittedMeansPaid(db')
  {
    forall o | o in db.ledger.reservations && db'.ledger.reservations[o].status == Committed
      ensures o in db'.orders && db'.orders[o].status == Paid
    {
      PostClosesOne(db.ledger, l, o);
    }
  }

  lemma ChangeKeepsCommittedPaid(db: Db, c: Change, db': Db)
    requires Table(db) && CommittedMeansPaid(db) && Changes(db, c, db')
    requires !(c.StockOnly? && c.step.Commit?)
    ensures CommittedMeansPaid(db')
  {
    if c.StockOnly? {
      StockChangeKeepsCommittedPaid(db, c.step, db');
    } else {
      forall o | o in db'.ledger.reservations && db'.ledger.reservations[o].status == Committed
        ensures o in db'.orders && db'.orders[o].status == Paid
      {
        match c
        case Placed(req) =>
        case PaidNow(o', ref) =>
        case FailedNow(o', status) =>
        case CancelledNow(o') =>
        case Nothing =>
      }
    }
  }

  lemma GapCommitStrands(db: Db, c: Change, db': Db)
    requires Table(db) && Changes(db, c, db') && c.StockOnly? && c.step.Commit?
    ensures c.step.order in db'.orders && db'.orders[c.step.order].status == Cancelled
    ensures c.step.order in db'.ledger.reservations && db'.ledger.reservations[c.step.order].status == Committed
  {
  }

  lemma RunKeepsReservation(db: Db, steps: seq<ShopStep>, o: OrderId)
    requires o in db.ledger.reservations && db.ledger.reservations[o].status != Active
    ensures o in Run(db, steps).ledger.reservations
    ensures Run(db, steps).ledger.reservations[o] == db.ledger.reservations[o]
  {
    RunRefinesLedger(db, steps);
    PostAllKeepsClosed(db.ledger, LedgerRun(db, steps), o);
  }

  /** Every COMMITTED reservation belongs to a PAID order at the end of a run exactly when no verification of the run
      committed inside the gap of a cancellation. (The converse, PAID implies COMMITTED, is part of the joint table.) */
  lemma {:induction false} CommittedIsPaidUnlessGap(db: Db, steps: seq<ShopStep>)
    requires Table(db) && CommittedMeansPaid(db)
    ensures CommittedMeansPaid(Run(db, steps)) <==> NeverCommitsInGap(db, steps)
    decreases |steps|
  {
    if steps != [] {
      var next := Apply(db, steps[0]);
      StepIsChange(db, steps[0]);
      ChangeKeepsTable(db, ChangeOf(db, steps[0]), next);
      GapCommitIsTheOnlyOne(db, steps[0]);
      if CommitsInGap(db, steps[0]) {
        var o := steps[0].order;
        GapCommitStrands(db, ChangeOf(db, steps[0]), next);
        RunKeepsReservation(next, steps[1..], o);
        DecidedForGood(next, steps[1..], o);
      } else {
        ChangeKeepsCommittedPaid(db, ChangeOf(db, steps[0]), next);
        CommittedIsPaidUnlessGap(next, steps[1..]);
      }
    }
  }

  /** The gap is reachable: cancelling an order with a live reservation and verifying its payment before the reservation is
      released leaves a CANCELLED order whose stock is gone. */
  lemma GapIsReachable(db: Db, o: OrderId, ref: PaymentRef, report: Report)
    requires IsPending(db, o) && IsActive(db.ledger, o) && Confirms(db, o, ref, report)
    ensures var t := Run(db, [MarkCancelled(o), Verify(o, ref, report), FinishCancel(o)]);
            o in t.orders && t.orders[o].status == Cancelled
            && o in t.ledger.reservations && t.ledger.reservations[o].status == Committed
  {
    var s1 := Apply(db, MarkCancelled(o));
    var s2 := Apply(s1, Verify(o, ref, report));
    assert !IsPending(s1, o) && IsActive(s1.ledger, o);
    assert s2.ledger.reservations[o].status == Committed && s2.orders[o].status == Cancelled;
    var s3 := Apply(s2, FinishCancel(o));
    assert s3.ledger == s2.ledger;
    var run := [MarkCancelled(o), Verify(o, ref, report), FinishCancel(o)];
    assert run[1..] == [Verify(o, ref, report), FinishCancel(o)] && run[1..][1..] == [FinishCancel(o)];
    assert Run(s2, [FinishCancel(o)]) == Run(s3, []);
  }

  /** Any accepted checkout leads there. */
  lemma CheckoutReachesGap(db: Db, req: Request, report: Report)
    requires Decide(db, req) == Accepted
    requires report == Report(GatewaySuccess, NewOrder(req).grandTotal, req.currency)
    ensures var t := Run(db, [Checkout(req), MarkCancelled(req.order), Verify(req.order, req.ref, report), FinishCancel(req.order)]);
            req.order in t.orders && t.orders[req.order].status == Cancelled
            && req.order in t.ledger.reservations && t.ledger.reservations[req.order].status == Committed
  {
    var rest := [MarkCancelled(req.order), Verify(req.order, req.ref, report), FinishCancel(req.order)];
    var placed := Apply(db, Checkout(req));
    assert IsPending(placed, req.order) && IsActive(placed.ledger, req.order) && Confirms(placed, req.order, req.ref, report);
    GapIsReachable(placed, req.order, req.ref, report);
    RunFirst(db, [Checkout(req)] + rest, Checkout(req), rest, placed);
    assert [Checkout(req)] + rest
        == [Checkout(req), MarkCancelled(req.order), Verify(req.order, req.ref, report), FinishCancel(req.order)];
  }

  /** The step expires the reservation of o, and does so no sooner than it is due. */
  predicate ExpiresDue(step: ShopStep, o: OrderId, expiresAt: Time) {
    (step.SweepOne? && step.order == o && expiresAt < step.now)
    || (step.ExpireReservation? && step.order == o && expiresAt <= step.now)
  }

  lemma StepExpiresDue(db: Db, step: ShopStep, o: OrderId)
    requires IsActive(db.ledger, o)
    ensures var next := Apply(db, step).ledger.reservations;
            o in next && next[o].expiresAt == db.ledger.reservations[o].expiresAt
            && (next[o].status == Expired <==> ExpiresDue(step, o, db.ledger.reservations[o].expiresAt))
  {
    StepIsChange(db, step);
    match LedgerStepOf(ChangeOf(db, step))
    case None =>
    case Some(l) =>
      StepKeepsClosed(db.ledger, l, o);
      StepExpires(db.ledger, l, o);
  }

  /** Whatever services are at work, a hold that ends EXPIRED was expired by the sweeper past its time, or by its own job
      no sooner than on time. */
  lemma {:induction false} HoldsLastTheirTerm(db: Db, steps: seq<ShopStep>, o: OrderId)
    requires IsActive(db.ledger, o)
    ensures o in Run(db, steps).ledger.reservations
    ensures Run(db, steps).ledger.reservations[o].status == Expired ==>
              exists step | step in steps :: ExpiresDue(step, o, db.ledger.reservations[o].expiresAt)
    decreases |steps|
  {
    if steps != [] {
      var next := Apply(db, steps[0]);
      StepExpiresDue(db, steps[0], o);
      if IsActive(next.ledger, o) {
        HoldsLastTheirTerm(next, steps[1..], o);
      } else {
        RunKeepsReservation(next, steps[1..], o);
      }
    }
  }

  /** A payment that arrives after the reservation expired never makes the order PAID, whatever happens afterwards. */
  lemma LatePaymentIsNotTaken(db: Db, steps: seq<ShopStep>, o: OrderId)
    requires Table(db) && o in db.orders && db.ledger.reservations[o].status == Expired
    ensures o in Run(db, steps).orders && Run(db, steps).orders[o].status != Paid
  {
    TableKept(db, steps);
    DecidedForGood(db, steps, o);
    RunKeepsReservation(db, steps, o);
  }

  /** Exhausting the payment initiation decides the order; if it was still pending, its hold ends in the same step. */
  lemma CompensationDecides(db: Db, o: OrderId, ref: PaymentRef)
    requires Table(db)
    ensures var t := Apply(db, Compensate(o, ref));
            !IsPending(t, o)
            && (IsPending(db, o) ==> t.orders[o].status == PaymentFailed && !IsActive(t.ledger, o)
                                     && t.ledger == Post(db.ledger, Release(o)))
  {
    StepIsChange(db, Compensate(o, ref));
  }

  // ---------- stock bounds, seen from the shop ----------

  predicate StockSetCoversHolds(db: Db, step: ShopStep) {
    step.SetStock? ==> RestockCoversHolds(db.ledger, Restock(step.product, step.onHand))
  }

  predicate StockSetsCoverHolds(db: Db, steps: seq<ShopStep>)
    decreases |steps|
  {
    steps != [] ==> StockSetCoversHolds(db, steps[0]) && StockSetsCoverHolds(Apply(db, steps[0]), steps[1..])
  }

  ghost predicate ShopInBounds(db: Db, steps: seq<ShopStep>)
    decreases |steps|
  {
    InBounds(db.ledger) && (steps != [] ==> ShopInBounds(Apply(db, steps[0]), steps[1..]))
  }

  lemma StepKeepsLedgerBounds(db: Db, step: ShopStep)
    requires Inv(db.ledger) && InBounds(db.ledger)
    ensures Inv(Apply(db, step).ledger)
    ensures InBounds(Apply(db, step).ledger) <==> StockSetCoversHolds(db, step)
  {
    StepIsChange(db, step);
    ChangeKeepsLedgerBounds(db.ledger, ChangeOf(db, step));
    OnlyStockSetsRestock(db, step);
  }

  predicate LowersBelowHolds(ledger: State, c: Change) {
    c.StockOnly? && !RestockCoversHolds(ledger, c.step)
  }

  lemma ChangeKeepsLedgerBounds(ledger: State, c: Change)
    requires Inv(ledger) && InBounds(ledger)
    ensures Inv(LedgerAfter(ledger, c))
    ensures InBounds(LedgerAfter(ledger, c)) <==> !LowersBelowHolds(ledger, c)
  {
    match LedgerStepOf(c)
    case None =>
    case Some(l) =>
      StepConserves(ledger, l);
      StepInBounds(ledger, l);
  }

  lemma OnlyStockSetsRestock(db: Db, step: ShopStep)
    ensures LowersBelowHolds(db.ledger, ChangeOf(db, step)) <==> !StockSetCoversHolds(db, step)
  {
  }

  lemma LedgerStaysBalanced(db: Db, steps: seq<ShopStep>)
    requires Inv(db.ledger)
    ensures Inv(Run(db, steps).ledger)
  {
    RunRefinesLedger(db, steps);
    LedgerConserved(db.ledger, LedgerRun(db, steps));
  }

  /** Along every run of the shop the ledger stays balanced, and no product is ever oversold
      exactly when each restock covers what is on hold at its moment. */
  lemma {:induction false} ShopNeverOversells(db: Db, steps: seq<ShopStep>)
    requires Inv(db.ledger) && InBounds(db.ledger)
    ensures Inv(Run(db, steps).ledger)
    ensures ShopInBounds(db, steps) <==> StockSetsCoverHolds(db, steps)
    decreases |steps|
  {
    LedgerStaysBalanced(db, steps);
    if steps != [] {
      StepKeepsLedgerBounds(db, steps[0]);
      if InBounds(Apply(db, steps[0]).ledger) {
        ShopNeverOversells(Apply(db, steps[0]), steps[1..]);
      }
    }
  }
}
