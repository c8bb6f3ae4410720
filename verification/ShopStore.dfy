/**
 The order, payment and job services as they update the collections in place.
 Each method is proved to do exactly the step (or steps) of the state machine that it stands for.
 */
module ShopStore {
  import opened Domain
  import opened Ledger
  import opened Reservations
  import opened Cart
  import opened Shop
  import opened ShopInvariants
  import opened CheckoutTheorems

  datatype CancelResult = CancelDone | NotCancellable | OrderNotFound

  datatype WebhookResult = WebhookProcessed | WebhookDuplicate | WebhookIgnored | SuspiciousAmount | WebhookAborted

  /** What a first delivery of the event comes to. */
  function Verdict(db: Db, event: Event): WebhookResult {
    if event.ref !in db.payments then WebhookIgnored
    else
      var payment := db.payments[event.ref];
      if event.kind != ChargeSuccess then WebhookProcessed
      else if !Matches(event.amount, event.currency, payment) then SuspiciousAmount
      else if IsPending(db, payment.order) && !IsActive(db.ledger, payment.order) then WebhookAborted
      else WebhookProcessed
  }

  datatype ReconcileOutcome = NowPaid | NowFailed | NowExpired | Unchanged

  function OutcomeOf(before: OrderStatus, after: OrderStatus): ReconcileOutcome {
    if after == before then Unchanged
    else match after case Paid => NowPaid case PaymentFailed => NowFailed case _ => NowExpired
  }

  datatype Summary = Summary(checkedCount: nat, paidCount: nat, failedCount: nat, expiredCount: nat)

  function Counted(summary: Summary, outcome: ReconcileOutcome): Summary {
    var checked := summary.(checkedCount := summary.checkedCount + 1);
    match outcome
    case NowPaid => checked.(paidCount := checked.paidCount + 1)
    case NowFailed => checked.(failedCount := checked.failedCount + 1)
    case NowExpired => checked.(expiredCount := checked.expiredCount + 1)
    case Unchanged => checked
  }

  datatype Violation = StockBounds(product: ProductId) | PaidUncommitted(order: OrderId) | StalePending(order: OrderId)

  const DAY_MS := 24 * 60 * 60 * 1000
  const GRACE_MS := 30 * 60 * 1000
  const STALE_LIMIT := 50
  const RECONCILE_LIMIT := 100

  // ---------- what the invariant checker looks for ----------

  predicate StockAlarm(row: Stock) {
    row.onHand < 0 || row.reserved < 0 || row.reserved > row.onHand
  }

  /** The alarm is raised exactly outside the bounds. */
  lemma StockAlarmIff(row: Stock)
    ensures StockAlarm(row) <==> !(0 <= row.reserved <= row.onHand)
  {
  }

  predicate PaidAlarm(db: Db, o: OrderId, now: Time) {
    o in db.orders && db.orders[o].status == Paid && db.orders[o].createdAt >= now - DAY_MS
    && o in db.ledger.reservations && db.ledger.reservations[o].status != Committed
  }

  predicate StaleAlarm(db: Db, o: OrderId, now: Time) {
    IsPending(db, o) && db.orders[o].expiresAt < now - GRACE_MS
  }

  /** Started from unreserved stock, no run whose restocks cover the holds ever gives the checker a stock violation or a
      paid order without a committed reservation to report. */
  lemma ReachableStatesRaiseNoAlarm(inventory: map<ProductId, Stock>, steps: seq<ShopStep>, now: Time)
    requires forall p | p in inventory :: inventory[p].reserved == 0 <= inventory[p].onHand
    requires StockSetsCoverHolds(FreshShop(inventory), steps)
    ensures var t := Run(FreshShop(inventory), steps);
            (forall p | p in t.ledger.inventory :: !StockAlarm(t.ledger.inventory[p]))
            && forall o :: !PaidAlarm(t, o, now)
  {
    var db := FreshShop(inventory);
    FreshStoreConserved(inventory);
    ShopNeverOversells(db, steps);
    LastInBounds(db, steps);
    TableKept(db, steps);
  }

  lemma {:induction false} LastInBounds(db: Db, steps: seq<ShopStep>)
    requires ShopInBounds(db, steps)
    ensures InBounds(Run(db, steps).ledger)
    decreases |steps|
  {
    if steps != [] {
      LastInBounds(Apply(db, steps[0]), steps[1..]);
    }
  }

  class Store {
    const stock: InventoryStore
    var orders: map<OrderId, Order>
    var payments: map<PaymentRef, Payment>
    var outbox: seq<OutboxMessage>
    var events: map<EventKey, EventStatus>
    // Requests between two of their writes, see Shop.Db
    ghost var cancelling: set<OrderId>
    ghost var handling: map<EventKey, Event>

    constructor (inventory: map<ProductId, Stock>)
      ensures Contents() == FreshShop(inventory) && fresh(stock)
    {
      stock := new InventoryStore(inventory);
      orders, payments, outbox, events := map[], map[], [], map[];
      cancelling, handling := {}, map[];
    }

    ghost function Contents(): Db
      reads this, stock
    {
      Db(stock.Contents(), orders, payments, outbox, events, cancelling, handling)
    }

    // ---------- checkout ----------

    /** The live cart of a request, and the reason to refuse it before any transaction, if there is one. */
    method PriceCart(req: Request) returns (cart: LiveCart, refusal: Option<Decision>)
      ensures cart == CartOf(req)
      ensures refusal.None? ==> Decide(Contents(), req) !in {EmptyCart, UnavailableItems, PriceChanged}
      ensures refusal.Some? ==> refusal.value == Decide(Contents(), req) && refusal.value != Accepted
      ensures refusal == if req.items == [] then Some(EmptyCart)
                         else if !AllBuyable(req) then Some(UnavailableItems)
                         else if req.expectedTotal != CostOfCart(req) then Some(PriceChanged) else None
    {
      CartRefusals(Contents(), req);
      cart := GetLiveCart(req.items, req.catalog, req.levels);
      refusal := None;
      if cart.items == [] {
        return cart, Some(EmptyCart);
      }
      if exists item | item in cart.items :: Barred(item) {
        return cart, Some(UnavailableItems);
      }
      if req.expectedTotal != cart.subtotal {
        return cart, Some(PriceChanged);
      }
    }

    /** Pricing, then the transaction, in which whatever fails rolls all collections back. */
    method PriceAndPlace(req: Request) returns (decision: Decision)
      modifies this, stock
      ensures decision == Decide(old(Contents()), req)
      ensures Contents() == Apply(old(Contents()), Checkout(req))
    {
      var cart, refusal := PriceCart(req);
      if refusal.Some? {
        return refusal.value;
      }
      if exists o | o in orders :: orders[o].user == req.user && orders[o].key == req.key {
        return AlreadyOrdered;
      }
      var orderLines := LinesOf(cart.items);
      var inventoryBefore, reservationsBefore := stock.inventory, stock.reservations;
      var reserved := stock.ReserveStockInSession(req.order, ItemsOf(orderLines), req.heldUntil);
      if !reserved.Reserved? {
        stock.inventory, stock.reservations := inventoryBefore, reservationsBefore;
        return if reserved.DuplicateReservation? then DuplicateId else NotReservable;
      }
      if req.order in orders || req.ref in payments || exists o | o in orders :: orders[o].paymentRef == req.ref {
        stock.inventory, stock.reservations := inventoryBefore, reservationsBefore;
        return DuplicateId;
      }
      orders := orders[req.order := Order(req.user, req.key, PendingPayment, orderLines, cart.subtotal, req.currency,
                                          req.ref, req.expiresAt, req.createdAt)];
      payments := payments[req.ref := Payment(req.order, Initiated, cart.subtotal, req.currency)];
      outbox := outbox + [InitiatePayment(req.order, req.ref, cart.subtotal, req.currency), ClearCart(req.user)];
      return Accepted;
    }

    /** Checkout: nothing is written, or the order is, as the customer confirmed it. */
    method CheckoutTransaction(req: Request) returns (decision: Decision)
      modifies this, stock
      ensures decision == Decide(old(Contents()), req)
      ensures Contents() == Apply(old(Contents()), Checkout(req))
      ensures decision != Accepted ==> Contents() == old(Contents())
      ensures decision == Accepted ==> AddsAsConfirmed(old(Contents()), req, Contents())
    {
      AcceptedAddsAsConfirmed(Contents(), req);
      decision := PriceAndPlace(req);
    }

    // ---------- orders ----------

    /** Compare-and-set on the status of one order, from any of the given ones; the update may set the payment reference too. */
    method TransitionOrderStatus(order: OrderId, from: set<OrderStatus>, to: OrderStatus, extra: Option<PaymentRef>)
      returns (updated: bool)
      modifies this`orders
      ensures updated <==> order in old(orders) && old(orders)[order].status in from
      ensures !updated ==> orders == old(orders)
      ensures updated ==> orders == old(orders)[order := old(orders)[order].(
                            status := to, paymentRef := if extra.Some? then extra.value else old(orders)[order].paymentRef)]
    {
      updated := order in orders && orders[order].status in from;
      if updated {
        orders := orders[order := orders[order].(status := to)];
        if extra.Some? {
          orders := orders[order := orders[order].(paymentRef := extra.value)];
        }
      }
    }

    /** The first write of a cancellation. */
    method MarkOrderCancelled(order: OrderId) returns (updated: bool)
      modifies this
      ensures updated <==> IsPending(old(Contents()), order)
      ensures Contents() == Apply(old(Contents()), MarkCancelled(order))
    {
      updated := TransitionOrderStatus(order, {PendingPayment}, Cancelled, None);
      if updated {
        cancelling := cancelling + {order};
      }
    }

    /** The second write of a cancellation, in a transaction of its own. */
    method ReleaseCancelled(order: OrderId)
      requires order in cancelling
      modifies this, stock
      ensures Contents() == Apply(old(Contents()), FinishCancel(order))
    {
      stock.ReleaseReservationInSession(order);
      cancelling := cancelling - {order};
    }

    /** Both writes with nothing in between: the order is cancelled and its hold, if it was still active, is returned. */
    method CancelOrder(order: OrderId, user: UserId) returns (r: CancelResult)
      modifies this, stock
      ensures r == OrderNotFound <==> order !in old(orders) || old(orders)[order].user != user
      ensures r == CancelDone <==> r != OrderNotFound && IsPending(old(Contents()), order)
      ensures r != CancelDone ==> Contents() == old(Contents())
      ensures r == CancelDone ==>
                Contents() == Run(old(Contents()), [MarkCancelled(order), FinishCancel(order)])
                && order in orders && orders[order].status == Cancelled && !IsActive(Contents().ledger, order)
    {
      if order !in orders || orders[order].user != user {
        return OrderNotFound;
      }
      var updated := MarkOrderCancelled(order);
      if !updated {
        return NotCancellable;
      }
      ReleaseCancelled(order);
      RunTwo(old(Contents()), MarkCancelled(order), FinishCancel(order));
      return CancelDone;
    }

    // ---------- payments ----------

    /** The paying transaction that webhooks and reconciliation share: false when it aborted for want of an active hold. */
    method PayInTransaction(order: OrderId, ref: PaymentRef) returns (done: bool)
      requires ref in payments
      modifies this, stock
      ensures done <==> !(IsPending(old(Contents()), order) && !IsActive(old(Contents()).ledger, order))
      ensures Contents() == Pay(old(Contents()), order, ref)
    {
      var ordersBefore, paymentsBefore := orders, payments;
      var updated := TransitionOrderStatus(order, {PendingPayment}, Paid, Some(ref));
      payments := payments[ref := payments[ref].(status := Success)];
      done := true;
      if updated {
        done := stock.CommitReservationInSession(order);
        if !done {
          orders, payments := ordersBefore, paymentsBefore;
        }
      }
    }

    /** The failing transaction: the order and its payment change together, and the hold is released if the order moved. */
    method FailInTransaction(order: OrderId, to: OrderStatus, ref: PaymentRef, mark: PaymentStatus) returns (updated: bool)
      requires ref in payments
      modifies this, stock
      ensures updated <==> IsPending(old(Contents()), order)
      ensures Contents() == SetPayment(Fail(old(Contents()), order, to), ref, mark)
    {
      updated := TransitionOrderStatus(order, {PendingPayment}, to, None);
      payments := payments[ref := payments[ref].(status := mark)];
      if updated {
        stock.ReleaseReservationInSession(order);
      }
    }

    method RecordEvent(event: Event) returns (recorded: bool)
      modifies this
      ensures recorded <==> event.key !in old(events)
      ensures Contents() == Apply(old(Contents()), ReceiveWebhook(event))
      ensures events == if recorded then old(events)[event.key := Received] else old(events)
      ensures orders == old(orders) && payments == old(payments) && stock.Contents() == old(stock.Contents())
    {
      recorded := event.key !in events;
      if recorded {
        events := events[event.key := Received];
        handling := handling[event.key := event];
      }
    }

    method SettleEventInStore(event: Event) returns (r: WebhookResult)
      modifies this, stock
      ensures Contents() == SettleEvent(old(Contents()), event)
      ensures r == Verdict(old(Contents()), event)
      ensures r == WebhookIgnored <==> event.ref !in old(payments)
      ensures r == SuspiciousAmount <==>
                event.ref in old(payments) && event.kind == ChargeSuccess
                && (event.amount != old(payments)[event.ref].amount || event.currency != old(payments)[event.ref].currency)
      ensures r == SuspiciousAmount ==>
                Contents() == old(Contents()).(events := old(events)[event.key := EventFailed])
      ensures r == WebhookAborted ==> Contents() == old(Contents())
    {
      if event.ref !in payments {
        events := events[event.key := Ignored];
        return WebhookIgnored;
      }
      var payment := payments[event.ref];
      match event.kind {
        case ChargeSuccess =>
          if event.amount != payment.amount || event.currency != payment.currency {
            events := events[event.key := EventFailed];
            return SuspiciousAmount;
          }
          var done := PayInTransaction(payment.order, event.ref);
          if !done {
            return WebhookAborted;
          }
          events := events[event.key := Processed];
        case ChargeFailed =>
          var updated := FailInTransaction(payment.order, PaymentFailed, event.ref, Failed);
          events := events[event.key := Processed];
        case OtherEvent =>
          events := events[event.key := Ignored];
      }
      return WebhookProcessed;
    }

    /** One delivery of an event, not interleaved with anything else. */
    method ProcessWebhook(event: Event) returns (r: WebhookResult)
      modifies this, stock
      ensures r == if event.key in old(events) then WebhookDuplicate else Verdict(old(Contents()), event)
      ensures Contents() == if event.key in old(events) then old(Contents())
                            else Run(old(Contents()), [ReceiveWebhook(event), SettleWebhook(event.key)])
    {
      var isNew := RecordEvent(event);
      if !isNew {
        return WebhookDuplicate;
      }
      ghost var recorded := Contents();
      r := SettleEventInStore(event);
      handling := handling - {event.key};
      assert Contents() == SettleEvent(recorded, event).(handling := recorded.handling - {event.key}) by {
        SettlingKeepsHandling(recorded, event);
      }
      RunTwo(old(Contents()), ReceiveWebhook(event), SettleWebhook(event.key));
    }

    /** Asks the gateway about the payment of a pending order of the user, and pays if the report matches.
        The transaction commits the hold without checking that its order update matched; it aborts without an active hold. */
    method VerifyOrderPayment(order: OrderId, user: UserId, gateway: map<PaymentRef, Report>)
      returns (confirmed: bool, ghost trace: seq<ShopStep>)
      modifies this, stock
      ensures Contents() == Run(old(Contents()), trace)
      ensures trace == []
              || exists ref :: ref in gateway && trace == [Verify(order, ref, gateway[ref])]
                               && Confirms(old(Contents()), order, ref, gateway[ref])
      ensures trace != [] ==> IsPending(old(Contents()), order) && old(orders)[order].user == user
      ensures IsPending(old(Contents()), order) && old(orders)[order].user == user && Reported(old(payments), gateway, order)
              && (forall ref | ref in gateway && PaymentOf(old(Contents()), ref, order) ::
                    Confirms(old(Contents()), order, ref, gateway[ref]))
              ==> trace != []
      ensures confirmed <==> trace != [] && IsActive(old(Contents()).ledger, order)
      ensures confirmed ==> order in orders && orders[order].status == Paid
                            && order in stock.reservations && stock.reservations[order].status == Committed
    {
      trace := [];
      if order !in orders || orders[order].user != user || orders[order].status != PendingPayment {
        return false, [];
      }
      if ref :| ref in payments && payments[ref].order == order && ref in gateway {
        var payment, report := payments[ref], gateway[ref];
        if report.status != GatewaySuccess || report.amount != payment.amount || report.currency != payment.currency {
          return false, [];
        }
        confirmed := VerifyInTransaction(order, ref);
        trace := [Verify(order, ref, report)];
        RunAppend(old(Contents()), [], Verify(order, ref, report));
      } else {
        return false, [];
      }
    }

    method VerifyInTransaction(order: OrderId, ref: PaymentRef) returns (done: bool)
      requires ref in payments
      modifies this, stock
      ensures done <==> IsActive(old(Contents()).ledger, order)
      ensures Contents() == PayUnchecked(old(Contents()), order, ref)
    {
      var ordersBefore, paymentsBefore := orders, payments;
      if order in orders && orders[order].status == PendingPayment {
        orders := orders[order := orders[order].(status := Paid, paymentRef := ref)];
      }
      payments := payments[ref := payments[ref].(status := Success)];
      done := stock.CommitReservationInSession(order);
      if !done {
        orders, payments := ordersBefore, paymentsBefore;
      }
    }

    /** One round of reconciliation: the gateway's answer decides which of the three paths is taken. */
    method ReconcileOrder(order: OrderId, ref: PaymentRef, report: Report, now: Time) returns (outcome: ReconcileOutcome)
      requires PaymentOf(Contents(), ref, order) && order in orders
      modifies this, stock
      ensures Contents() == Apply(old(Contents()), Reconcile(order, ref, report, now))
      ensures orders.Keys == old(orders).Keys
      ensures forall o | o in orders && o != order :: orders[o] == old(orders)[o]
      ensures outcome == OutcomeOf(old(orders)[order].status, orders[order].status)
      ensures orders[order].status == old(orders)[order].status
              || orders[order].status in {Paid, PaymentFailed, OrderExpired}
      ensures SameOwners(old(payments), payments)
    {
      outcome := Unchanged;
      var payment := payments[ref];
      match report.status {
        case GatewaySuccess =>
          if report.amount == payment.amount && report.currency == payment.currency {
            var wasPending := orders[order].status == PendingPayment;
            var done := PayInTransaction(order, ref);
            if wasPending && done {
              outcome := NowPaid;
            }
          }
        case GatewayFailed =>
          var updated := FailInTransaction(order, PaymentFailed, ref, Failed);
          if updated {
            outcome := NowFailed;
          }
        case GatewayPending =>
          if orders[order].expiresAt < now {
            var updated := FailInTransaction(order, OrderExpired, ref, Abandoned);
            if updated {
              outcome := NowExpired;
            }
          }
      }
    }

    /** The round of one order: its payment is looked up, and a failing gateway call leaves everything as it is. */
    method ReconcileWithGateway(order: OrderId, gateway: map<PaymentRef, Report>, now: Time)
      returns (outcome: ReconcileOutcome, ghost round: seq<ShopStep>)
      requires order in orders
      modifies this, stock
      ensures Contents() == Run(old(Contents()), round)
      ensures IsRound(old(payments), gateway, now, order, round)
      ensures SameOwners(old(payments), payments)
      ensures orders.Keys == old(orders).Keys
      ensures forall o | o in orders && o != order :: orders[o] == old(orders)[o]
      ensures outcome == OutcomeOf(old(orders)[order].status, orders[order].status)
      ensures orders[order].status == old(orders)[order].status
              || orders[order].status in {Paid, PaymentFailed, OrderExpired}
    {
      round := [];
      outcome := Unchanged;
      if ref :| ref in payments && payments[ref].order == order && ref in gateway {
        outcome := ReconcileOrder(order, ref, gateway[ref], now);
        round := [Reconcile(order, ref, gateway[ref], now)];
        RunAppend(old(Contents()), [], Reconcile(order, ref, gateway[ref], now));
      }
    }

    /** The round of the next order of a reconciliation that has checked some others before. */
    method ReconcileNext(order: OrderId, gateway: map<PaymentRef, Report>, now: Time, before: Summary,
                         ghost start: Db, ghost checked: set<OrderId>, ghost trace: seq<ShopStep>)
      returns (summary: Summary, ghost trace': seq<ShopStep>)
      requires Reconciled(start, Contents(), gateway, now, checked, trace, before)
      requires order !in checked && IsPending(start, order)
      modifies this, stock
      ensures Reconciled(start, Contents(), gateway, now, checked + {order}, trace', summary)
    {
      ghost var db := Contents();
      var outcome;
      ghost var round;
      outcome, round := ReconcileWithGateway(order, gateway, now);
      OneMoreReconciled(start, db, Contents(), gateway, now, checked, trace, before, order, round);
      summary, trace' := Counted(before, outcome), trace + round;
    }

    /** Orders stuck in PENDING_PAYMENT since before the threshold: RECONCILE_LIMIT of them, or all if there are fewer. */
    method FindPendingOrders(threshold: Time) returns (page: set<OrderId>)
      ensures page <= StuckSet(orders, threshold)
      ensures forall o | o in page :: o in orders && orders[o].status == PendingPayment && orders[o].createdAt < threshold
      ensures |page| < RECONCILE_LIMIT ==>
                forall o | o in orders && orders[o].status == PendingPayment && orders[o].createdAt < threshold :: o in page
      ensures |page| == if |StuckSet(orders, threshold)| < RECONCILE_LIMIT then |StuckSet(orders, threshold)| else RECONCILE_LIMIT
    {
      var stuck := StuckSet(orders, threshold);
      ghost var all := stuck;
      page := {};
      while stuck != {} && |page| < RECONCILE_LIMIT
        invariant page == all - stuck && stuck <= all
        invariant |page| + |stuck| == |all| && |page| <= RECONCILE_LIMIT
        decreases stuck
      {
        var o :| o in stuck;
        page, stuck := page + {o}, stuck - {o};
      }
    }

    /** A page of stuck orders, each against the gateway's report for its payment. The counters say how many orders were
        checked, and how many of them are now paid, failed and expired. */
    method ReconcilePendingOrders(gateway: map<PaymentRef, Report>, threshold: Time, now: Time)
      returns (summary: Summary, ghost trace: seq<ShopStep>, ghost page: set<OrderId>)
      modifies this, stock
      ensures page <= StuckSet(old(orders), threshold)
      ensures var stuck := |StuckSet(old(orders), threshold)|; |page| == if stuck < RECONCILE_LIMIT then stuck else RECONCILE_LIMIT
      ensures Reconciled(old(Contents()), Contents(), gateway, now, page, trace, summary)
    {
      ghost var start := Contents();
      var pending := FindPendingOrders(threshold);
      page := pending;
      summary, trace := Summary(0, 0, 0, 0), [];
      NoneReconciled(start, gateway, now);
      while pending != {}
        invariant pending <= page
        invariant Reconciled(start, Contents(), gateway, now, page - pending, trace, summary)
      {
        var order :| order in pending;
        summary, trace := ReconcileNext(order, gateway, now, summary, start, page - pending, trace);
        OneLessPending(page, pending, order);
        pending := pending - {order};
      }
      assert page - {} == page;
    }

    /** The compensating action of a payment initiation that ran out of retries. */
    method CompensateInitiatePayment(order: OrderId) returns (ghost ref: PaymentRef)
      modifies this, stock
      ensures Contents() == Apply(old(Contents()), Compensate(order, ref))
      ensures !IsPending(Contents(), order)
      ensures (exists r :: PaymentOf(old(Contents()), r, order) && old(payments)[r].status == Initiated)
              ==> PaymentOf(old(Contents()), ref, order) && old(payments)[ref].status == Initiated
    {
      var updated := TransitionOrderStatus(order, {PendingPayment}, PaymentFailed, None);
      ref := 0;
      if r :| r in payments && payments[r].order == order && payments[r].status == Initiated {
        payments := payments[r := payments[r].(status := Failed)];
        ref := r;
      }
      if updated {
        stock.ReleaseReservationInSession(order);
      }
    }

    // ---------- the invariant checker ----------

    method CheckStockBounds() returns (violations: seq<Violation>)
      ensures forall v :: v in violations
                          <==> v.StockBounds? && v.product in stock.inventory && StockAlarm(stock.inventory[v.product])
      ensures forall p :: StockBounds(p) in violations <==>
                p in stock.inventory && !(0 <= stock.inventory[p].reserved <= stock.inventory[p].onHand)
    {
      violations := [];
      var corrupted := set p | p in stock.inventory && StockAlarm(stock.inventory[p]);
      ghost var all := corrupted;
      while corrupted != {}
        invariant corrupted <= all
        invariant forall v :: v in violations <==> v.StockBounds? && v.product in all - corrupted
      {
        var p :| p in corrupted;
        violations := violations + [StockBounds(p)];
        corrupted := corrupted - {p};
      }
    }

    method CheckPaidOrders(now: Time) returns (violations: seq<Violation>)
      ensures forall v :: v in violations <==> v.PaidUncommitted? && PaidAlarm(Contents(), v.order, now)
      ensures forall o :: PaidUncommitted(o) in violations <==>
                o in orders && orders[o].status == Paid && now - orders[o].createdAt <= DAY_MS
                && o in stock.reservations && stock.reservations[o].status != Committed
    {
      violations := [];
      var uncommitted := set o | o in orders && orders[o].status == Paid && orders[o].createdAt >= now - DAY_MS
                                 && o in stock.reservations && stock.reservations[o].status != Committed;
      ghost var all := uncommitted;
      while uncommitted != {}
        invariant uncommitted <= all
        invariant forall v :: v in violations <==> v.PaidUncommitted? && v.order in all - uncommitted
      {
        var o :| o in uncommitted;
        violations := violations + [PaidUncommitted(o)];
        uncommitted := uncommitted - {o};
      }
    }

    /** Reports at most STALE_LIMIT stale orders, and all of them if there are no more than that. */
    method CheckStaleOrders(now: Time) returns (violations: seq<Violation>)
      ensures forall v :: v in violations ==> v.StalePending? && StaleAlarm(Contents(), v.order, now)
      ensures forall o :: StalePending(o) in violations ==>
                o in orders && orders[o].status == PendingPayment && now - orders[o].expiresAt > GRACE_MS
      ensures |violations| < STALE_LIMIT ==>
                forall o | o in orders && orders[o].status == PendingPayment && now - orders[o].expiresAt > GRACE_MS ::
                  StalePending(o) in violations
      ensures |StaleSet(orders, now)| <= STALE_LIMIT ==>
                forall o :: StaleAlarm(Contents(), o, now) ==> StalePending(o) in violations
      ensures |violations| == if |StaleSet(orders, now)| <= STALE_LIMIT then |StaleSet(orders, now)| else STALE_LIMIT
    {
      violations := [];
      var stale := StaleSet(orders, now);
      ghost var all := stale;
      while stale != {} && |violations| < STALE_LIMIT
        invariant stale <= all && |violations| + |stale| == |all| && |violations| <= STALE_LIMIT
        invariant forall v :: v in violations <==> v.StalePending? && v.order in all - stale
        decreases stale
      {
        var o :| o in stale;
        violations := violations + [StalePending(o)];
        stale := stale - {o};
      }
      forall o | StaleAlarm(Contents(), o, now) && |all| <= STALE_LIMIT ensures StalePending(o) in violations {
        assert o in all && StalePending(o).order == o;
      }
    }

    method RunInvariantChecks(now: Time) returns (passed: bool, violations: seq<Violation>)
      ensures passed <==> violations == []
      ensures forall p :: StockBounds(p) in violations <==> p in stock.inventory && StockAlarm(stock.inventory[p])
      ensures forall o :: PaidUncommitted(o) in violations <==> PaidAlarm(Contents(), o, now)
      ensures forall o :: StalePending(o) in violations ==> StaleAlarm(Contents(), o, now)
      ensures passed ==> StaleSet(orders, now) == {}
      ensures passed ==>
                (forall p | p in stock.inventory :: 0 <= stock.inventory[p].reserved <= stock.inventory[p].onHand)
                && (forall o | o in orders && orders[o].status == Paid && now - orders[o].createdAt <= DAY_MS
                               && o in stock.reservations :: stock.reservations[o].status == Committed)
                && forall o | o in orders && orders[o].status == PendingPayment :: now - orders[o].expiresAt <= GRACE_MS
    {
      var bounds := CheckStockBounds();
      var paid := CheckPaidOrders(now);
      var stale := CheckStaleOrders(now);
      violations := bounds + paid + stale;
      passed := violations == [];
    }
  }

  lemma SettlingKeepsHandling(db: Db, event: Event)
    ensures SettleEvent(db, event).handling == db.handling
  {
  }

  lemma RunTwo(db: Db, a: ShopStep, b: ShopStep)
    ensures Run(db, [a, b]) == Apply(Apply(db, a), b)
  {
    var mid := Apply(db, a);
    assert [a, b][1..] == [b];
    assert Run(mid, [b]) == Run(Apply(mid, b), [b][1..]);
  }

  lemma RunAppend(db: Db, steps: seq<ShopStep>, last: ShopStep)
    ensures Run(db, steps + [last]) == Apply(Run(db, steps), last)
  {
    RunConcat(db, steps, [last]);
    var end := Run(db, steps);
    assert Run(end, [last]) == Run(Apply(end, last), [last][1..]);
  }

  /** Payment records stay, each with its order. */
  ghost predicate SameOwners(before: map<PaymentRef, Payment>, after: map<PaymentRef, Payment>) {
    after.Keys == before.Keys && forall ref | ref in before :: after[ref].order == before[ref].order
  }

  /** The gateway answers for a payment of the order. */
  predicate Reported(payments: map<PaymentRef, Payment>, gateway: map<PaymentRef, Report>, o: OrderId) {
    exists ref :: ref in payments && payments[ref].order == o && ref in gateway
  }

  /** The round of one order: one reconciliation with a payment of the order that the gateway answers for, if there is one. */
  ghost predicate IsRound(
      payments: map<PaymentRef, Payment>, gateway: map<PaymentRef, Report>, now: Time, o: OrderId, round: seq<ShopStep>)
  {
    if Reported(payments, gateway, o) then |round| == 1 && IsRoundOf(payments, gateway, now, o, round[0]) else round == []
  }

  predicate IsRoundOf(
      payments: map<PaymentRef, Payment>, gateway: map<PaymentRef, Report>, now: Time, o: OrderId, step: ShopStep)
  {
    step.Reconcile? && step.order == o && step.now == now
    && step.ref in payments && payments[step.ref].order == o && step.ref in gateway && step.report == gateway[step.ref]
  }

  /** One round for each of the orders that the gateway answers for, and nothing else. */
  ghost predicate AreRounds(
      payments: map<PaymentRef, Payment>, gateway: map<PaymentRef, Report>, now: Time, os: set<OrderId>, trace: seq<ShopStep>)
  {
    (forall step | step in trace :: step.Reconcile? && step.order in os && IsRoundOf(payments, gateway, now, step.order, step))
    && (forall o | o in os && Reported(payments, gateway, o) :: exists step | step in trace :: step.Reconcile? && step.order == o)
    && forall i, j | 0 <= i < j < |trace| :: trace[i].order != trace[j].order
  }

  /** How far a reconciliation got that has checked the given orders. */
  ghost predicate Reconciled(
      start: Db, db: Db, gateway: map<PaymentRef, Report>, now: Time, checked: set<OrderId>, trace: seq<ShopStep>,
      summary: Summary)
  {
    db == Run(start, trace)
    && AreRounds(start.payments, gateway, now, checked, trace) && SameOwners(start.payments, db.payments)
    && Counts(summary, start.orders, db.orders, checked)
  }

  /** Only checked orders have changed, and the counters tell how. */
  ghost predicate Counts(summary: Summary, before: map<OrderId, Order>, after: map<OrderId, Order>, checked: set<OrderId>) {
    after.Keys == before.Keys
    && (forall o | o in after && o !in checked :: after[o] == before[o])
    && summary.checkedCount == |checked| && Tallies(summary, before, after)
  }

  lemma OneMoreCounted(
      summary: Summary, start: map<OrderId, Order>, before: map<OrderId, Order>, after: map<OrderId, Order>,
      checked: set<OrderId>, o: OrderId)
    requires Counts(summary, start, before, checked) && o !in checked
    requires o in start && start[o].status == PendingPayment
    requires after.Keys == before.Keys && forall p | p in after && p != o :: after[p] == before[p]
    requires after[o].status in {PendingPayment, Paid, PaymentFailed, OrderExpired}
    ensures Counts(Counted(summary, OutcomeOf(PendingPayment, after[o].status)), start, after, checked + {o})
  {
    TallyMoved(summary, start, before, after, o);
  }

  lemma NoneReconciled(start: Db, gateway: map<PaymentRef, Report>, now: Time)
    ensures Reconciled(start, start, gateway, now, {}, [], Summary(0, 0, 0, 0))
  {
    var orders := start.orders;
    assert MovedTo(orders, orders, Paid) == {} == MovedTo(orders, orders, PaymentFailed);
    assert MovedTo(orders, orders, OrderExpired) == {};
  }

  lemma OneMoreReconciled(
      start: Db, before: Db, after: Db, gateway: map<PaymentRef, Report>, now: Time, checked: set<OrderId>,
      trace: seq<ShopStep>, summary: Summary, o: OrderId, round: seq<ShopStep>)
    requires Reconciled(start, before, gateway, now, checked, trace, summary) && o !in checked
    requires IsPending(start, o) && o in before.orders
    requires after == Run(before, round) && IsRound(before.payments, gateway, now, o, round)
    requires SameOwners(before.payments, after.payments) && after.orders.Keys == before.orders.Keys
    requires forall p | p in after.orders && p != o :: after.orders[p] == before.orders[p]
    requires after.orders[o].status in {PendingPayment, Paid, PaymentFailed, OrderExpired}
    ensures Reconciled(start, after, gateway, now, checked + {o}, trace + round,
                       Counted(summary, OutcomeOf(PendingPayment, after.orders[o].status)))
  {
    RunConcat(start, trace, round);
    OneMoreRound(start.payments, before.payments, gateway, now, checked, trace, o, round);
    OneMoreCounted(summary, start.orders, before.orders, after.orders, checked, o);
  }

  lemma OneLessPending(page: set<OrderId>, pending: set<OrderId>, o: OrderId)
    requires o in pending && pending <= page
    ensures page - pending + {o} == page - (pending - {o})
  {
  }

  lemma OneMoreRound(
      start: map<PaymentRef, Payment>, before: map<PaymentRef, Payment>, gateway: map<PaymentRef, Report>, now: Time,
      os: set<OrderId>, trace: seq<ShopStep>, o: OrderId, round: seq<ShopStep>)
    requires SameOwners(start, before) && AreRounds(start, gateway, now, os, trace) && o !in os
    requires IsRound(before, gateway, now, o, round)
    ensures AreRounds(start, gateway, now, os + {o}, trace + round)
  {
    var all := trace + round;
    assert Reported(before, gateway, o) <==> Reported(start, gateway, o);
    forall p | p in os + {o} && Reported(start, gateway, p) ensures exists step | step in all :: step.Reconcile? && step.order == p {
      if p == o {
        assert round[0] in all;
      } else {
        var step :| step in trace && step.Reconcile? && step.order == p;
        assert step in all;
      }
    }
    forall i, j | 0 <= i < j < |all| ensures all[i].order != all[j].order {
      assert trace != [] && i < |trace| ==> all[i] in trace;
    }
  }

  function StuckSet(orders: map<OrderId, Order>, threshold: Time): set<OrderId> {
    set o | o in orders && orders[o].status == PendingPayment && orders[o].createdAt < threshold
  }

  function StaleSet(orders: map<OrderId, Order>, now: Time): set<OrderId> {
    set o | o in orders && orders[o].status == PendingPayment && orders[o].expiresAt < now - GRACE_MS
  }

  /** The orders that went from PENDING_PAYMENT to the given status. */
  function MovedTo(before: map<OrderId, Order>, after: map<OrderId, Order>, to: OrderStatus): set<OrderId> {
    set o | o in before && o in after && before[o].status == PendingPayment && after[o].status == to
  }

  /** The counters say how many orders were paid, failed and expired. */
  predicate Tallies(summary: Summary, before: map<OrderId, Order>, after: map<OrderId, Order>) {
    summary.paidCount == |MovedTo(before, after, Paid)|
    && summary.failedCount == |MovedTo(before, after, PaymentFailed)|
    && summary.expiredCount == |MovedTo(before, after, OrderExpired)|
  }

  lemma TallyMoved(summary: Summary, start: map<OrderId, Order>, mid: map<OrderId, Order>, end: map<OrderId, Order>, o: OrderId)
    requires start.Keys == mid.Keys == end.Keys && o in start && start[o].status == PendingPayment && mid[o] == start[o]
    requires forall o' | o' in end && o' != o :: end[o'] == mid[o']
    requires end[o].status in {PendingPayment, Paid, PaymentFailed, OrderExpired}
    requires Tallies(summary, start, mid)
    ensures Tallies(Counted(summary, OutcomeOf(PendingPayment, end[o].status)), start, end)
  {
    CountMoved(start, mid, end, o, Paid);
    CountMoved(start, mid, end, o, PaymentFailed);
    CountMoved(start, mid, end, o, OrderExpired);
  }

  lemma CountMoved(start: map<OrderId, Order>, mid: map<OrderId, Order>, end: map<OrderId, Order>, o: OrderId, to: OrderStatus)
    requires start.Keys == mid.Keys == end.Keys && o in start && start[o].status == PendingPayment && mid[o] == start[o]
    requires forall o' | o' in end && o' != o :: end[o'] == mid[o']
    requires to != PendingPayment
    ensures |MovedTo(start, end, to)| == |MovedTo(start, mid, to)| + if end[o].status == to then 1 else 0
  {
    var before, after := MovedTo(start, mid, to), MovedTo(start, end, to);
    assert o !in before && (o in after <==> end[o].status == to);
    assert forall x | x != o :: x in after <==> x in before;
    if o in after {
      assert after == before + {o};
    } else {
      assert after == before;
    }
  }
}
