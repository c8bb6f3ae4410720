/**
 The order and payment protocol as a state machine over the whole database.
 Each step is one transaction or one single-document update of the services; `Run` is any interleaving of them by any
 number of requests, webhooks, sweepers, reconcilers and outbox workers.
 */
module Shop {
  import opened Domain
  import opened Ledger
  import opened Cart
  import opened Reservations

  datatype OrderStatus = PendingPayment | Paid | PaymentFailed | OrderExpired | Cancelled | Fulfilled | OrderRefunded

  datatype Line = Line(product: ProductId, unitPrice: nat, currency: Currency, qty: int, total: int)

  datatype Order = Order(
    user: UserId, key: IdempotencyKey, status: OrderStatus, lines: seq<Line>,
    grandTotal: int, currency: Currency, paymentRef: PaymentRef, expiresAt: Time, createdAt: Time)

  datatype PaymentStatus = Initiated | PaymentPending | Success | Failed | Abandoned | PaymentRefunded

  datatype Payment = Payment(order: OrderId, status: PaymentStatus, amount: int, currency: Currency)

  datatype OutboxMessage =
    | InitiatePayment(order: OrderId, ref: PaymentRef, amount: int, currency: Currency)
    | ClearCart(user: UserId)

  // A provider's event is identified by the provider and the event id together.
  datatype EventKey = EventKey(provider: nat, eventId: nat)

  datatype EventKind = ChargeSuccess | ChargeFailed | OtherEvent

  datatype Event = Event(key: EventKey, kind: EventKind, ref: PaymentRef, amount: int, currency: Currency)

  datatype EventStatus = Received | Processed | EventFailed | Ignored

  datatype GatewayStatus = GatewaySuccess | GatewayFailed | GatewayPending

  datatype Report = Report(status: GatewayStatus, amount: int, currency: Currency)

  /** What a checkout request holds when its transaction starts: the cart as it was read and priced earlier, the total the
      customer confirmed, the ids it drew, and the end of the order's term and (read from the clock again, in the
      transaction) of its reservation's. */
  datatype Request = Request(
    user: UserId, key: IdempotencyKey, expectedTotal: int, currency: Currency,
    items: seq<CartItem>, catalog: map<ProductId, Product>, levels: map<ProductId, StockLevel>,
    order: OrderId, ref: PaymentRef, expiresAt: Time, heldUntil: Time, createdAt: Time)

  /** The collections, and the requests that are between two of their writes: orders marked CANCELLED whose reservation is
      still to be released, and webhook events recorded but not yet settled. */
  datatype Db = Db(
    ledger: State, orders: map<OrderId, Order>, payments: map<PaymentRef, Payment>, outbox: seq<OutboxMessage>,
    events: map<EventKey, EventStatus>, cancelling: set<OrderId>, handling: map<EventKey, Event>)

  datatype ShopStep =
    | Checkout(req: Request)
    | MarkCancelled(order: OrderId)
    | FinishCancel(order: OrderId)
    | DropCancel(order: OrderId)
    | ReceiveWebhook(event: Event)
    | SettleWebhook(key: EventKey)
    | DropWebhook(key: EventKey)
    | Reconcile(order: OrderId, ref: PaymentRef, report: Report, now: Time)
    | Verify(order: OrderId, ref: PaymentRef, report: Report)
    | Compensate(order: OrderId, ref: PaymentRef)
    | SweepOne(order: OrderId, now: Time)
    | ExpireReservation(order: OrderId, now: Time)
    | SetStock(product: ProductId, onHand: int)

  // ---------- checkout ----------

  function LinesOf(items: seq<LiveItem>): seq<Line> {
    if items == [] then []
    else
      var i := items[0];
      [Line(i.product, i.price, i.currency, i.qty, i.subtotal)] + LinesOf(items[1..])
  }

  function ItemsOf(lines: seq<Line>): seq<Item> {
    if lines == [] then [] else [Item(lines[0].product, lines[0].qty)] + ItemsOf(lines[1..])
  }

  function SumTotals(lines: seq<Line>): int {
    if lines == [] then 0 else lines[0].total + SumTotals(lines[1..])
  }

  datatype Decision =
    EmptyCart | UnavailableItems | PriceChanged | AlreadyOrdered | NotReservable | DuplicateId | Accepted

  predicate HasOrder(orders: map<OrderId, Order>, user: UserId, key: IdempotencyKey) {
    exists o | o in orders :: orders[o].user == user && orders[o].key == key
  }

  predicate Barred(item: LiveItem) {
    OutOfStock in item.warnings || Unavailable in item.warnings
  }

  function CartOf(req: Request): LiveCart {
    LiveCartOf(req.items, req.catalog, req.levels)
  }

  function Decide(db: Db, req: Request): Decision {
    var cart := CartOf(req);
    if cart.items == [] then EmptyCart
    else if exists item | item in cart.items :: Barred(item) then UnavailableItems
    else if req.expectedTotal != cart.subtotal then PriceChanged
    else if HasOrder(db.orders, req.user, req.key) then AlreadyOrdered
    else if !Reservable(db.ledger.inventory, ItemsOf(LinesOf(cart.items))) then NotReservable
    else if req.order in db.ledger.reservations || req.order in db.orders || req.ref in db.payments
            || exists o | o in db.orders :: db.orders[o].paymentRef == req.ref then DuplicateId
    else Accepted
  }

  function NewOrder(req: Request): Order {
    Order(req.user, req.key, PendingPayment, LinesOf(CartOf(req).items), CartOf(req).subtotal, req.currency,
          req.ref, req.expiresAt, req.createdAt)
  }

  /** The two events that are written together with the order. */
  function OutboxPair(req: Request): seq<OutboxMessage> {
    [InitiatePayment(req.order, req.ref, NewOrder(req).grandTotal, req.currency), ClearCart(req.user)]
  }

  function CreateOrder(db: Db, req: Request): Db {
    var order := NewOrder(req);
    db.(ledger := Post(db.ledger, Reserve(req.order, ItemsOf(order.lines), req.heldUntil)),
        orders := db.orders[req.order := order],
        payments := db.payments[req.ref := Payment(req.order, Initiated, order.grandTotal, req.currency)],
        outbox := db.outbox + OutboxPair(req))
  }

  // ---------- the transitions of an order and its payment ----------

  predicate IsPending(db: Db, o: OrderId) {
    o in db.orders && db.orders[o].status == PendingPayment
  }

  predicate PaymentOf(db: Db, ref: PaymentRef, o: OrderId) {
    ref in db.payments && db.payments[ref].order == o
  }

  predicate Matches(amount: int, currency: Currency, payment: Payment) {
    amount == payment.amount && currency == payment.currency
  }

  function SetPayment(db: Db, ref: PaymentRef, status: PaymentStatus): Db
    requires ref in db.payments
  {
    db.(payments := db.payments[ref := db.payments[ref].(status := status)])
  }

  function SetOrder(db: Db, o: OrderId, status: OrderStatus): Db
    requires o in db.orders
  {
    db.(orders := db.orders[o := db.orders[o].(status := status)])
  }

  /** The order turns PAID and its reservation is committed; without an ACTIVE reservation the transaction aborts. */
  function PayPending(db: Db, o: OrderId, ref: PaymentRef): Db
    requires IsPending(db, o) && ref in db.payments
  {
    if IsActive(db.ledger, o)
    then SetPayment(db.(orders := db.orders[o := db.orders[o].(status := Paid, paymentRef := ref)],
                        ledger := Post(db.ledger, Commit(o))), ref, Success)
    else db
  }

  /** Webhook and reconciliation: an order that is no longer pending only gets its payment marked. */
  function Pay(db: Db, o: OrderId, ref: PaymentRef): Db
    requires ref in db.payments
  {
    if IsPending(db, o) then PayPending(db, o, ref) else SetPayment(db, ref, Success)
  }

  /** Verification: commits the reservation whether or not the order was still pending. */
  function PayUnchecked(db: Db, o: OrderId, ref: PaymentRef): Db
    requires ref in db.payments
  {
    if IsPending(db, o) then PayPending(db, o, ref)
    else if IsActive(db.ledger, o) then SetPayment(db.(ledger := Post(db.ledger, Commit(o))), ref, Success)
    else db
  }

  /** The order leaves PENDING_PAYMENT unpaid and its reservation is released. */
  function Fail(db: Db, o: OrderId, status: OrderStatus): Db {
    if IsPending(db, o) then SetOrder(db.(ledger := Post(db.ledger, Release(o))), o, status) else db
  }

  function SettleEvent(db: Db, event: Event): Db {
    if event.ref !in db.payments then MarkEvent(db, event.key, Ignored)
    else
      var payment := db.payments[event.ref];
      match event.kind
      case ChargeSuccess =>
        if !Matches(event.amount, event.currency, payment) then MarkEvent(db, event.key, EventFailed)
        else if IsPending(db, payment.order) && !IsActive(db.ledger, payment.order) then db
        else MarkEvent(Pay(db, payment.order, event.ref), event.key, Processed)
      case ChargeFailed =>
        MarkEvent(SetPayment(Fail(db, payment.order, PaymentFailed), event.ref, Failed), event.key, Processed)
      case OtherEvent => MarkEvent(db, event.key, Ignored)
  }

  function MarkEvent(db: Db, key: EventKey, status: EventStatus): Db {
    db.(events := db.events[key := status])
  }

  function ApplyReport(db: Db, o: OrderId, ref: PaymentRef, report: Report, now: Time): Db
    requires PaymentOf(db, ref, o) && o in db.orders
  {
    match report.status
    case GatewaySuccess => if Matches(report.amount, report.currency, db.payments[ref]) then Pay(db, o, ref) else db
    case GatewayFailed => SetPayment(Fail(db, o, PaymentFailed), ref, Failed)
    case GatewayPending =>
      if db.orders[o].expiresAt < now then SetPayment(Fail(db, o, OrderExpired), ref, Abandoned) else db
  }

  function CompensateOrder(db: Db, o: OrderId, ref: PaymentRef): Db {
    var failed := Fail(db, o, PaymentFailed);
    if PaymentOf(db, ref, o) && db.payments[ref].status == Initiated then SetPayment(failed, ref, Failed) else failed
  }

  function Apply(db: Db, step: ShopStep): Db {
    match step
    case Checkout(req) => if Decide(db, req) == Accepted then CreateOrder(db, req) else db
    case MarkCancelled(o) =>
      if IsPending(db, o) then SetOrder(db, o, Cancelled).(cancelling := db.cancelling + {o}) else db
    case FinishCancel(o) =>
      if o in db.cancelling
      then db.(ledger := Post(db.ledger, Release(o)), cancelling := db.cancelling - {o})
      else db
    case DropCancel(o) => db.(cancelling := db.cancelling - {o})
    case ReceiveWebhook(event) =>
      if event.key in db.events then db
      else MarkEvent(db, event.key, Received).(handling := db.handling[event.key := event])
    case SettleWebhook(key) =>
      if key in db.handling then SettleEvent(db, db.handling[key]).(handling := db.handling - {key}) else db
    case DropWebhook(key) => db.(handling := db.handling - {key})
    case Reconcile(o, ref, report, now) =>
      if PaymentOf(db, ref, o) && o in db.orders then ApplyReport(db, o, ref, report, now) else db
    case Verify(o, ref, report) =>
      if PaymentOf(db, ref, o) && report.status == GatewaySuccess
         && Matches(report.amount, report.currency, db.payments[ref])
      then PayUnchecked(db, o, ref) else db
    case Compensate(o, ref) => CompensateOrder(db, o, ref)
    case SweepOne(o, now) => db.(ledger := Post(db.ledger, ExpireSwept(o, now)))
    case ExpireReservation(o, now) => db.(ledger := Post(db.ledger, ExpireOne(o, now)))
    case SetStock(p, onHand) => db.(ledger := Post(db.ledger, Restock(p, onHand)))
  }

  function Run(db: Db, steps: seq<ShopStep>): Db
    decreases |steps|
  {
    if steps == [] then db else Run(Apply(db, steps[0]), steps[1..])
  }

  lemma RunFirst(db: Db, steps: seq<ShopStep>, first: ShopStep, rest: seq<ShopStep>, next: Db)
    requires steps == [first] + rest && next == Apply(db, first)
    ensures Run(db, steps) == Run(next, rest)
  {
    assert steps[1..] == rest;
  }

  lemma RunFirstOfBoth(
      db: Db, first: ShopStep, a: seq<ShopStep>, restOfA: seq<ShopStep>, b: seq<ShopStep>, restOfB: seq<ShopStep>)
    returns (next: Db)
    requires a == [first] + restOfA && b == [first] + restOfB
    ensures Run(db, a) == Run(next, restOfA) && Run(db, b) == Run(next, restOfB)
  {
    next := Apply(db, first);
    RunFirst(db, a, first, restOfA, next);
    RunFirst(db, b, first, restOfB, next);
  }

  lemma {:induction false} RunConcat(db: Db, a: seq<ShopStep>, b: seq<ShopStep>)
    ensures Run(db, a + b) == Run(Run(db, a), b)
    decreases |a|
  {
    if a == [] {
      assert [] + b == b;
    } else {
      var first, rest := a[0], a[1..];
      assert a == [first] + rest && a + b == [first] + (rest + b);
      var next := RunFirstOfBoth(db, first, a, rest, a + b, rest + b);
      RunConcat(next, rest, b);
    }
  }

  function FreshShop(inventory: map<ProductId, Stock>): Db {
    Db(State(inventory, map[]), map[], map[], [], map[], {}, map[])
  }
}
