/**
 What each path of a payment does, in full: to the order, its reservation and the stock, its payment and the event.
 */
module Settlement {
  import opened Domain
  import opened Ledger
  import opened Cart
  import opened Shop
  import opened ShopInvariants
  import opened PaymentTheorems

  // ---------- the two ends of a pending order ----------

  /** The order is PAID under the reference, its reservation is COMMITTED, and its units have left the stock. */
  ghost predicate PaidSo(db: Db, o: OrderId, ref: PaymentRef, t: Db)
    requires IsPending(db, o) && IsActive(db.ledger, o)
  {
    var r := db.ledger.reservations[o];
    t.orders == db.orders[o := db.orders[o].(status := Paid, paymentRef := ref)]
    && t.ledger.reservations == db.ledger.reservations[o := r.(status := Committed)]
    && t.ledger.inventory.Keys == db.ledger.inventory.Keys
    && forall p | p in t.ledger.inventory ::
         t.ledger.inventory[p].onHand == db.ledger.inventory[p].onHand - QtyOf(r.items, p)
         && t.ledger.inventory[p].reserved == db.ledger.inventory[p].reserved - QtyOf(r.items, p)
  }

  /** The order has the status, and its hold, if it was still ACTIVE, is RELEASED and its units are free again. */
  ghost predicate FailedSo(db: Db, o: OrderId, status: OrderStatus, t: Db)
    requires IsPending(db, o)
  {
    t.orders == db.orders[o := db.orders[o].(status := status)]
    && (!IsActive(db.ledger, o) ==> t.ledger == db.ledger)
    && (IsActive(db.ledger, o) ==>
          var r := db.ledger.reservations[o];
          t.ledger.reservations == db.ledger.reservations[o := r.(status := Released)]
          && t.ledger.inventory.Keys == db.ledger.inventory.Keys
          && forall p | p in t.ledger.inventory ::
               t.ledger.inventory[p].onHand == db.ledger.inventory[p].onHand
               && t.ledger.inventory[p].reserved == db.ledger.inventory[p].reserved - QtyOf(r.items, p))
  }

  /** Only the payment's status has changed, and the event's. */
  predicate PaymentIs(db: Db, ref: PaymentRef, status: PaymentStatus, t: Db)
    requires ref in db.payments
  {
    t.payments == db.payments[ref := Payment(db.payments[ref].order, status, db.payments[ref].amount, db.payments[ref].currency)]
  }

  predicate OrdersAndStockKept(db: Db, t: Db) {
    t.orders == db.orders && t.ledger == db.ledger
  }

  lemma PayMeans(db: Db, o: OrderId, ref: PaymentRef)
    requires ref in db.payments
    ensures var t := Pay(db, o, ref);
            if !IsPending(db, o) then OrdersAndStockKept(db, t) && PaymentIs(db, ref, Success, t)
            else if IsActive(db.ledger, o) then PaidSo(db, o, ref, t) && PaymentIs(db, ref, Success, t)
            else t == db
  {
  }

  lemma FailMeans(db: Db, o: OrderId, status: OrderStatus)
    ensures var t := Fail(db, o, status);
            (if IsPending(db, o) then FailedSo(db, o, status, t) else OrdersAndStockKept(db, t))
            && t.payments == db.payments
  {
  }

  // ---------- webhooks ----------

  /** A success whose amount or currency is not that of the payment is flagged, and changes nothing else. A true one pays a
      pending order with an ACTIVE hold, is rolled back without one, and only marks the payment of a decided order. */
  lemma SuccessEventMeans(db: Db, event: Event)
    requires event.kind == ChargeSuccess && event.ref in db.payments
    ensures var t, p := SettleEvent(db, event), db.payments[event.ref];
            if event.amount != p.amount || event.currency != p.currency then
              t == db.(events := db.events[event.key := EventFailed])
            else if IsPending(db, p.order) && !IsActive(db.ledger, p.order) then t == db
            else
              t.events == db.events[event.key := Processed] && PaymentIs(db, event.ref, Success, t)
              && if IsPending(db, p.order) then PaidSo(db, p.order, event.ref, t) else OrdersAndStockKept(db, t)
  {
    PayMeans(db, db.payments[event.ref].order, event.ref);
  }

  /** A failure marks the payment, and fails the order if it is pending. Any other event, and one of an unknown payment, is
      ignored. */
  lemma OtherEventsMean(db: Db, event: Event)
    ensures var t := SettleEvent(db, event);
            if event.ref !in db.payments || event.kind == OtherEvent then
              t == db.(events := db.events[event.key := Ignored])
            else if event.kind == ChargeFailed then
              var o := db.payments[event.ref].order;
              t.events == db.events[event.key := Processed] && PaymentIs(db, event.ref, Failed, t)
              && if IsPending(db, o) then FailedSo(db, o, PaymentFailed, t) else OrdersAndStockKept(db, t)
            else true
  {
    if event.ref in db.payments {
      FailMeans(db, db.payments[event.ref].order, PaymentFailed);
    }
  }

  // ---------- the other three paths ----------

  /** Reconciliation pays on a true success; fails on a failure; and on no answer yet expires an order past its term. A false
      success, or no answer in time, changes nothing. */
  lemma ReportMeans(db: Db, o: OrderId, ref: PaymentRef, report: Report, now: Time)
    requires ref in db.payments && db.payments[ref].order == o && o in db.orders
    ensures var t := Apply(db, Reconcile(o, ref, report, now));
            t.events == db.events
            && match report.status
               case GatewaySuccess =>
                 if report.amount != db.payments[ref].amount || report.currency != db.payments[ref].currency then t == db
                 else if IsPending(db, o) && !IsActive(db.ledger, o) then t == db
                 else
                   PaymentIs(db, ref, Success, t)
                   && if IsPending(db, o) then PaidSo(db, o, ref, t) else OrdersAndStockKept(db, t)
               case GatewayFailed =>
                 PaymentIs(db, ref, Failed, t)
                 && if IsPending(db, o) then FailedSo(db, o, PaymentFailed, t) else OrdersAndStockKept(db, t)
               case GatewayPending =>
                 if db.orders[o].expiresAt >= now then t == db
                 else
                   PaymentIs(db, ref, Abandoned, t)
                   && if IsPending(db, o) then FailedSo(db, o, OrderExpired, t) else OrdersAndStockKept(db, t)
  {
    PayMeans(db, o, ref);
    FailMeans(db, o, PaymentFailed);
    FailMeans(db, o, OrderExpired);
  }

  /** Verification acts on a true success only, and only while the hold is ACTIVE; it then commits the hold even of an order
      that is not pending any more. */
  lemma VerifyMeans(db: Db, o: OrderId, ref: PaymentRef, report: Report)
    ensures var t := Apply(db, Verify(o, ref, report));
            if ref in db.payments && db.payments[ref].order == o && report.status == GatewaySuccess
               && report.amount == db.payments[ref].amount && report.currency == db.payments[ref].currency
               && IsActive(db.ledger, o)
            then
              PaymentIs(db, ref, Success, t)
              && if IsPending(db, o) then PaidSo(db, o, ref, t)
                 else t.orders == db.orders && t.ledger.reservations[o].status == Committed
            else t == db
  {
  }

  /** Compensation fails the order if it is pending, and its payment if that is still INITIATED. */
  lemma CompensationMeans(db: Db, o: OrderId, ref: PaymentRef)
    ensures var t := Apply(db, Compensate(o, ref));
            (if IsPending(db, o) then FailedSo(db, o, PaymentFailed, t) else OrdersAndStockKept(db, t))
            && if ref in db.payments && db.payments[ref].order == o && db.payments[ref].status == Initiated
               then PaymentIs(db, ref, Failed, t) else t.payments == db.payments
  {
    FailMeans(db, o, PaymentFailed);
  }
}
