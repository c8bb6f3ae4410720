/**
 What a checkout is accepted for, and what it then writes, in terms of the cart, the catalog and the stock.
 */
module CheckoutTheorems {
  import opened Domain
  import opened Ledger
  import opened Reservations
  import opened Cart
  import opened Shop
  import opened ShopInvariants
  import opened PaymentTheorems

  // ---------- when a checkout is accepted ----------

  predicate AllBuyable(req: Request) {
    forall item | item in req.items :: Buyable(item.product, req.catalog, req.levels)
  }

  function CostOfCart(req: Request): int {
    CostOf(req.items, req.catalog, req.levels)
  }

  /** Units of p over all items of the cart. */
  function AskedOf(items: seq<CartItem>, p: ProductId): int {
    if items == [] then 0 else (if items[0].product == p then items[0].qty else 0) + AskedOf(items[1..], p)
  }

  /** There is enough of everything for all of the cart. */
  predicate Covers(inventory: map<ProductId, Stock>, items: seq<CartItem>) {
    forall item | item in items ::
      item.qty >= 1 && item.product in inventory
      && inventory[item.product].reserved + AskedOf(items, item.product) <= inventory[item.product].onHand
  }

  predicate FreshIds(db: Db, req: Request) {
    req.order !in db.orders && req.order !in db.ledger.reservations && req.ref !in db.payments
    && forall o | o in db.orders :: db.orders[o].paymentRef != req.ref
  }

  lemma CartLines(req: Request)
    ensures |CartOf(req).items| == |req.items| && CartOf(req).subtotal == CostOfCart(req)
    ensures forall i | 0 <= i < |req.items| :: PricedSo(req.items[i], CartOf(req).items[i], req.catalog, req.levels)
  {
    LinesPricedSo(req.items, req.catalog, req.levels);
    CartTotals(req.items, req.catalog, req.levels);
  }

  lemma BarredIffNotBuyable(req: Request)
    ensures (exists item | item in CartOf(req).items :: Barred(item)) <==> !AllBuyable(req)
  {
    CartLines(req);
    var live := CartOf(req).items;
    forall i | 0 <= i < |live| ensures Barred(live[i]) <==> !Buyable(req.items[i].product, req.catalog, req.levels) {
      assert PricedSo(req.items[i], live[i], req.catalog, req.levels);
    }
    if item :| item in live && Barred(item) {
      var i :| 0 <= i < |live| && live[i] == item;
      assert req.items[i] in req.items;
    }
    if !AllBuyable(req) {
      var item :| item in req.items && !Buyable(item.product, req.catalog, req.levels);
      var i :| 0 <= i < |live| && req.items[i] == item;
      assert live[i] in live && Barred(live[i]);
    }
  }

  lemma {:induction false} QtyIsAsked(items: seq<CartItem>, catalog: map<ProductId, Product>, levels: map<ProductId, StockLevel>,
                                      p: ProductId)
    ensures QtyOf(ItemsOf(LinesOf(PriceItems(items, catalog, levels))), p) == AskedOf(items, p)
    decreases |items|
  {
    if items != [] {
      var live := PriceItems(items, catalog, levels);
      QtyIsAsked(items[1..], catalog, levels, p);
      ItemPricedSo(items[0], catalog, levels);
      assert live[1..] == PriceItems(items[1..], catalog, levels);
      assert LinesOf(live)[1..] == LinesOf(live[1..]);
      assert ItemsOf(LinesOf(live))[1..] == ItemsOf(LinesOf(live[1..]));
    }
  }

  lemma ReservableIffCovered(inventory: map<ProductId, Stock>, req: Request)
    requires req.items != []
    ensures Reservable(inventory, ItemsOf(LinesOf(CartOf(req).items))) <==> Covers(inventory, req.items)
  {
    var items := ItemsOf(LinesOf(CartOf(req).items));
    CartLines(req);
    ItemsOfLines(CartOf(req).items);
    forall p: ProductId ensures QtyOf(items, p) == AskedOf(req.items, p) {
      QtyIsAsked(req.items, req.catalog, req.levels, p);
    }
    forall i | 0 <= i < |items| ensures items[i] == Item(req.items[i].product, req.items[i].qty) {
      assert PricedSo(req.items[i], CartOf(req).items[i], req.catalog, req.levels);
    }
    SameLinesFit(inventory, items, req.items);
  }

  lemma SameLinesFit(inventory: map<ProductId, Stock>, items: seq<Item>, asked: seq<CartItem>)
    requires |items| == |asked| > 0 && forall i | 0 <= i < |items| :: items[i] == Item(asked[i].product, asked[i].qty)
    requires forall p: ProductId :: QtyOf(items, p) == AskedOf(asked, p)
    ensures Reservable(inventory, items) <==> Covers(inventory, asked)
  {
    if Reservable(inventory, items) {
      forall item | item in asked
        ensures item.qty >= 1 && item.product in inventory
                && inventory[item.product].reserved + AskedOf(asked, item.product) <= inventory[item.product].onHand
      {
        var i :| 0 <= i < |asked| && asked[i] == item;
        assert items[i] in items && Fits(inventory, items, items[i].product);
      }
    }
    if Covers(inventory, asked) {
      forall item | item in items ensures item.qty >= 1 && Fits(inventory, items, item.product) {
        var i :| 0 <= i < |items| && items[i] == item;
        assert asked[i] in asked;
      }
    }
  }

  /** Before any transaction a checkout is refused for its cart in exactly these cases: there is nothing in it; something in
      it cannot be bought; or what it costs by now is not what the customer confirmed. */
  lemma CartRefusals(db: Db, req: Request)
    ensures Decide(db, req) == EmptyCart <==> req.items == []
    ensures Decide(db, req) == UnavailableItems <==> req.items != [] && !AllBuyable(req)
    ensures Decide(db, req) == PriceChanged <==> req.items != [] && AllBuyable(req) && req.expectedTotal != CostOfCart(req)
  {
    CartLines(req);
    BarredIffNotBuyable(req);
  }

  /** A checkout is accepted exactly for a cart that can be bought, at the total confirmed for it, on a free key, with enough
      stock not on hold for all of the cart together, and under ids that are not in use. */
  lemma AcceptedIff(db: Db, req: Request)
    ensures Decide(db, req) == Accepted
            <==> req.items != [] && AllBuyable(req) && req.expectedTotal == CostOfCart(req)
                 && !(exists o | o in db.orders :: db.orders[o].user == req.user && db.orders[o].key == req.key)
                 && Covers(db.ledger.inventory, req.items) && FreshIds(db, req)
  {
    CartLines(req);
    BarredIffNotBuyable(req);
    if req.items != [] {
      ReservableIffCovered(db.ledger.inventory, req);
    }
  }

  /** Once the cart stands, the transaction finds the order of the key if there is one; otherwise it fails for want of stock,
      or because an id it drew is in use, in that order. */
  lemma TransactionRefusals(db: Db, req: Request)
    requires req.items != [] && AllBuyable(req) && req.expectedTotal == CostOfCart(req)
    ensures var taken := exists o | o in db.orders :: db.orders[o].user == req.user && db.orders[o].key == req.key;
            (Decide(db, req) == AlreadyOrdered <==> taken)
            && (Decide(db, req) == NotReservable <==> !taken && !Covers(db.ledger.inventory, req.items))
            && (Decide(db, req) == DuplicateId <==> !taken && Covers(db.ledger.inventory, req.items) && !FreshIds(db, req))
  {
    CartLines(req);
    BarredIffNotBuyable(req);
    ReservableIffCovered(db.ledger.inventory, req);
  }

  // ---------- what is then written ----------

  /** The order is what was asked for, at the prices of the catalog and at the total confirmed. */
  ghost predicate OrderedSo(req: Request, o: OrderId, order: Order) {
    req.order == o && order.user == req.user && order.key == req.key
    && order.grandTotal == req.expectedTotal && order.currency == req.currency
    && order.expiresAt == req.expiresAt && order.createdAt == req.createdAt
    && |order.lines| == |req.items|
    && forall i | 0 <= i < |req.items| ::
         order.lines[i].product == req.items[i].product && order.lines[i].qty == req.items[i].qty
         && order.lines[i].unitPrice == PriceOf(req.items[i].product, req.catalog)
         && order.lines[i].total == UnitsCharged(req.items[i], req.catalog, req.levels) * order.lines[i].unitPrice
  }

  lemma AcceptedIsOrderedSo(db: Db, req: Request)
    requires Decide(db, req) == Accepted
    ensures OrderedSo(req, req.order, NewOrder(req)) && NewOrder(req).status == PendingPayment
    ensures NewOrder(req).grandTotal == req.expectedTotal
  {
    CartLines(req);
    ItemsOfLines(CartOf(req).items);
    forall i | 0 <= i < |req.items| ensures PricedSo(req.items[i], CartOf(req).items[i], req.catalog, req.levels) {
    }
  }

  /** One more order, pending, as it was asked for; its payment, initiated, for the total confirmed; and the two outbox
      events. No other order, payment or event changes. */
  ghost predicate AddsAsConfirmed(db: Db, req: Request, db': Db) {
    req.order in db'.orders && OrderedSo(req, req.order, db'.orders[req.order])
    && db'.orders == db.orders[req.order := db'.orders[req.order]]
    && db'.orders[req.order].status == PendingPayment && db'.orders[req.order].paymentRef == req.ref
    && db'.payments == db.payments[req.ref := Payment(req.order, Initiated, req.expectedTotal, req.currency)]
    && db'.outbox == db.outbox + [InitiatePayment(req.order, req.ref, req.expectedTotal, req.currency), ClearCart(req.user)]
  }

  lemma AcceptedAddsAsConfirmed(db: Db, req: Request)
    ensures Decide(db, req) == Accepted ==> AddsAsConfirmed(db, req, Apply(db, Checkout(req)))
  {
    if Decide(db, req) == Accepted {
      AcceptedIsOrderedSo(db, req);
    }
  }

  lemma TermsAreAskedFor(req: Request, o: OrderId, a: Order, b: Order)
    requires Terms(a) == Terms(b) && OrderedSo(req, o, a)
    ensures OrderedSo(req, o, b)
  {
    assert Terms(a).lines == a.lines && Terms(b).lines == b.lines;
  }

  lemma PlacedByAccepted(db: Db, step: ShopStep, o: OrderId)
    requires o !in db.orders && o in Apply(db, step).orders
    ensures step.Checkout? && OrderedSo(step.req, o, Apply(db, step).orders[o])
  {
    StepIsChange(db, step);
    var c := ChangeOf(db, step);
    OnlyPlacedPlaces(db, c, Apply(db, step), o);
    AcceptedIsOrderedSo(db, c.req);
  }

  lemma OnlyPlacedPlaces(db: Db, c: Change, db': Db, o: OrderId)
    requires Changes(db, c, db') && o !in db.orders && o in db'.orders
    ensures c.Placed? && c.req.order == o && db'.orders[o] == NewOrder(c.req) && Decide(db, c.req) == Accepted
  {
  }

  /** Every order that a run places is what some checkout of the run asked for, at the total that its customer confirmed,
      and stays so. */
  lemma {:induction false} PlacedAsConfirmed(db: Db, steps: seq<ShopStep>, o: OrderId)
    requires o !in db.orders && o in Run(db, steps).orders
    ensures exists step | step in steps :: step.Checkout? && OrderedSo(step.req, o, Run(db, steps).orders[o])
    decreases |steps|
  {
    var next := Apply(db, steps[0]);
    if o in next.orders {
      PlacedByAccepted(db, steps[0], o);
      DecidedForGood(next, steps[1..], o);
      TermsAreAskedFor(steps[0].req, o, next.orders[o], Run(next, steps[1..]).orders[o]);
      assert steps[0] in steps;
    } else {
      PlacedAsConfirmed(next, steps[1..], o);
      var step :| step in steps[1..] && step.Checkout? && OrderedSo(step.req, o, Run(db, steps).orders[o]);
      assert step in steps;
    }
  }

  // ---------- the initiation of an order's payment ----------

  /** For every order the outbox holds the initiation of exactly its payment. */
  ghost predicate InitiatesPayments(db: Db) {
    forall o | o in db.orders ::
      InitiatePayment(o, db.orders[o].paymentRef, db.orders[o].grandTotal, db.orders[o].currency) in db.outbox
  }

  lemma ChangeKeepsInitiations(db: Db, c: Change, db': Db)
    requires Money(db) && InitiatesPayments(db) && Changes(db, c, db')
    ensures InitiatesPayments(db')
  {
    if c.Placed? {
      PlacingAddsOrder(db, c.req, db');
      assert OutboxPair(c.req)[0] in OutboxPair(c.req);
    } else {
      ChangeKeepsPaymentRefs(db, c, db');
      forall o | o in db'.orders
        ensures InitiatePayment(o, db'.orders[o].paymentRef, db'.orders[o].grandTotal, db'.orders[o].currency) in db'.outbox
      {
        assert Terms(db'.orders[o]) == Terms(db.orders[o]);
      }
    }
  }

  /** Along every run, an order's payment is initiated with the reference, the amount and the currency of its payment record
      (and only once, see OneOfEach). */
  lemma {:induction false} PaymentsAreInitiated(db: Db, steps: seq<ShopStep>)
    requires Table(db) && Money(db) && InitiatesPayments(db)
    ensures InitiatesPayments(Run(db, steps))
    decreases |steps|
  {
    if steps != [] {
      StepIsChange(db, steps[0]);
      ChangeKeepsInitiations(db, ChangeOf(db, steps[0]), Apply(db, steps[0]));
      StepKeepsMoney(db, steps[0]);
      PaymentsAreInitiated(Apply(db, steps[0]), steps[1..]);
    }
  }
}
