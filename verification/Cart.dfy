/**
 The live view of a cart: every line re-priced from the catalog and cut to the stock that is available.
 */
module Cart {
  import opened Domain
  import opened Reservations

  datatype CartItem = CartItem(product: ProductId, qty: int)

  datatype Product = Product(price: nat, currency: Currency, isAvailable: bool, archived: bool)

  datatype Warning = Unavailable | OutOfStock | QuantityReduced

  datatype CartWarning = CartWarning(product: ProductId, warning: Warning)

  datatype LiveItem = LiveItem(
    product: ProductId, price: nat, currency: Currency, qty: int,
    effectiveQty: int, availableStock: int, subtotal: int, warnings: seq<Warning>)

  datatype LiveCart = LiveCart(
    items: seq<LiveItem>, subtotal: int, currency: Currency, itemCount: int, warnings: seq<CartWarning>)

  // The currency shown for carts that no available product gives a currency to
  const DEFAULT_CURRENCY: Currency := 0

  function StockAvailable(levels: map<ProductId, StockLevel>, p: ProductId): int {
    if p in levels then levels[p].available else 0
  }

  predicate Sellable(catalog: map<ProductId, Product>, p: ProductId) {
    p in catalog && catalog[p].isAvailable && !catalog[p].archived
  }

  function PriceItem(item: CartItem, catalog: map<ProductId, Product>, levels: map<ProductId, StockLevel>): LiveItem {
    var p := item.product;
    if !Sellable(catalog, p) then
      LiveItem(p, if p in catalog then catalog[p].price else 0,
               if p in catalog then catalog[p].currency else DEFAULT_CURRENCY, item.qty, 0, 0, 0, [Unavailable])
    else
      var product := catalog[p];
      var stock := StockAvailable(levels, p);
      var (effective, warnings) :=
        if stock <= 0 then (0, [OutOfStock])
        else if stock < item.qty then (stock, [QuantityReduced])
        else (item.qty, []);
      LiveItem(p, product.price, product.currency, item.qty, effective, stock, effective * product.price, warnings)
  }

  function PriceItems(items: seq<CartItem>, catalog: map<ProductId, Product>, levels: map<ProductId, StockLevel>)
    : (r: seq<LiveItem>)
    ensures |r| == |items| && forall i | 0 <= i < |r| :: r[i] == PriceItem(items[i], catalog, levels)
  {
    if items == [] then []
    else [PriceItem(items[0], catalog, levels)] + PriceItems(items[1..], catalog, levels)
  }

  function SumSubtotals(items: seq<LiveItem>): int {
    if items == [] then 0 else items[0].subtotal + SumSubtotals(items[1..])
  }

  function SumQty(items: seq<LiveItem>): int {
    if items == [] then 0 else items[0].qty + SumQty(items[1..])
  }

  // A line carries at most one warning.
  function OwnWarning(item: LiveItem): seq<CartWarning> {
    if item.warnings == [] then [] else [CartWarning(item.product, item.warnings[0])]
  }

  function CollectWarnings(items: seq<LiveItem>): seq<CartWarning> {
    if items == [] then [] else OwnWarning(items[0]) + CollectWarnings(items[1..])
  }

  /** The currency of the last sellable line. */
  function CurrencyOf(items: seq<LiveItem>): Currency {
    if items == [] then DEFAULT_CURRENCY
    else if Unavailable in items[|items|-1].warnings then CurrencyOf(items[..|items|-1])
    else items[|items|-1].currency
  }

  lemma SumsAppend(items: seq<LiveItem>, item: LiveItem)
    ensures SumSubtotals(items + [item]) == SumSubtotals(items) + item.subtotal
    ensures SumQty(items + [item]) == SumQty(items) + item.qty
  {
    if items == [] {
      assert [] + [item] == [item];
    } else {
      SumsAppend(items[1..], item);
      assert (items + [item])[1..] == items[1..] + [item];
    }
  }

  lemma WarningsAppend(items: seq<LiveItem>, item: LiveItem)
    ensures CollectWarnings(items + [item]) == CollectWarnings(items) + OwnWarning(item)
  {
    if items == [] {
      assert [] + [item] == [item];
    } else {
      WarningsAppend(items[1..], item);
      assert (items + [item])[1..] == items[1..] + [item];
    }
  }

  function Totalled(live: seq<LiveItem>): LiveCart {
    LiveCart(live, SumSubtotals(live), CurrencyOf(live), SumQty(live), CollectWarnings(live))
  }

  /** What one more line adds to each accumulator of the pricing loop. */
  lemma NextLine(items: seq<LiveItem>, item: LiveItem, all: seq<LiveItem>, i: nat)
    requires i < |all| && items == all[..i] && item == all[i]
    ensures all[..i+1] == items + [item]
    ensures Totalled(items + [item])
         == LiveCart(items + [item], SumSubtotals(items) + item.subtotal,
                     if Unavailable in item.warnings then CurrencyOf(items) else item.currency,
                     SumQty(items) + item.qty, CollectWarnings(items) + OwnWarning(item))
  {
    SumsAppend(items, item);
    WarningsAppend(items, item);
    assert (items + [item])[..|items|] == items;
  }

  function LiveCartOf(items: seq<CartItem>, catalog: map<ProductId, Product>, levels: map<ProductId, StockLevel>): LiveCart {
    Totalled(PriceItems(items, catalog, levels))
  }

  /** What can be bought: a product on sale with some stock. */
  predicate Buyable(p: ProductId, catalog: map<ProductId, Product>, levels: map<ProductId, StockLevel>) {
    p in catalog && catalog[p].isAvailable && !catalog[p].archived && p in levels && levels[p].available > 0
  }

  /** The units charged of a line: what is asked for, as far as the stock goes. */
  function UnitsCharged(item: CartItem, catalog: map<ProductId, Product>, levels: map<ProductId, StockLevel>): int {
    if !Buyable(item.product, catalog, levels) then 0
    else if item.qty <= levels[item.product].available then item.qty
    else levels[item.product].available
  }

  function PriceOf(p: ProductId, catalog: map<ProductId, Product>): int {
    if p in catalog then catalog[p].price else 0
  }

  /** What the line of a live cart says of a cart item. */
  predicate PricedSo(item: CartItem, live: LiveItem, catalog: map<ProductId, Product>, levels: map<ProductId, StockLevel>) {
    live.product == item.product && live.qty == item.qty
    && live.price == PriceOf(item.product, catalog)
    && live.effectiveQty == UnitsCharged(item, catalog, levels)
    && live.subtotal == live.effectiveQty * live.price
    && (Unavailable in live.warnings <==>
          !(item.product in catalog && catalog[item.product].isAvailable && !catalog[item.product].archived))
    && (OutOfStock in live.warnings <==> Unavailable !in live.warnings && !Buyable(item.product, catalog, levels))
    && (QuantityReduced in live.warnings <==>
          Buyable(item.product, catalog, levels) && levels[item.product].available < item.qty)
    && |live.warnings| <= 1
  }

  lemma ItemPricedSo(item: CartItem, catalog: map<ProductId, Product>, levels: map<ProductId, StockLevel>)
    ensures PricedSo(item, PriceItem(item, catalog, levels), catalog, levels)
  {
  }

  /** What the items of a cart cost together. */
  function CostOf(items: seq<CartItem>, catalog: map<ProductId, Product>, levels: map<ProductId, StockLevel>): int {
    if items == [] then 0
    else
      UnitsCharged(items[0], catalog, levels) * PriceOf(items[0].product, catalog) + CostOf(items[1..], catalog, levels)
  }

  function UnitsAsked(items: seq<CartItem>): int {
    if items == [] then 0 else items[0].qty + UnitsAsked(items[1..])
  }

  lemma {:induction false} CartTotals(items: seq<CartItem>, catalog: map<ProductId, Product>, levels: map<ProductId, StockLevel>)
    ensures SumSubtotals(PriceItems(items, catalog, levels)) == CostOf(items, catalog, levels)
    ensures SumQty(PriceItems(items, catalog, levels)) == UnitsAsked(items)
    decreases |items|
  {
    if items != [] {
      CartTotals(items[1..], catalog, levels);
      ItemPricedSo(items[0], catalog, levels);
      assert PriceItems(items, catalog, levels)[1..] == PriceItems(items[1..], catalog, levels);
    }
  }

  ghost predicate LastOnSale(items: seq<CartItem>, catalog: map<ProductId, Product>, i: nat) {
    i < |items| && Sellable(catalog, items[i].product) && forall j | i < j < |items| :: !Sellable(catalog, items[j].product)
  }

  lemma LastOfFront(items: seq<CartItem>, catalog: map<ProductId, Product>, front: seq<CartItem>, n: nat)
    requires |items| == n + 1 && front == items[..n] && !Sellable(catalog, items[n].product)
    ensures forall i: nat :: LastOnSale(front, catalog, i) ==> LastOnSale(items, catalog, i) && front[i] == items[i]
    ensures (forall i | 0 <= i < n :: !Sellable(catalog, front[i].product))
            ==> forall i | 0 <= i < |items| :: !Sellable(catalog, items[i].product)
  {
    forall i: nat | LastOnSale(front, catalog, i) ensures LastOnSale(items, catalog, i) && front[i] == items[i] {
      forall j | i < j < |items| ensures !Sellable(catalog, items[j].product) {
        assert j < n ==> front[j] == items[j];
      }
    }
    if forall i | 0 <= i < n :: !Sellable(catalog, front[i].product) {
      forall i | 0 <= i < |items| ensures !Sellable(catalog, items[i].product) {
        assert i < n ==> front[i] == items[i];
      }
    }
  }

  /** The currency of a cart is that of its last product on sale. */
  lemma {:induction false} CartCurrency(items: seq<CartItem>, catalog: map<ProductId, Product>, live: seq<LiveItem>)
    requires |live| == |items| && forall i | 0 <= i < |items| :: LineOf(items[i], live[i], catalog)
    ensures (exists i: nat :: LastOnSale(items, catalog, i) && CurrencyOf(live) == catalog[items[i].product].currency)
            || (CurrencyOf(live) == DEFAULT_CURRENCY && forall i | 0 <= i < |items| :: !Sellable(catalog, items[i].product))
    decreases |items|
  {
    if items != [] {
      var n := |items| - 1;
      if Sellable(catalog, items[n].product) {
        assert LineOf(items[n], live[n], catalog) && LastOnSale(items, catalog, n);
      } else {
        assert LineOf(items[n], live[n], catalog);
        CartCurrency(items[..n], catalog, live[..n]);
        LastOfFront(items, catalog, items[..n], n);
      }
    }
  }

  /** The line is of the item, and its currency and bar are those of the product. */
  ghost predicate LineOf(item: CartItem, live: LiveItem, catalog: map<ProductId, Product>) {
    (Unavailable in live.warnings <==> !Sellable(catalog, item.product))
    && (Sellable(catalog, item.product) ==> live.currency == catalog[item.product].currency)
  }

  /** The cart's warnings are those of its lines. */
  lemma {:induction false} CartWarnings(items: seq<LiveItem>, w: CartWarning)
    requires forall item | item in items :: |item.warnings| <= 1
    ensures w in CollectWarnings(items) <==> exists item | item in items :: item.product == w.product && w.warning in item.warnings
    decreases |items|
  {
    if items != [] {
      assert items == [items[0]] + items[1..];
      CartWarnings(items[1..], w);
    }
  }

  /** One round of the pricing loop: the stock available decides the quantity that is charged. */
  method PriceCartItem(item: CartItem, catalog: map<ProductId, Product>, levels: map<ProductId, StockLevel>)
    returns (live: LiveItem)
    ensures live == PriceItem(item, catalog, levels)
    ensures PricedSo(item, live, catalog, levels)
  {
    var p := item.product;
    var availableStock := if p in levels then levels[p].available else 0;
    if p !in catalog || !catalog[p].isAvailable || catalog[p].archived {
      return LiveItem(p, if p in catalog then catalog[p].price else 0,
                      if p in catalog then catalog[p].currency else DEFAULT_CURRENCY,
                      item.qty, 0, 0, 0, [Unavailable]);
    }
    var product := catalog[p];
    var effectiveQty, itemWarnings: seq<Warning> := item.qty, [];
    if availableStock <= 0 {
      itemWarnings := [OutOfStock];
      effectiveQty := 0;
    } else if availableStock < item.qty {
      itemWarnings := [QuantityReduced];
      effectiveQty := availableStock;
    }
    live := LiveItem(p, product.price, product.currency, item.qty,
                     effectiveQty, availableStock, effectiveQty * product.price, itemWarnings);
  }

  method GetLiveCart(items: seq<CartItem>, catalog: map<ProductId, Product>, levels: map<ProductId, StockLevel>)
    returns (cart: LiveCart)
    ensures cart == LiveCartOf(items, catalog, levels)
  {
    var totalSubtotal, defaultCurrency, itemCount := 0, DEFAULT_CURRENCY, 0;
    var liveItems: seq<LiveItem>, globalWarnings: seq<CartWarning> := [], [];
    ghost var priced := PriceItems(items, catalog, levels);
    for i := 0 to |items|
      invariant liveItems == priced[..i]
      invariant LiveCart(liveItems, totalSubtotal, defaultCurrency, itemCount, globalWarnings) == Totalled(liveItems)
    {
      var live := PriceCartItem(items[i], catalog, levels);
      NextLine(liveItems, live, priced, i);
      globalWarnings := globalWarnings + OwnWarning(live);
      if Unavailable !in live.warnings {
        defaultCurrency := live.currency;
      }
      totalSubtotal := totalSubtotal + live.subtotal;
      itemCount := itemCount + live.qty;
      liveItems := liveItems + [live];
    }
    assert priced[..|items|] == priced;
    cart := LiveCart(liveItems, totalSubtotal, defaultCurrency, itemCount, globalWarnings);
  }

  lemma LinesPricedSo(items: seq<CartItem>, catalog: map<ProductId, Product>, levels: map<ProductId, StockLevel>)
    ensures var live := PriceItems(items, catalog, levels);
            |live| == |items|
            && forall i | 0 <= i < |items| :: PricedSo(items[i], live[i], catalog, levels) && LineOf(items[i], live[i], catalog)
  {
    forall i | 0 <= i < |items|
      ensures PricedSo(items[i], PriceItem(items[i], catalog, levels), catalog, levels)
              && LineOf(items[i], PriceItem(items[i], catalog, levels), catalog)
    {
      ItemPricedSo(items[i], catalog, levels);
    }
  }

  lemma PricedHasOneWarning(live: seq<LiveItem>, items: seq<CartItem>, catalog: map<ProductId, Product>, levels: map<ProductId, StockLevel>)
    requires |live| == |items| && forall i | 0 <= i < |items| :: PricedSo(items[i], live[i], catalog, levels)
    ensures forall item | item in live :: |item.warnings| <= 1
  {
    forall item | item in live ensures |item.warnings| <= 1 {
      var i :| 0 <= i < |live| && live[i] == item;
      assert PricedSo(items[i], live[i], catalog, levels);
    }
  }

  /** What the live cart says of the cart as it was stored: every line priced by catalog and stock, the cost and the number of
      units of all of them, and the warnings of the lines. */
  lemma LiveCartMeans(items: seq<CartItem>, catalog: map<ProductId, Product>, levels: map<ProductId, StockLevel>, w: CartWarning)
    ensures var cart := LiveCartOf(items, catalog, levels);
            |cart.items| == |items| && (forall i | 0 <= i < |items| :: PricedSo(items[i], cart.items[i], catalog, levels))
            && cart.subtotal == CostOf(items, catalog, levels) && cart.itemCount == UnitsAsked(items)
            && (w in cart.warnings <==> exists item | item in cart.items :: item.product == w.product && w.warning in item.warnings)
  {
    LinesPricedSo(items, catalog, levels);
    CartTotals(items, catalog, levels);
    PricedHasOneWarning(PriceItems(items, catalog, levels), items, catalog, levels);
    CartWarnings(PriceItems(items, catalog, levels), w);
  }

  /** ... and the currency it shows is that of its last product on sale. */
  lemma LiveCartCurrency(items: seq<CartItem>, catalog: map<ProductId, Product>, levels: map<ProductId, StockLevel>)
    ensures var currency := LiveCartOf(items, catalog, levels).currency;
            (exists i: nat :: LastOnSale(items, catalog, i) && currency == catalog[items[i].product].currency)
            || (currency == DEFAULT_CURRENCY && forall i | 0 <= i < |items| :: !Sellable(catalog, items[i].product))
  {
    LinesPricedSo(items, catalog, levels);
    CartCurrency(items, catalog, PriceItems(items, catalog, levels));
  }

  /** A line without a warning that bars checkout is charged in full exactly when its stock covered it (or it is free). */
  lemma ChargedInFull(item: CartItem, catalog: map<ProductId, Product>, levels: map<ProductId, StockLevel>)
    requires var live := PriceItem(item, catalog, levels);
             Unavailable !in live.warnings && OutOfStock !in live.warnings
    ensures var live := PriceItem(item, catalog, levels);
            live.subtotal == live.price * item.qty
            <==> item.qty <= StockAvailable(levels, item.product) || live.price == 0
  {
    var live := PriceItem(item, catalog, levels);
    assert live.effectiveQty <= item.qty;
    if live.effectiveQty < item.qty && live.price > 0 {
      StrictlyLess(live.effectiveQty, item.qty, live.price);
    }
  }

  lemma StrictlyLess(a: int, b: int, c: int)
    requires a < b && c > 0
    ensures a * c < b * c
  {
  }
}
