/**
 What becomes of a request to place an order, over every interleaving of placements and cancellations: a stored
 order is one that was asked for and can be delivered, and a placement that nobody disturbs goes through
 exactly when its items can be found, can be shipped, are priced in one currency and are in stock.
 */
module PlacedOrders {
  import opened Common
  import opened IntentTasks
  import opened Orders
  import opened OrderConservation

  /** The line is for this item, and the item's product exists, has the unit, and ships to the country. */
  ghost predicate Serves(line: OrderLine, item: Item, country: string, catalog: Catalog) {
    && line.productId == Strip(item.productId) && line.skuId == Strip(item.skuId)
    && line.quantity == item.quantity && item.quantity > 0
    && line.productId in catalog && country in catalog[line.productId].shipsTo
    && exists entry <- catalog[line.productId].skus :: entry.skuId == line.skuId && entry.currency == line.currency
  }

  ghost predicate AllServe(lines: seq<OrderLine>, items: seq<Item>, country: string, catalog: Catalog) {
    |lines| <= |items| && forall k | 0 <= k < |lines| :: Serves(lines[k], items[k], country, catalog)
  }

  predicate OneCurrency(lines: seq<OrderLine>) {
    forall line <- lines :: line.currency == lines[0].currency
  }

  /** The lines made so far serve the first items, and all of them once the search is over. */
  ghost predicate LinesSoFar(p: Placing, items: seq<Item>, catalog: Catalog) {
    match p.step
    case FindProduct(next) => |p.lines| == next && AllServe(p.lines, items, p.country, catalog)
    case NextOrderId => |p.lines| == |items| && AllServe(p.lines, items, p.country, catalog)
    case Save(_) => |p.lines| == |items| && AllServe(p.lines, items, p.country, catalog) && OneCurrency(p.lines)
    case Ended(_) => true
  }

  /** The placement came from this request. */
  ghost predicate From(p: Placing, a: ShopAction, catalog: Catalog) {
    && a.Place? && a.items != [] && Strip(a.buyerId) != []
    && p.buyerId == Strip(a.buyerId) && p.country == a.country && p.items == NormalItems(a.items)
    && LinesSoFar(p, a.items, catalog)
  }

  /** The order is what this request asked for, line by line. */
  ghost predicate Fulfils(order: Order, a: ShopAction, catalog: Catalog) {
    && a.Place? && a.items != [] && Strip(a.buyerId) != []
    && order.buyerId == Strip(a.buyerId)
    && |order.lines| == |a.items| && AllServe(order.lines, a.items, a.country, catalog) && OneCurrency(order.lines)
  }

  ghost predicate PlacingAsked(p: Placing, trace: seq<ShopAction>, catalog: Catalog) {
    exists a <- trace :: From(p, a, catalog)
  }

  ghost predicate OrderAsked(order: Option<Order>, trace: seq<ShopAction>, catalog: Catalog) {
    order.Some? ==> exists a <- trace :: Fulfils(order.value, a, catalog)
  }

  ghost predicate AllAsked(shop: Shop, trace: seq<ShopAction>, catalog: Catalog) {
    && (forall p <- shop.placings :: PlacingAsked(p, trace, catalog))
    && (forall order <- shop.orders :: OrderAsked(order, trace, catalog))
  }

  lemma AskedLater(shop: Shop, trace: seq<ShopAction>, a: ShopAction, catalog: Catalog)
    requires AllAsked(shop, trace, catalog)
    ensures AllAsked(shop, trace + [a], catalog)
  {
    hide From, Fulfils;
    assert forall b <- trace :: b in trace + [a];
  }

  // ---------------------------------------------------------------- one step

  /** One more item taken: its line serves it. */
  lemma LineServes(p: Placing, item: Item, asked: Item, catalog: Catalog, units: nat)
    requires CatalogOk(catalog, units) && p.step.FindProduct?
    requires item == Item(Strip(asked.productId), Strip(asked.skuId), asked.quantity) && item.quantity > 0
    requires FindUnit(catalog, item.productId, item.skuId).Some? && p.country in catalog[item.productId].shipsTo
    ensures var entry := FindUnit(catalog, item.productId, item.skuId).value;
            var after := WithLine(p, catalog[item.productId], entry, item);
            && after.lines == p.lines + [after.lines[|p.lines|]]
            && Serves(after.lines[|p.lines|], asked, p.country, catalog)
  {
    hide Strip, FirstSku;
    StripIsStripped(asked.productId);
    StripIsStripped(asked.skuId);
    StripIsStripped(item.productId);
    StripIsStripped(item.skuId);
    FirstSkuIsFirst(catalog[item.productId].skus, Strip(item.skuId));
    var entry := FindUnit(catalog, item.productId, item.skuId).value;
    assert entry in catalog[item.productId].skus && entry.skuId == item.skuId;
    assert catalog[item.productId].productId == item.productId;
    assert Strip(item.productId) == item.productId && Strip(item.skuId) == item.skuId;
  }

  lemma FoundIsThere(catalog: Catalog, productId: string, skuId: string)
    ensures FindUnit(catalog, productId, skuId).Some? ==> productId in catalog
  {
  }

  lemma TakeItemAsked(shop: Shop, i: nat, catalog: Catalog, a: ShopAction)
    requires CatalogOk(catalog, |shop.stock|) && i < |shop.placings| && shop.placings[i].step.FindProduct?
    requires From(shop.placings[i], a, catalog)
    ensures var after := TakeItem(shop, i, catalog);
            && |after.placings| == |shop.placings| && after.placings == shop.placings[i := after.placings[i]]
            && From(after.placings[i], a, catalog) && after.orders == shop.orders
  {
    hide CatalogOk, Strip, Serves, RestoreReversed, FindUnit;
    var p := shop.placings[i];
    if p.step.next < |p.items| {
      var item := p.items[p.step.next];
      var entry := FindUnit(catalog, item.productId, item.skuId);
      FoundIsThere(catalog, item.productId, item.skuId);
      if entry.Some? && p.country in catalog[item.productId].shipsTo && CanDeduct(shop.stock, Deduction(entry.value.ref, item.quantity)) {
        LineServes(p, item, a.items[p.step.next], catalog, |shop.stock|);
        var after := WithLine(p, catalog[item.productId], entry.value, item);
        assert AllServe(after.lines, a.items, p.country, catalog);
      }
    }
  }

  lemma OtherStepsAsked(shop: Shop, i: nat, awaited: Awaited, catalog: Catalog, a: ShopAction)
    requires i < |shop.placings| && (!shop.placings[i].step.FindProduct? || awaited.Raised?)
    requires From(shop.placings[i], a, catalog)
    ensures var after := ResumePlacingStep(shop, i, awaited, catalog);
            && |after.placings| == |shop.placings| && after.placings == shop.placings[i := after.placings[i]]
            && From(after.placings[i], a, catalog)
            && forall order <- after.orders ::
                 order in shop.orders || order == None || Fulfils(order.value, a, catalog)
  {
    hide AllServe, RestoreReversed, TakeItem;
    StripIsStripped(a.buyerId);
    StripIsStripped(Strip(a.buyerId));
    hide Strip;
    var p := shop.placings[i];
    assert p.step.Save? ==> Fulfils(Order(Strip(p.buyerId), p.lines, Confirmed), a, catalog);
  }

  lemma PlacingStepAsked(shop: Shop, i: nat, awaited: Awaited, catalog: Catalog, trace: seq<ShopAction>)
    requires CatalogOk(catalog, |shop.stock|) && i < |shop.placings| && AllAsked(shop, trace, catalog)
    ensures AllAsked(ResumePlacingStep(shop, i, awaited, catalog), trace, catalog)
  {
    hide CatalogOk, From, Fulfils, TakeItem;
    var p := shop.placings[i];
    assert p in shop.placings;
    var a :| a in trace && From(p, a, catalog);
    var after := ResumePlacingStep(shop, i, awaited, catalog);
    if p.step.FindProduct? && awaited.Returned? {
      TakeItemAsked(shop, i, catalog, a);
      assert after == TakeItem(shop, i, catalog);
    } else {
      OtherStepsAsked(shop, i, awaited, catalog, a);
    }
    hide ResumePlacingStep;
    forall q <- after.placings ensures PlacingAsked(q, trace, catalog) {
      assert q == after.placings[i] || q in shop.placings;
    }
  }

  lemma CancellingStepAsked(shop: Shop, i: nat, awaited: Awaited, catalog: Catalog)
    requires i < |shop.cancellings|
    ensures var after := ResumeCancellingStep(shop, i, awaited, catalog);
            && after.placings == shop.placings
            && forall order <- after.orders | order.Some? ::
                 exists o <- shop.orders :: o.Some? && o.value.lines == order.value.lines && o.value.buyerId == order.value.buyerId
  {
    hide RestoreAll, FindUnit, Strip;
  }

  lemma SameOrderAsked(orders: seq<Option<Order>>, order: Option<Order>, trace: seq<ShopAction>, catalog: Catalog)
    requires forall o <- orders :: OrderAsked(o, trace, catalog)
    requires order.Some? ==> exists o <- orders :: o.Some? && o.value.lines == order.value.lines && o.value.buyerId == order.value.buyerId
    ensures OrderAsked(order, trace, catalog)
  {
    hide AllServe, OneCurrency, Strip;
    if order.Some? {
      var o :| o in orders && o.Some? && o.value.lines == order.value.lines && o.value.buyerId == order.value.buyerId;
      assert OrderAsked(o, trace, catalog);
      var a :| a in trace && Fulfils(o.value, a, catalog);
      assert Fulfils(order.value, a, catalog);
    }
  }

  lemma NewPlacingAsked(a: ShopAction, trace: seq<ShopAction>, catalog: Catalog)
    requires a.Place? && a.items != [] && Strip(a.buyerId) != [] && a in trace
    ensures PlacingAsked(Placing(Strip(a.buyerId), a.country, NormalItems(a.items), [], [], FindProduct(0)), trace, catalog)
  {
    hide Strip;
    assert From(Placing(Strip(a.buyerId), a.country, NormalItems(a.items), [], [], FindProduct(0)), a, catalog);
  }

  lemma StepAsked(shop: Shop, a: ShopAction, catalog: Catalog, trace: seq<ShopAction>)
    requires CatalogOk(catalog, |shop.stock|) && AllAsked(shop, trace, catalog)
    ensures AllAsked(ApplyShop(shop, a, catalog), trace + [a], catalog)
  {
    hide CatalogOk, PlacingAsked, OrderAsked, ResumePlacingStep, ResumeCancellingStep, Strip, ValidItem;
    AskedLater(shop, trace, a, catalog);
    var after := ApplyShop(shop, a, catalog);
    match a
    case Place(buyerId, country, items) =>
      if after != shop {
        NewPlacingAsked(a, trace + [a], catalog);
        assert forall p <- after.placings :: p in shop.placings || p == Placing(Strip(buyerId), country, NormalItems(items), [], [], FindProduct(0));
      }
    case ResumePlacing(i, awaited) =>
      if i < |shop.placings| { PlacingStepAsked(shop, i, awaited, catalog, trace + [a]); }
    case Cancel(_, _, _) =>
    case ResumeCancelling(i, awaited) =>
      if i < |shop.cancellings| {
        CancellingStepAsked(shop, i, awaited, catalog);
        forall order <- after.orders ensures OrderAsked(order, trace + [a], catalog) {
          SameOrderAsked(shop.orders, order, trace + [a], catalog);
        }
      }
  }

  lemma {:induction false} RunAsked(stock: seq<int>, trace: seq<ShopAction>, catalog: Catalog)
    requires InStock(stock) && CatalogOk(catalog, |stock|)
    ensures var shop := RunShop(OpenShop(stock), trace, catalog);
            ShopOk(shop, catalog) && |shop.stock| == |stock| && AllAsked(shop, trace, catalog)
    decreases |trace|
  {
    hide ShopOk, AllAsked, ApplyShop, CatalogOk;
    OpenShopIsOk(stock, catalog);
    RunKeeps(OpenShop(stock), trace, catalog);
    if trace == [] {
      NothingAsked(stock, catalog);
    } else {
      var front, a := trace[..|trace| - 1], trace[|trace| - 1];
      RunAsked(stock, front, catalog);
      StepAsked(RunShop(OpenShop(stock), front, catalog), a, catalog, front);
      assert front + [a] == trace;
    }
  }

  lemma NothingAsked(stock: seq<int>, catalog: Catalog)
    ensures AllAsked(OpenShop(stock), [], catalog)
  {
  }

  /** In every run, each stored order is for the buyer of some request and has one line for each of its items, in
      order: for that product and unit, in that quantity, of a product that ships to the request's country, and
      all in one currency. */
  lemma OrdersAreWhatWasAsked(stock: seq<int>, trace: seq<ShopAction>, catalog: Catalog, number: nat)
    requires InStock(stock) && CatalogOk(catalog, |stock|)
    requires var orders := RunShop(OpenShop(stock), trace, catalog).orders; number < |orders| && orders[number].Some?
    ensures var order := RunShop(OpenShop(stock), trace, catalog).orders[number].value;
            exists a <- trace ::
              && a.Place? && order.buyerId == Strip(a.buyerId) && order.buyerId != []
              && |order.lines| == |a.items| && a.items != []
              && (forall k | 0 <= k < |a.items| :: Serves(order.lines[k], a.items[k], a.country, catalog))
              && OneCurrency(order.lines)
  {
    hide RunShop, Strip, Serves;
    RunAsked(stock, trace, catalog);
    var orders := RunShop(OpenShop(stock), trace, catalog).orders;
    assert orders[number] in orders && OrderAsked(orders[number], trace, catalog);
    var a :| a in trace && Fulfils(orders[number].value, a, catalog);
  }
}
