/**
 Placing and cancelling orders, interleaved at every await.

 Any number of placements and cancellations are in progress.  One step resumes one of them and runs
 it up to its next await.  Stock-keeping units are numbered: `stock[ref]` is the stock of unit `ref`.
 An order's number is its place in `orders`; it is allocated before the order is saved.
 */
module Orders {
  import opened Common
  import opened IntentTasks

  type Ref = nat

  datatype SkuEntry = SkuEntry(skuId: string, ref: Ref, currency: string)

  datatype Product = Product(productId: string, shipsTo: seq<string>, skus: seq<SkuEntry>)

  type Catalog = map<string, Product>

  datatype Item = Item(productId: string, skuId: string, quantity: int)

  datatype OrderLine = OrderLine(productId: string, skuId: string, currency: string, quantity: int)

  datatype OrderStatus = Draft | Confirmed | Cancelled

  datatype Order = Order(buyerId: string, lines: seq<OrderLine>, status: OrderStatus)

  datatype Deduction = Deduction(ref: Ref, quantity: int)

  /** What a placement awaits next; one that has ended, with its order or with an exception, holds nothing. */
  datatype PlacingStep = FindProduct(next: nat) | NextOrderId | Save(number: nat) | Ended(placed: bool)

  datatype Placing = Placing(
    buyerId: string, country: string, items: seq<Item>,
    lines: seq<OrderLine>, deducted: seq<Deduction>, step: PlacingStep)

  datatype CancellingStep = LoadOrder | FindLineProduct(next: nat) | SaveCancelled | Stopped

  datatype Cancelling = Cancelling(
    number: nat, buyerId: string, reason: string,
    toRestore: seq<Deduction>, step: CancellingStep)

  /** `restores` is history: the orders whose lines were put back into stock. */
  datatype Shop = Shop(
    stock: seq<int>,
    orders: seq<Option<Order>>,
    placings: seq<Placing>,
    cancellings: seq<Cancelling>,
    restores: seq<nat>)

  /** How an await ends: with its result, or with an exception or cancellation, which for a save may
      come after the order was stored. */
  datatype Awaited = Returned | Raised(stored: bool)

  datatype ShopAction =
    | Place(buyerId: string, country: string, items: seq<Item>)
    | ResumePlacing(index: nat, awaited: Awaited)
    | Cancel(number: nat, buyerId: string, reason: string)
    | ResumeCancelling(index: nat, awaited: Awaited)

  /** OrderItemInput: both ids stripped and not blank, and a positive quantity. */
  predicate ValidItem(item: Item) {
    Strip(item.productId) != [] && Strip(item.skuId) != [] && item.quantity > 0
  }

  function NormalItems(items: seq<Item>): seq<Item> {
    seq(|items|, i requires 0 <= i < |items| =>
      Item(Strip(items[i].productId), Strip(items[i].skuId), items[i].quantity))
  }

  /** Product.find_sku: the first unit of the product with this id. */
  function FirstSku(skus: seq<SkuEntry>, skuId: string): Option<SkuEntry> {
    if skus == [] then None
    else if skus[0].skuId == skuId then Some(skus[0])
    else FirstSku(skus[1..], skuId)
  }

  function FindSku(product: Product, skuId: string): Option<SkuEntry> {
    if Strip(skuId) == [] then None else FirstSku(product.skus, Strip(skuId))
  }

  function FindUnit(catalog: Catalog, productId: string, skuId: string): Option<SkuEntry> {
    if productId in catalog then FindSku(catalog[productId], skuId) else None
  }

  /** The units exist, and the repository's key of a product is the product's own id. */
  predicate CatalogOk(catalog: Catalog, units: nat) {
    && (forall id <- catalog :: catalog[id].productId == id)
    && forall id <- catalog :: forall entry <- catalog[id].skus :: entry.ref < units
  }

  function Deduct(stock: seq<int>, d: Deduction): seq<int> {
    if d.ref < |stock| then stock[d.ref := stock[d.ref] - d.quantity] else stock
  }

  function Restore(stock: seq<int>, d: Deduction): seq<int> {
    if d.ref < |stock| then stock[d.ref := stock[d.ref] + d.quantity] else stock
  }

  /** The rollback of `finally`: the last deduction is restored first. */
  function RestoreReversed(stock: seq<int>, ds: seq<Deduction>): seq<int>
    decreases |ds|
  {
    if ds == [] then stock else RestoreReversed(Restore(stock, ds[|ds| - 1]), ds[..|ds| - 1])
  }

  /** The restore loop of a cancellation, in line order. */
  function RestoreAll(stock: seq<int>, ds: seq<Deduction>): seq<int>
    decreases |ds|
  {
    if ds == [] then stock else RestoreAll(Restore(stock, ds[0]), ds[1..])
  }

  /** Sku.deduct_stock accepts a positive quantity that is in stock. */
  predicate CanDeduct(stock: seq<int>, d: Deduction) {
    d.ref < |stock| && d.quantity > 0 && stock[d.ref] >= d.quantity
  }

  /** The checks of Order's constructor, then confirm(). */
  predicate CanPlace(buyerId: string, lines: seq<OrderLine>) {
    Strip(buyerId) != [] && lines != [] && forall line <- lines :: line.currency == lines[0].currency
  }

  function EndPlacing(shop: Shop, index: nat, stock: seq<int>, placed: bool): Shop
    requires index < |shop.placings|
  {
    shop.(stock := stock, placings := shop.placings[index := shop.placings[index].(deducted := [], step := Ended(placed))])
  }

  /** An exception anywhere before the order is saved gives all deductions back. */
  function Rollback(shop: Shop, index: nat): Shop
    requires index < |shop.placings|
  {
    EndPlacing(shop, index, RestoreReversed(shop.stock, shop.placings[index].deducted), false)
  }

  /** The placement after it deducted an item: one more deduction, one more order line. */
  function WithLine(p: Placing, product: Product, entry: SkuEntry, item: Item): Placing
    requires p.step.FindProduct?
  {
    var line := OrderLine(Strip(product.productId), Strip(entry.skuId), entry.currency, item.quantity);
    var next := p.step.next + 1;
    p.(lines := p.lines + [line], deducted := p.deducted + [Deduction(entry.ref, item.quantity)],
       step := if next < |p.items| then FindProduct(next) else NextOrderId)
  }

  /** After find_by_id: the checks of one item, its deduction and its order line. */
  function TakeItem(shop: Shop, index: nat, catalog: Catalog): Shop
    requires index < |shop.placings| && shop.placings[index].step.FindProduct?
  {
    var p := shop.placings[index];
    if p.step.next >= |p.items| then shop else
    var item := p.items[p.step.next];
    var entry := FindUnit(catalog, item.productId, item.skuId);
    if entry.None? || p.country !in catalog[item.productId].shipsTo then Rollback(shop, index)
    else
      var d := Deduction(entry.value.ref, item.quantity);
      if !CanDeduct(shop.stock, d) then Rollback(shop, index)
      else
        shop.(stock := Deduct(shop.stock, d),
              placings := shop.placings[index := WithLine(p, catalog[item.productId], entry.value, item)])
  }

  function ResumePlacingStep(shop: Shop, index: nat, awaited: Awaited, catalog: Catalog): Shop
    requires index < |shop.placings|
  {
    var p := shop.placings[index];
    match p.step
    case FindProduct(_) => if awaited.Raised? then Rollback(shop, index) else TakeItem(shop, index, catalog)
    case NextOrderId =>
      if awaited.Raised? then Rollback(shop, index)
      else
        var numbered := shop.(orders := shop.orders + [None]);
        if CanPlace(p.buyerId, p.lines)
        then numbered.(placings := shop.placings[index := p.(step := Save(|shop.orders|))])
        else Rollback(numbered, index)
    case Save(number) =>
      var saved := if (awaited.Returned? || awaited.stored) && number < |shop.orders|
                   then shop.(orders := shop.orders[number := Some(Order(Strip(p.buyerId), p.lines, Confirmed))]) else shop;
      if awaited.Returned? then EndPlacing(saved, index, saved.stock, true) else Rollback(saved, index)
    case Ended(_) => shop
  }

  function MoveCancelling(shop: Shop, index: nat, step: CancellingStep): Shop
    requires index < |shop.cancellings|
  {
    shop.(cancellings := shop.cancellings[index := shop.cancellings[index].(step := step)])
  }

  /** After the last line's product is found: cancel the order, then restore every line. */
  function CancelAndRestore(shop: Shop, index: nat): Shop
    requires index < |shop.cancellings|
    requires shop.cancellings[index].number < |shop.orders| && shop.orders[shop.cancellings[index].number].Some?
  {
    var c := shop.cancellings[index];
    var order := shop.orders[c.number].value;
    if order.status != Confirmed || Strip(c.reason) == [] then MoveCancelling(shop, index, Stopped)
    else
      MoveCancelling(
        shop.(orders := shop.orders[c.number := Some(order.(status := Cancelled))],
              stock := RestoreAll(shop.stock, c.toRestore),
              restores := shop.restores + [c.number]),
        index, SaveCancelled)
  }

  function ResumeCancellingStep(shop: Shop, index: nat, awaited: Awaited, catalog: Catalog): Shop
    requires index < |shop.cancellings|
  {
    var c := shop.cancellings[index];
    if c.step.Stopped? then shop
    else if awaited.Raised? || c.step.SaveCancelled? then MoveCancelling(shop, index, Stopped)
    else if c.number >= |shop.orders| || shop.orders[c.number].None? then MoveCancelling(shop, index, Stopped)
    else
      var order := shop.orders[c.number].value;
      match c.step
      case LoadOrder =>
        if order.buyerId != c.buyerId then MoveCancelling(shop, index, Stopped)
        else if order.lines == [] then CancelAndRestore(shop, index)
        else MoveCancelling(shop, index, FindLineProduct(0))
      case FindLineProduct(next) =>
        if next >= |order.lines| then shop else
        var line := order.lines[next];
        var entry := FindUnit(catalog, line.productId, line.skuId);
        if entry.None? then MoveCancelling(shop, index, Stopped)
        else
          var resolved := shop.(cancellings := shop.cancellings[index :=
            c.(toRestore := c.toRestore + [Deduction(entry.value.ref, line.quantity)], step := FindLineProduct(next + 1))]);
          if next + 1 < |order.lines| then resolved else CancelAndRestore(resolved, index)
  }

  function ApplyShop(shop: Shop, a: ShopAction, catalog: Catalog): Shop {
    match a
    case Place(buyerId, country, items) =>
      // the input object refuses a blank buyer, an empty order and an invalid item
      if Strip(buyerId) == [] || items == [] || (exists item <- items :: !ValidItem(item)) then shop
      else shop.(placings := shop.placings + [Placing(Strip(buyerId), country, NormalItems(items), [], [], FindProduct(0))])
    case ResumePlacing(index, awaited) =>
      if index < |shop.placings| then ResumePlacingStep(shop, index, awaited, catalog) else shop
    case Cancel(number, buyerId, reason) =>
      if Strip(buyerId) == [] || Strip(reason) == [] then shop
      else shop.(cancellings := shop.cancellings + [Cancelling(number, Strip(buyerId), Strip(reason), [], LoadOrder)])
    case ResumeCancelling(index, awaited) =>
      if index < |shop.cancellings| then ResumeCancellingStep(shop, index, awaited, catalog) else shop
  }

  function RunShop(shop: Shop, trace: seq<ShopAction>, catalog: Catalog): Shop
    decreases |trace|
  {
    if trace == [] then shop
    else ApplyShop(RunShop(shop, trace[..|trace| - 1], catalog), trace[|trace| - 1], catalog)
  }
}
