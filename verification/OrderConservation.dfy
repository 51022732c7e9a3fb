/**
 Conservation of stock over every run of the shop.
 */
module OrderConservation {
  import opened Common
  import opened IntentTasks
  import opened Orders

  // ---------------------------------------------------------------- quantities

  function Sum(xs: seq<int>): int {
    if xs == [] then 0 else Sum(xs[..|xs| - 1]) + xs[|xs| - 1]
  }

  lemma {:induction false} SumUpdate(xs: seq<int>, i: nat, x: int)
    requires i < |xs|
    ensures Sum(xs[i := x]) == Sum(xs) - xs[i] + x
    decreases |xs|
  {
    var ys := xs[i := x];
    if i == |xs| - 1 {
      assert ys[..|ys| - 1] == xs[..|xs| - 1];
    } else {
      assert ys[..|ys| - 1] == xs[..|xs| - 1][i := x];
      SumUpdate(xs[..|xs| - 1], i, x);
    }
  }

  lemma SumAppend(xs: seq<int>, x: int)
    ensures Sum(xs + [x]) == Sum(xs) + x
  {
    assert (xs + [x])[..|xs|] == xs;
  }

  /** The quantity of unit `ref` in a list of deductions. */
  function Held(ds: seq<Deduction>, ref: Ref): int {
    if ds == [] then 0 else Held(ds[..|ds| - 1], ref) + if ds[|ds| - 1].ref == ref then ds[|ds| - 1].quantity else 0
  }

  /** The quantity of unit `ref` in a list of order lines. */
  function Ordered(lines: seq<OrderLine>, ref: Ref, catalog: Catalog): int {
    if lines == [] then 0
    else
      var line := lines[|lines| - 1];
      var entry := FindUnit(catalog, line.productId, line.skuId);
      Ordered(lines[..|lines| - 1], ref, catalog) + if entry.Some? && entry.value.ref == ref then line.quantity else 0
  }

  /** What a saved order holds: its lines as long as it is confirmed. */
  function OrderHolds(order: Option<Order>, ref: Ref, catalog: Catalog): int {
    if order.Some? && order.value.status == Confirmed then Ordered(order.value.lines, ref, catalog) else 0
  }

  /** The quantity in confirmed saved orders. */
  function InOrders(orders: seq<Option<Order>>, ref: Ref, catalog: Catalog): int {
    Sum(seq(|orders|, i requires 0 <= i < |orders| => OrderHolds(orders[i], ref, catalog)))
  }

  /** The quantity deducted by unfinished placements. */
  function InPlacings(placings: seq<Placing>, ref: Ref): int {
    Sum(seq(|placings|, i requires 0 <= i < |placings| => Held(placings[i].deducted, ref)))
  }

  lemma InOrdersUpdate(orders: seq<Option<Order>>, i: nat, order: Option<Order>, ref: Ref, catalog: Catalog)
    requires i < |orders|
    ensures InOrders(orders[i := order], ref, catalog) ==
            InOrders(orders, ref, catalog) - OrderHolds(orders[i], ref, catalog) + OrderHolds(order, ref, catalog)
  {
    var xs := seq(|orders|, j requires 0 <= j < |orders| => OrderHolds(orders[j], ref, catalog));
    var after := orders[i := order];
    assert xs[i := OrderHolds(order, ref, catalog)] == seq(|after|, j requires 0 <= j < |after| => OrderHolds(after[j], ref, catalog));
    SumUpdate(xs, i, OrderHolds(order, ref, catalog));
  }

  lemma InOrdersAppend(orders: seq<Option<Order>>, ref: Ref, catalog: Catalog)
    ensures InOrders(orders + [None], ref, catalog) == InOrders(orders, ref, catalog)
  {
    var xs := seq(|orders|, j requires 0 <= j < |orders| => OrderHolds(orders[j], ref, catalog));
    var after := orders + [None];
    assert xs + [0] == seq(|after|, j requires 0 <= j < |after| => OrderHolds(after[j], ref, catalog));
    SumAppend(xs, 0);
  }

  lemma InPlacingsUpdate(placings: seq<Placing>, i: nat, p: Placing, ref: Ref)
    requires i < |placings|
    ensures InPlacings(placings[i := p], ref) == InPlacings(placings, ref) - Held(placings[i].deducted, ref) + Held(p.deducted, ref)
  {
    var xs := seq(|placings|, j requires 0 <= j < |placings| => Held(placings[j].deducted, ref));
    var after := placings[i := p];
    assert xs[i := Held(p.deducted, ref)] == seq(|after|, j requires 0 <= j < |after| => Held(after[j].deducted, ref));
    SumUpdate(xs, i, Held(p.deducted, ref));
  }

  lemma InPlacingsAppend(placings: seq<Placing>, p: Placing, ref: Ref)
    requires p.deducted == []
    ensures InPlacings(placings + [p], ref) == InPlacings(placings, ref)
  {
    var xs := seq(|placings|, j requires 0 <= j < |placings| => Held(placings[j].deducted, ref));
    var after := placings + [p];
    assert xs + [0] == seq(|after|, j requires 0 <= j < |after| => Held(after[j].deducted, ref));
    SumAppend(xs, 0);
  }

  // ---------------------------------------------------------------- giving back

  predicate InRange(ds: seq<Deduction>, units: nat) {
    forall d <- ds :: d.ref < units && d.quantity > 0
  }

  lemma {:induction false} RestoreReversedGivesBack(stock: seq<int>, ds: seq<Deduction>)
    requires InRange(ds, |stock|)
    ensures |RestoreReversed(stock, ds)| == |stock|
    ensures forall ref | 0 <= ref < |stock| :: RestoreReversed(stock, ds)[ref] == stock[ref] + Held(ds, ref)
    decreases |ds|
  {
    if ds != [] {
      assert forall d <- ds[..|ds| - 1] :: d in ds;
      assert ds[|ds| - 1] in ds;
      RestoreReversedGivesBack(Restore(stock, ds[|ds| - 1]), ds[..|ds| - 1]);
    }
  }

  lemma HeldAppend(ds: seq<Deduction>, d: Deduction, ref: Ref)
    ensures Held(ds + [d], ref) == Held(ds, ref) + if d.ref == ref then d.quantity else 0
  {
    assert (ds + [d])[..|ds|] == ds;
  }

  lemma {:induction false} HeldFirst(ds: seq<Deduction>, ref: Ref)
    requires ds != []
    ensures Held(ds, ref) == Held(ds[1..], ref) + if ds[0].ref == ref then ds[0].quantity else 0
    decreases |ds|
  {
    if |ds| > 1 {
      var front := ds[..|ds| - 1];
      HeldFirst(front, ref);
      assert ds[1..][..|ds| - 2] == front[1..];
      assert ds[1..][|ds| - 2] == ds[|ds| - 1];
    }
  }

  lemma {:induction false} RestoreAllGivesBack(stock: seq<int>, ds: seq<Deduction>)
    requires InRange(ds, |stock|)
    ensures |RestoreAll(stock, ds)| == |stock|
    ensures forall ref | 0 <= ref < |stock| :: RestoreAll(stock, ds)[ref] == stock[ref] + Held(ds, ref)
    decreases |ds|
  {
    if ds != [] {
      assert forall d <- ds[1..] :: d in ds;
      RestoreAllGivesBack(Restore(stock, ds[0]), ds[1..]);
      forall ref | 0 <= ref < |stock| ensures RestoreAll(stock, ds)[ref] == stock[ref] + Held(ds, ref) {
        HeldFirst(ds, ref);
      }
    }
  }

  // ---------------------------------------------------------------- lines and deductions

  /** The lines are the deductions: the same units, found again by the ids in the lines, in the same quantities. */
  predicate LinesMatch(lines: seq<OrderLine>, ds: seq<Deduction>, catalog: Catalog) {
    && |lines| == |ds|
    && forall i | 0 <= i < |lines| :: LineMatches(lines[i], ds[i], catalog)
  }

  predicate LineMatches(line: OrderLine, d: Deduction, catalog: Catalog) {
    var entry := FindUnit(catalog, line.productId, line.skuId);
    entry.Some? && entry.value.ref == d.ref && line.quantity == d.quantity > 0
  }

  lemma {:induction false} MatchingLinesHoldTheSame(lines: seq<OrderLine>, ds: seq<Deduction>, ref: Ref, catalog: Catalog)
    requires LinesMatch(lines, ds, catalog)
    ensures Ordered(lines, ref, catalog) == Held(ds, ref)
    decreases |lines|
  {
    hide FindUnit;
    if lines != [] {
      var n := |lines| - 1;
      assert LineMatches(lines[n], ds[n], catalog);
      assert forall i | 0 <= i < n :: LineMatches(lines[..n][i], ds[..n][i], catalog);
      MatchingLinesHoldTheSame(lines[..n], ds[..n], ref, catalog);
    }
  }

  lemma {:induction false} FirstSkuIsFirst(skus: seq<SkuEntry>, skuId: string)
    ensures var entry := FirstSku(skus, skuId);
            && (entry.Some? ==> entry.value in skus && entry.value.skuId == skuId)
            && (entry.None? ==> forall other <- skus :: other.skuId != skuId)
  {
    if skus != [] && skus[0].skuId != skuId {
      FirstSkuIsFirst(skus[1..], skuId);
      var entry := FirstSku(skus[1..], skuId);
      assert entry.Some? ==> entry.value in skus;
      forall other <- skus | entry.None? ensures other.skuId != skuId {
        assert other == skus[0] || other in skus[1..];
      }
    }
  }

  /** The ids written into an order line lead back to the unit the placement deducted. */
  lemma LineFindsItsUnit(catalog: Catalog, units: nat, productId: string, skuId: string)
    requires CatalogOk(catalog, units) && Stripped(productId)
    requires FindUnit(catalog, productId, skuId).Some?
    ensures var entry := FindUnit(catalog, productId, skuId).value;
            && entry.ref < units
            && FindUnit(catalog, Strip(catalog[productId].productId), Strip(entry.skuId)) == Some(entry)
  {
    hide Strip, FirstSku;
    var entry := FindUnit(catalog, productId, skuId).value;
    var id := Strip(skuId);
    StripIsStripped(productId);
    StripIsStripped(skuId);
    StripIsStripped(id);
    FirstSkuIsFirst(catalog[productId].skus, id);
    assert entry.skuId == id && Strip(id) == id;
  }

  // ---------------------------------------------------------------- the invariant

  predicate Resolvable(line: OrderLine, catalog: Catalog) {
    FindUnit(catalog, line.productId, line.skuId).Some? && line.quantity > 0
  }

  predicate OrderOk(order: Option<Order>, catalog: Catalog) {
    order.Some? ==>
      && order.value.status != Draft
      && order.value.lines != []
      && forall line <- order.value.lines :: Resolvable(line, catalog)
  }

  /** The slot of a numbered but not yet saved order is empty. */
  predicate SlotIsFree(step: PlacingStep, orders: seq<Option<Order>>) {
    step.Save? ==> step.number < |orders| && orders[step.number].None?
  }

  /** What holds of a placement by itself: its lines are what it deducted, until it ends and holds nothing. */
  predicate PlacingOk(p: Placing, units: nat, catalog: Catalog) {
    && InRange(p.deducted, units)
    && (if p.step.Ended? then p.deducted == [] else LinesMatch(p.lines, p.deducted, catalog))
    && (forall item <- p.items :: Stripped(item.productId))
    && (p.step.FindProduct? ==> p.step.next < |p.items|)
    && (p.step.Save? ==> p.lines != [])
  }

  predicate SlotsDistinct(placings: seq<Placing>) {
    forall i, j | 0 <= i < j < |placings| && placings[i].step.Save? && placings[j].step.Save? ::
      placings[i].step.number != placings[j].step.number
  }

  /** What a cancellation has resolved so far are the first lines of its order. */
  predicate CancellingOk(c: Cancelling, orders: seq<Option<Order>>, units: nat, catalog: Catalog) {
    match c.step
    case LoadOrder => c.toRestore == []
    case FindLineProduct(next) =>
      && c.number < |orders| && orders[c.number].Some?
      && next <= |orders[c.number].value.lines|
      && LinesMatch(orders[c.number].value.lines[..next], c.toRestore, catalog)
      && InRange(c.toRestore, units)
    case _ => true
  }

  predicate IsCancelled(orders: seq<Option<Order>>, number: nat) {
    number < |orders| && orders[number].Some? && orders[number].value.status == Cancelled
  }

  /** The orders put back into stock are the cancelled ones, each once. */
  ghost predicate RestoredOnce(orders: seq<Option<Order>>, restores: seq<nat>) {
    && (forall number: nat :: number in restores <==> IsCancelled(orders, number))
    && (forall i, j | 0 <= i < j < |restores| :: restores[i] != restores[j])
  }

  predicate PlacingsOk(placings: seq<Placing>, orders: seq<Option<Order>>, units: nat, catalog: Catalog) {
    && (forall p <- placings :: PlacingOk(p, units, catalog) && SlotIsFree(p.step, orders))
    && SlotsDistinct(placings)
  }

  predicate OrdersOk(orders: seq<Option<Order>>, catalog: Catalog) {
    forall order <- orders :: OrderOk(order, catalog)
  }

  predicate CancellingsOk(cancellings: seq<Cancelling>, orders: seq<Option<Order>>, units: nat, catalog: Catalog) {
    forall c <- cancellings :: CancellingOk(c, orders, units, catalog)
  }

  predicate InStock(stock: seq<int>) {
    forall n <- stock :: n >= 0
  }

  ghost predicate ShopOk(shop: Shop, catalog: Catalog) {
    && CatalogOk(catalog, |shop.stock|)
    && InStock(shop.stock)
    && PlacingsOk(shop.placings, shop.orders, |shop.stock|, catalog)
    && OrdersOk(shop.orders, catalog)
    && CancellingsOk(shop.cancellings, shop.orders, |shop.stock|, catalog)
    && RestoredOnce(shop.orders, shop.restores)
  }

  // ---------------------------------------------------------------- how orders change

  /** Orders are only added; a stored one keeps its lines. */
  predicate Grows(before: seq<Option<Order>>, after: seq<Option<Order>>) {
    && |before| <= |after|
    && forall i | 0 <= i < |before| :: before[i].Some? ==> after[i].Some? && after[i].value.lines == before[i].value.lines
  }

  lemma CancellingsOkGrow(cancellings: seq<Cancelling>, before: seq<Option<Order>>, after: seq<Option<Order>>, units: nat, catalog: Catalog)
    requires CancellingsOk(cancellings, before, units, catalog) && Grows(before, after)
    ensures CancellingsOk(cancellings, after, units, catalog)
  {
    hide LinesMatch, InRange;
  }

  lemma PlacingsOkMove(placings: seq<Placing>, i: nat, p: Placing, orders: seq<Option<Order>>, units: nat, catalog: Catalog)
    requires i < |placings| && PlacingsOk(placings, orders, units, catalog)
    requires PlacingOk(p, units, catalog) && !p.step.Save?
    ensures PlacingsOk(placings[i := p], orders, units, catalog)
  {
    hide PlacingOk;
    forall q <- placings[i := p] ensures PlacingOk(q, units, catalog) && SlotIsFree(q.step, orders) {
      assert q == p || q in placings;
    }
  }

  /** A new number is nobody else's slot. */
  lemma PlacingsOkNumber(placings: seq<Placing>, i: nat, p: Placing, orders: seq<Option<Order>>, units: nat, catalog: Catalog)
    requires i < |placings| && PlacingsOk(placings, orders, units, catalog)
    requires PlacingOk(p, units, catalog) && (p.step.Save? ==> p.step.number == |orders|)
    ensures PlacingsOk(placings[i := p], orders + [None], units, catalog)
  {
    hide PlacingOk;
    var after := placings[i := p];
    forall q <- after ensures PlacingOk(q, units, catalog) && SlotIsFree(q.step, orders + [None]) {
      assert q == p || q in placings;
    }
    forall a, b | 0 <= a < b < |after| && after[a].step.Save? && after[b].step.Save?
      ensures after[a].step.number != after[b].step.number
    {
      assert a != i ==> placings[a] in placings && SlotIsFree(placings[a].step, orders);
      assert b != i ==> placings[b] in placings && SlotIsFree(placings[b].step, orders);
    }
  }

  /** Storing an order takes its own slot and no other. */
  lemma PlacingsOkStore(placings: seq<Placing>, i: nat, p: Placing, orders: seq<Option<Order>>, order: Order, units: nat, catalog: Catalog)
    requires i < |placings| && PlacingsOk(placings, orders, units, catalog)
    requires placings[i].step.Save? && PlacingOk(p, units, catalog) && p.step.Ended?
    requires placings[i].step.number < |orders|
    ensures PlacingsOk(placings[i := p], orders[placings[i].step.number := Some(order)], units, catalog)
  {
    hide PlacingOk;
    var number := placings[i].step.number;
    var stored := orders[number := Some(order)];
    var after := placings[i := p];
    forall q <- after ensures PlacingOk(q, units, catalog) && SlotIsFree(q.step, stored) {
      var j :| 0 <= j < |after| && after[j] == q;
      if j != i {
        assert q == placings[j] && q in placings;
        assert SlotIsFree(q.step, orders);
        if q.step.Save? {
          assert q.step.number != number by {
            if i < j { assert placings[i].step.number != placings[j].step.number; }
            else { assert placings[j].step.number != placings[i].step.number; }
          }
        }
      }
    }
  }

  lemma OrdersOkUpdate(orders: seq<Option<Order>>, i: nat, order: Order, catalog: Catalog)
    requires OrdersOk(orders, catalog) && i < |orders| && OrderOk(Some(order), catalog)
    ensures OrdersOk(orders[i := Some(order)], catalog)
  {
    hide OrderOk;
    forall other <- orders[i := Some(order)] ensures OrderOk(other, catalog) {
      assert other == Some(order) || other in orders;
    }
  }

  lemma RestoredOnceStore(orders: seq<Option<Order>>, i: nat, order: Order, restores: seq<nat>)
    requires RestoredOnce(orders, restores) && i < |orders| && orders[i].None? && order.status == Confirmed
    ensures RestoredOnce(orders[i := Some(order)], restores)
  {
    var after := orders[i := Some(order)];
    forall number: nat ensures number in restores <==> IsCancelled(after, number) {
      assert IsCancelled(after, number) <==> IsCancelled(orders, number);
    }
  }

  lemma RestoredOnceCancel(orders: seq<Option<Order>>, i: nat, restores: seq<nat>)
    requires RestoredOnce(orders, restores) && i < |orders| && orders[i].Some? && orders[i].value.status == Confirmed
    ensures RestoredOnce(orders[i := Some(orders[i].value.(status := Cancelled))], restores + [i])
  {
    var after := orders[i := Some(orders[i].value.(status := Cancelled))];
    assert !IsCancelled(orders, i);
    forall number: nat ensures number in restores + [i] <==> IsCancelled(after, number) {
      assert number != i ==> (IsCancelled(after, number) <==> IsCancelled(orders, number));
    }
  }

  lemma RestoredOnceNumber(orders: seq<Option<Order>>, restores: seq<nat>)
    requires RestoredOnce(orders, restores)
    ensures RestoredOnce(orders + [None], restores)
  {
    forall number: nat ensures number in restores <==> IsCancelled(orders + [None], number) {
      assert IsCancelled(orders + [None], number) <==> IsCancelled(orders, number);
    }
  }

  // ---------------------------------------------------------------- one step

  /** The pieces of unit `ref`: in stock, in confirmed orders, and taken by unfinished placements. */
  function Balance(shop: Shop, ref: Ref, catalog: Catalog): int
    requires ref < |shop.stock|
  {
    shop.stock[ref] + InOrders(shop.orders, ref, catalog) + InPlacings(shop.placings, ref)
  }

  /** A step keeps the invariant, the number of units, and each unit's balance up to `gain`. */
  ghost predicate Keeps(before: Shop, after: Shop, catalog: Catalog, gain: seq<int>) {
    && ShopOk(after, catalog)
    && |after.stock| == |before.stock| == |gain|
    && forall ref: nat | ref < |before.stock| :: Balance(after, ref, catalog) == Balance(before, ref, catalog) + gain[ref]
  }

  function NoGain(units: nat): seq<int> {
    seq(units, _ => 0)
  }

  lemma {:induction false} HeldIsPositive(ds: seq<Deduction>, units: nat, ref: Ref)
    requires InRange(ds, units)
    ensures Held(ds, ref) >= 0
    ensures Held(ds, ref) > 0 <==> exists d <- ds :: d.ref == ref
    decreases |ds|
  {
    if ds != [] {
      var front := ds[..|ds| - 1];
      assert forall d <- front :: d in ds;
      HeldIsPositive(front, units, ref);
      assert ds[|ds| - 1] in ds;
      assert forall d <- ds :: d in front || d == ds[|ds| - 1];
    }
  }

  lemma GivingBackStaysInStock(stock: seq<int>, ds: seq<Deduction>)
    requires InStock(stock) && InRange(ds, |stock|)
    ensures InStock(RestoreReversed(stock, ds)) && InStock(RestoreAll(stock, ds))
  {
    RestoreReversedGivesBack(stock, ds);
    RestoreAllGivesBack(stock, ds);
    forall ref | 0 <= ref < |stock| ensures Held(ds, ref) >= 0 {
      HeldIsPositive(ds, |stock|, ref);
    }
    assert forall i | 0 <= i < |stock| :: stock[i] in stock;
  }

  /** A placement that fails before its save gives back exactly what it took. */
  lemma RollbackKeeps(shop: Shop, i: nat, catalog: Catalog)
    requires ShopOk(shop, catalog) && i < |shop.placings|
    ensures Keeps(shop, Rollback(shop, i), catalog, NoGain(|shop.stock|))
    ensures forall ref: nat | ref < |shop.stock| ::
              Rollback(shop, i).stock[ref] == shop.stock[ref] + Held(shop.placings[i].deducted, ref)
  {
    hide LinesMatch, CancellingsOk, OrdersOk, RestoredOnce, CatalogOk;
    var p := shop.placings[i];
    var after := Rollback(shop, i);
    var ended := p.(deducted := [], step := Ended(false));
    assert p in shop.placings && PlacingOk(p, |shop.stock|, catalog);
    RestoreReversedGivesBack(shop.stock, p.deducted);
    GivingBackStaysInStock(shop.stock, p.deducted);
    PlacingsOkMove(shop.placings, i, ended, shop.orders, |shop.stock|, catalog);
    forall ref: nat | ref < |shop.stock|
      ensures Balance(after, ref, catalog) == Balance(shop, ref, catalog)
    {
      InPlacingsUpdate(shop.placings, i, ended, ref);
      assert Held(ended.deducted, ref) == 0;
    }
  }

  /** An item is taken: what leaves the stock is what the placement now holds. */
  lemma TakeItemKeeps(shop: Shop, i: nat, catalog: Catalog)
    requires ShopOk(shop, catalog) && i < |shop.placings| && shop.placings[i].step.FindProduct?
    ensures Keeps(shop, TakeItem(shop, i, catalog), catalog, NoGain(|shop.stock|))
  {
    hide LinesMatch, CancellingsOk, OrdersOk, RestoredOnce, FindUnit, Strip, CatalogOk, InRange;
    var p := shop.placings[i];
    assert p in shop.placings && PlacingOk(p, |shop.stock|, catalog);
    var item := p.items[p.step.next];
    assert item in p.items;
    RollbackKeeps(shop, i, catalog);
    var after := TakeItem(shop, i, catalog);
    if after != Rollback(shop, i) {
      TakenItemKeeps(shop, i, catalog);
    }
  }

  lemma TakenItemKeeps(shop: Shop, i: nat, catalog: Catalog)
    requires ShopOk(shop, catalog) && i < |shop.placings| && shop.placings[i].step.FindProduct?
    requires TakeItem(shop, i, catalog) != Rollback(shop, i)
    ensures Keeps(shop, TakeItem(shop, i, catalog), catalog, NoGain(|shop.stock|))
  {
    hide CancellingsOk, OrdersOk, RestoredOnce, FindUnit, Strip, CatalogOk, FindUnit, SlotsDistinct, Rollback;
    var p := shop.placings[i];
    assert p in shop.placings && PlacingOk(p, |shop.stock|, catalog);
    var item := p.items[p.step.next];
    assert item in p.items;
    LineFindsItsUnit(catalog, |shop.stock|, item.productId, item.skuId);
    var entry := FindUnit(catalog, item.productId, item.skuId).value;
    var d := Deduction(entry.ref, item.quantity);
    var after := TakeItem(shop, i, catalog);
    var q := after.placings[i];
    assert LineMatches(q.lines[|p.lines|], d, catalog);
    assert forall k | 0 <= k < |p.lines| :: LineMatches(p.lines[k], p.deducted[k], catalog);
    assert q.deducted == p.deducted + [d] && after.placings == shop.placings[i := q];
    PlacingsOkMove(shop.placings, i, q, shop.orders, |shop.stock|, catalog);
    assert forall k | 0 <= k < |shop.stock| :: shop.stock[k] in shop.stock;
    forall ref: nat | ref < |shop.stock|
      ensures Balance(after, ref, catalog) == Balance(shop, ref, catalog)
    {
      InPlacingsUpdate(shop.placings, i, q, ref);
      HeldAppend(p.deducted, d, ref);
    }
  }

  lemma NumberKeeps(shop: Shop, i: nat, awaited: Awaited, catalog: Catalog)
    requires ShopOk(shop, catalog) && i < |shop.placings| && shop.placings[i].step.NextOrderId?
    ensures Keeps(shop, ResumePlacingStep(shop, i, awaited, catalog), catalog, NoGain(|shop.stock|))
  {
    hide LinesMatch, CancellingsOk, OrdersOk, RestoredOnce, FindUnit, Strip, CatalogOk, SlotsDistinct, Rollback, InRange, PlacingsOk;
    var p := shop.placings[i];
    if awaited.Raised? {
      RollbackKeeps(shop, i, catalog);
    } else {
      var numbered := shop.(orders := shop.orders + [None]);
      NumberedKeeps(shop, i, p, catalog);
      if CanPlace(p.buyerId, p.lines) {
        NumberedKeeps(shop, i, p.(step := Save(|shop.orders|)), catalog);
      } else {
        assert numbered.placings == shop.placings[i := p];
        RollbackKeeps(numbered, i, catalog);
      }
    }
  }

  lemma NumberedKeeps(shop: Shop, i: nat, q: Placing, catalog: Catalog)
    requires ShopOk(shop, catalog) && i < |shop.placings| && shop.placings[i].step.NextOrderId?
    requires q == shop.placings[i] || (q == shop.placings[i].(step := Save(|shop.orders|)) && q.lines != [])
    ensures Keeps(shop, shop.(orders := shop.orders + [None], placings := shop.placings[i := q]), catalog, NoGain(|shop.stock|))
  {
    hide LinesMatch, CancellingsOk, RestoredOnce, CatalogOk, SlotsDistinct;
    var p := shop.placings[i];
    assert p in shop.placings && PlacingOk(p, |shop.stock|, catalog);
    var after := shop.(orders := shop.orders + [None], placings := shop.placings[i := q]);
    PlacingsOkNumber(shop.placings, i, q, shop.orders, |shop.stock|, catalog);
    CancellingsOkGrow(shop.cancellings, shop.orders, after.orders, |shop.stock|, catalog);
    RestoredOnceNumber(shop.orders, shop.restores);
    forall ref: nat | ref < |shop.stock|
      ensures Balance(after, ref, catalog) == Balance(shop, ref, catalog)
    {
      InOrdersAppend(shop.orders, ref, catalog);
      InPlacingsUpdate(shop.placings, i, q, ref);
    }
  }

  /** What a save that raises after storing adds: the placement's pieces are given back and yet ordered. */
  function SaveGain(p: Placing, awaited: Awaited, units: nat): seq<int> {
    seq(units, ref requires 0 <= ref < units => if p.step.Save? && awaited.Raised? && awaited.stored then Held(p.deducted, ref) else 0)
  }

  function Stored(shop: Shop, i: nat, placed: bool): Shop
    requires i < |shop.placings| && shop.placings[i].step.Save? && shop.placings[i].step.number < |shop.orders|
  {
    var p := shop.placings[i];
    EndPlacing(shop.(orders := shop.orders[p.step.number := Some(Order(Strip(p.buyerId), p.lines, Confirmed))]), i, shop.stock, placed)
  }

  lemma OrderOfPlacingIsOk(p: Placing, units: nat, catalog: Catalog)
    requires PlacingOk(p, units, catalog) && p.step.Save?
    ensures OrderOk(Some(Order(Strip(p.buyerId), p.lines, Confirmed)), catalog)
  {
    hide FindUnit, Strip;
    forall line <- p.lines ensures Resolvable(line, catalog) {
      var k :| 0 <= k < |p.lines| && p.lines[k] == line;
      assert LineMatches(p.lines[k], p.deducted[k], catalog);
    }
  }

  lemma StoredKeeps(shop: Shop, i: nat, placed: bool, catalog: Catalog)
    requires ShopOk(shop, catalog) && i < |shop.placings| && shop.placings[i].step.Save?
    ensures shop.placings[i].step.number < |shop.orders|
    ensures Keeps(shop, Stored(shop, i, placed), catalog, NoGain(|shop.stock|))
  {
    hide LinesMatch, CancellingsOk, RestoredOnce, CatalogOk, SlotsDistinct, OrdersOk, Strip;
    var p := shop.placings[i];
    assert p in shop.placings && PlacingOk(p, |shop.stock|, catalog) && SlotIsFree(p.step, shop.orders);
    var number := p.step.number;
    var order := Order(Strip(p.buyerId), p.lines, Confirmed);
    var ended := p.(deducted := [], step := Ended(placed));
    var after := Stored(shop, i, placed);
    assert after.placings == shop.placings[i := ended] && after.orders == shop.orders[number := Some(order)];
    PlacingsOkStore(shop.placings, i, ended, shop.orders, order, |shop.stock|, catalog);
    CancellingsOkGrow(shop.cancellings, shop.orders, after.orders, |shop.stock|, catalog);
    OrderOfPlacingIsOk(p, |shop.stock|, catalog);
    OrdersOkUpdate(shop.orders, number, order, catalog);
    RestoredOnceStore(shop.orders, number, order, shop.restores);
    forall ref: nat | ref < |shop.stock|
      ensures Balance(after, ref, catalog) == Balance(shop, ref, catalog)
    {
      InOrdersUpdate(shop.orders, number, Some(order), ref, catalog);
      InPlacingsUpdate(shop.placings, i, ended, ref);
      MatchingLinesHoldTheSame(p.lines, p.deducted, ref, catalog);
    }
  }

  lemma SaveKeeps(shop: Shop, i: nat, awaited: Awaited, catalog: Catalog)
    requires ShopOk(shop, catalog) && i < |shop.placings| && shop.placings[i].step.Save?
    ensures Keeps(shop, ResumePlacingStep(shop, i, awaited, catalog), catalog, SaveGain(shop.placings[i], awaited, |shop.stock|))
  {
    hide LinesMatch, CancellingsOk, RestoredOnce, CatalogOk, SlotsDistinct, OrdersOk, Strip, PlacingsOk, InRange;
    var p := shop.placings[i];
    StoredKeeps(shop, i, awaited.Returned?, catalog);
    var after := ResumePlacingStep(shop, i, awaited, catalog);
    if awaited.Returned? {
      assert after == Stored(shop, i, true);
    } else if !awaited.stored {
      RollbackKeeps(shop, i, catalog);
    } else {
      var stored := Stored(shop, i, false);
      RollbackKeeps(shop, i, catalog);
      assert after == stored.(stock := Rollback(shop, i).stock);
      forall ref: nat | ref < |shop.stock|
        ensures Balance(after, ref, catalog) == Balance(shop, ref, catalog) + Held(p.deducted, ref)
      {
        assert Balance(stored, ref, catalog) == Balance(shop, ref, catalog);
      }
    }
  }

  lemma PlacingStepKeeps(shop: Shop, i: nat, awaited: Awaited, catalog: Catalog)
    requires ShopOk(shop, catalog) && i < |shop.placings|
    ensures Keeps(shop, ResumePlacingStep(shop, i, awaited, catalog), catalog, SaveGain(shop.placings[i], awaited, |shop.stock|))
  {
    hide ShopOk, Balance, TakeItem, Rollback, CanPlace, EndPlacing, Held;
    var p := shop.placings[i];
    assert !p.step.Save? ==> SaveGain(p, awaited, |shop.stock|) == NoGain(|shop.stock|);
    match p.step
    case FindProduct(_) =>
      if awaited.Raised? { RollbackKeeps(shop, i, catalog); } else { TakeItemKeeps(shop, i, catalog); }
    case NextOrderId => NumberKeeps(shop, i, awaited, catalog);
    case Save(_) => SaveKeeps(shop, i, awaited, catalog);
    case Ended(_) =>
  }

  lemma PlaceKeeps(shop: Shop, buyerId: string, country: string, items: seq<Item>, catalog: Catalog)
    requires ShopOk(shop, catalog)
    ensures Keeps(shop, ApplyShop(shop, Place(buyerId, country, items), catalog), catalog, NoGain(|shop.stock|))
  {
    hide CancellingsOk, OrdersOk, RestoredOnce, CatalogOk, Strip, Stripped;
    var after := ApplyShop(shop, Place(buyerId, country, items), catalog);
    if after != shop {
      var p := Placing(Strip(buyerId), country, NormalItems(items), [], [], FindProduct(0));
      assert after.placings == shop.placings + [p];
      forall item <- p.items ensures Stripped(item.productId) {
        var k :| 0 <= k < |items| && p.items[k] == item;
        StripIsStripped(items[k].productId);
      }
      assert PlacingOk(p, |shop.stock|, catalog);
      assert forall q <- after.placings :: q == p || q in shop.placings;
      forall ref: nat | ref < |shop.stock| ensures Balance(after, ref, catalog) == Balance(shop, ref, catalog) {
        InPlacingsAppend(shop.placings, p, ref);
      }
    }
  }

  // ---------------------------------------------------------------- cancelling

  lemma CancellingMovesKeep(shop: Shop, i: nat, c: Cancelling, catalog: Catalog)
    requires ShopOk(shop, catalog) && i < |shop.cancellings|
    requires CancellingOk(c, shop.orders, |shop.stock|, catalog)
    ensures Keeps(shop, shop.(cancellings := shop.cancellings[i := c]), catalog, NoGain(|shop.stock|))
  {
    hide CancellingOk, PlacingsOk, OrdersOk, RestoredOnce, CatalogOk;
    forall d <- shop.cancellings[i := c] ensures CancellingOk(d, shop.orders, |shop.stock|, catalog) {
      assert d == c || d in shop.cancellings;
    }
  }

  /** Every line of the order is resolved: the units it was deducted from are about to be restored. */
  predicate FullyResolved(c: Cancelling, orders: seq<Option<Order>>, units: nat, catalog: Catalog) {
    && c.number < |orders| && orders[c.number].Some?
    && LinesMatch(orders[c.number].value.lines, c.toRestore, catalog)
    && InRange(c.toRestore, units)
  }

  /** The stored order cancelled and its lines restored, with the cancellation awaiting its save. */
  function WithCancelled(shop: Shop, i: nat): Shop
    requires i < |shop.cancellings| && shop.cancellings[i].number < |shop.orders| && shop.orders[shop.cancellings[i].number].Some?
  {
    var c := shop.cancellings[i];
    shop.(orders := shop.orders[c.number := Some(shop.orders[c.number].value.(status := Cancelled))],
          stock := RestoreAll(shop.stock, c.toRestore),
          restores := shop.restores + [c.number],
          cancellings := shop.cancellings[i := c.(step := SaveCancelled)])
  }

  /** Cancelling restores to each unit exactly what the order holds of it. */
  lemma CancelRestoresTheOrder(shop: Shop, i: nat, catalog: Catalog)
    requires i < |shop.cancellings| && FullyResolved(shop.cancellings[i], shop.orders, |shop.stock|, catalog)
    requires shop.orders[shop.cancellings[i].number].value.status == Confirmed
    ensures |WithCancelled(shop, i).stock| == |shop.stock|
    ensures forall ref: nat | ref < |shop.stock| ::
              && WithCancelled(shop, i).stock[ref] ==
                 shop.stock[ref] + Ordered(shop.orders[shop.cancellings[i].number].value.lines, ref, catalog)
              && Balance(WithCancelled(shop, i), ref, catalog) == Balance(shop, ref, catalog)
  {
    hide LinesMatch;
    var c := shop.cancellings[i];
    var order := shop.orders[c.number].value;
    var cancelled := order.(status := Cancelled);
    RestoreAllGivesBack(shop.stock, c.toRestore);
    forall ref: nat | ref < |shop.stock|
      ensures Balance(WithCancelled(shop, i), ref, catalog) == Balance(shop, ref, catalog)
      ensures WithCancelled(shop, i).stock[ref] == shop.stock[ref] + Ordered(order.lines, ref, catalog)
    {
      InOrdersUpdate(shop.orders, c.number, Some(cancelled), ref, catalog);
      MatchingLinesHoldTheSame(order.lines, c.toRestore, ref, catalog);
    }
  }

  lemma CancelKeepsOk(shop: Shop, i: nat, catalog: Catalog)
    requires ShopOk(shop, catalog)
    requires i < |shop.cancellings| && FullyResolved(shop.cancellings[i], shop.orders, |shop.stock|, catalog)
    requires shop.orders[shop.cancellings[i].number].value.status == Confirmed
    ensures ShopOk(WithCancelled(shop, i), catalog)
  {
    hide PlacingOk, SlotsDistinct, RestoredOnce, CatalogOk, LinesMatch, OrdersOk, CancellingsOk;
    var c := shop.cancellings[i];
    var after := WithCancelled(shop, i);
    var cancelled := shop.orders[c.number].value.(status := Cancelled);
    OrdersOkAt(shop.orders, c.number, catalog);
    OrdersOkUpdate(shop.orders, c.number, cancelled, catalog);
    CancellingsOkSaved(shop.cancellings, i, shop.orders, |shop.stock|, catalog);
    CancellingsOkGrow(after.cancellings, shop.orders, after.orders, |shop.stock|, catalog);
    RestoredOnceCancel(shop.orders, c.number, shop.restores);
    RestoreAllGivesBack(shop.stock, c.toRestore);
    GivingBackStaysInStock(shop.stock, c.toRestore);
    PlacingsOkSlots(shop.placings, shop.orders, after.orders, |shop.stock|, catalog);
  }

  lemma OrdersOkAt(orders: seq<Option<Order>>, i: nat, catalog: Catalog)
    requires OrdersOk(orders, catalog) && i < |orders|
    ensures OrderOk(orders[i], catalog)
  {
    assert orders[i] in orders;
  }

  lemma CancellingsOkSaved(cs: seq<Cancelling>, i: nat, orders: seq<Option<Order>>, units: nat, catalog: Catalog)
    requires i < |cs| && CancellingsOk(cs, orders, units, catalog)
    ensures CancellingsOk(cs[i := cs[i].(step := SaveCancelled)], orders, units, catalog)
  {
    hide LinesMatch, InRange;
    var saved := cs[i := cs[i].(step := SaveCancelled)];
    forall c <- saved ensures CancellingOk(c, orders, units, catalog) {
      assert c == saved[i] || c in cs;
    }
  }

  lemma PlacingsOkSlots(placings: seq<Placing>, before: seq<Option<Order>>, after: seq<Option<Order>>, units: nat, catalog: Catalog)
    requires PlacingsOk(placings, before, units, catalog)
    requires |before| == |after| && forall i | 0 <= i < |before| :: before[i].None? ==> after[i].None?
    ensures PlacingsOk(placings, after, units, catalog)
  {
    hide PlacingOk;
  }

  lemma CancelAndRestoreKeeps(shop: Shop, i: nat, catalog: Catalog)
    requires ShopOk(shop, catalog)
    requires i < |shop.cancellings| && FullyResolved(shop.cancellings[i], shop.orders, |shop.stock|, catalog)
    ensures Keeps(shop, CancelAndRestore(shop, i), catalog, NoGain(|shop.stock|))
  {
    hide ShopOk, Balance, FullyResolved, RestoreAll, Strip;
    var c := shop.cancellings[i];
    FullyResolvedIsStored(c, shop.orders, |shop.stock|, catalog);
    if shop.orders[c.number].value.status != Confirmed || Strip(c.reason) == [] {
      CancellingMovesKeep(shop, i, c.(step := Stopped), catalog);
    } else {
      CancelRestoresTheOrder(shop, i, catalog);
      CancelKeepsOk(shop, i, catalog);
      assert CancelAndRestore(shop, i) == WithCancelled(shop, i);
    }
  }

  lemma FullyResolvedIsStored(c: Cancelling, orders: seq<Option<Order>>, units: nat, catalog: Catalog)
    requires FullyResolved(c, orders, units, catalog)
    ensures c.number < |orders| && orders[c.number].Some?
  {
  }

  /** One more product found: the cancellation's list grows by that line's unit. */
  function WithResolved(shop: Shop, i: nat, entry: SkuEntry, quantity: int): Shop
    requires i < |shop.cancellings| && shop.cancellings[i].step.FindLineProduct?
  {
    var c := shop.cancellings[i];
    shop.(cancellings := shop.cancellings[i :=
      c.(toRestore := c.toRestore + [Deduction(entry.ref, quantity)], step := FindLineProduct(c.step.next + 1))])
  }

  lemma ResolvingKeeps(shop: Shop, i: nat, catalog: Catalog)
    requires ShopOk(shop, catalog) && i < |shop.cancellings| && shop.cancellings[i].step.FindLineProduct?
    requires shop.cancellings[i].number < |shop.orders| && shop.orders[shop.cancellings[i].number].Some?
    requires shop.cancellings[i].step.next < |shop.orders[shop.cancellings[i].number].value.lines|
    ensures var c := shop.cancellings[i];
            var lines := shop.orders[c.number].value.lines;
            var entry := FindUnit(catalog, lines[c.step.next].productId, lines[c.step.next].skuId);
            && entry.Some?
            && var resolved := WithResolved(shop, i, entry.value, lines[c.step.next].quantity);
              && Keeps(shop, resolved, catalog, NoGain(|shop.stock|))
              && (c.step.next + 1 == |lines| ==> FullyResolved(resolved.cancellings[i], shop.orders, |shop.stock|, catalog))
  {
    hide PlacingsOk, RestoredOnce, InStock, Balance, FirstSku, Strip, Keeps, FindUnit;
    var c := shop.cancellings[i];
    assert c in shop.cancellings && CancellingOk(c, shop.orders, |shop.stock|, catalog);
    var lines := shop.orders[c.number].value.lines;
    var line := lines[c.step.next];
    OrdersOkAt(shop.orders, c.number, catalog);
    assert line in lines && Resolvable(line, catalog);
    UnitsExist(catalog, |shop.stock|, line.productId, line.skuId);
    var entry := FindUnit(catalog, line.productId, line.skuId).value;
    var resolved := WithResolved(shop, i, entry, line.quantity);
    var d := resolved.cancellings[i];
    assert lines[..c.step.next + 1] == lines[..c.step.next] + [line];
    assert LineMatches(line, d.toRestore[c.step.next], catalog);
    assert LinesMatch(lines[..c.step.next + 1], d.toRestore, catalog);
    if c.step.next + 1 == |lines| {
      assert lines[..c.step.next + 1] == lines;
    }
    CancellingMovesKeep(shop, i, d, catalog);
  }

  lemma UnitsExist(catalog: Catalog, units: nat, productId: string, skuId: string)
    requires CatalogOk(catalog, units) && FindUnit(catalog, productId, skuId).Some?
    ensures FindUnit(catalog, productId, skuId).value.ref < units
  {
    hide Strip;
    FirstSkuIsFirst(catalog[productId].skus, Strip(skuId));
  }

  lemma CancellingStepKeeps(shop: Shop, i: nat, awaited: Awaited, catalog: Catalog)
    requires ShopOk(shop, catalog) && i < |shop.cancellings|
    ensures Keeps(shop, ResumeCancellingStep(shop, i, awaited, catalog), catalog, NoGain(|shop.stock|))
  {
    hide PlacingsOk, RestoredOnce, InStock, Balance, FindUnit, Strip, OrdersOk, LinesMatch, InRange, CatalogOk, CancelAndRestore;
    var c := shop.cancellings[i];
    assert c in shop.cancellings && CancellingOk(c, shop.orders, |shop.stock|, catalog);
    CancellingMovesKeep(shop, i, c.(step := Stopped), catalog);
    var after := ResumeCancellingStep(shop, i, awaited, catalog);
    if !c.step.Stopped? && after != MoveCancelling(shop, i, Stopped) {
      var order := shop.orders[c.number].value;
      if c.step.LoadOrder? {
        assert order.lines != [] by { OrdersOkAt(shop.orders, c.number, catalog); }
        assert LinesMatch(order.lines[..0], [], catalog) by { LinesMatchNothing(order.lines, catalog); }
        assert InRange([], |shop.stock|) by { LinesMatchNothing(order.lines, catalog); }
        CancellingMovesKeep(shop, i, c.(step := FindLineProduct(0)), catalog);
      } else if c.step.next < |order.lines| {
        ResolvingKeeps(shop, i, catalog);
        var line := order.lines[c.step.next];
        var resolved := WithResolved(shop, i, FindUnit(catalog, line.productId, line.skuId).value, line.quantity);
        if c.step.next + 1 == |order.lines| {
          CancelAndRestoreKeeps(resolved, i, catalog);
          assert after == CancelAndRestore(resolved, i);
        } else {
          assert after == resolved;
        }
      }
    }
  }

  lemma LinesMatchNothing(lines: seq<OrderLine>, catalog: Catalog)
    ensures LinesMatch(lines[..0], [], catalog) && InRange([], 0) && forall units: nat :: InRange([], units)
  {
  }

  // ---------------------------------------------------------------- every run

  /** What one action adds to each unit's balance: nothing, unless a save raises after storing its order. */
  function ActionGain(shop: Shop, a: ShopAction): seq<int> {
    if a.ResumePlacing? && a.index < |shop.placings|
    then SaveGain(shop.placings[a.index], a.awaited, |shop.stock|)
    else NoGain(|shop.stock|)
  }

  lemma ActionKeeps(shop: Shop, a: ShopAction, catalog: Catalog)
    requires ShopOk(shop, catalog)
    ensures Keeps(shop, ApplyShop(shop, a, catalog), catalog, ActionGain(shop, a))
  {
    hide ShopOk, Balance, ResumePlacingStep, ResumeCancellingStep, SaveGain, Strip;
    match a
    case Place(buyerId, country, items) => PlaceKeeps(shop, buyerId, country, items, catalog);
    case ResumePlacing(i, awaited) => if i < |shop.placings| { PlacingStepKeeps(shop, i, awaited, catalog); }
    case Cancel(number, buyerId, reason) => CancelStartKeeps(shop, number, buyerId, reason, catalog);
    case ResumeCancelling(i, awaited) => if i < |shop.cancellings| { CancellingStepKeeps(shop, i, awaited, catalog); }
  }

  lemma CancelStartKeeps(shop: Shop, number: nat, buyerId: string, reason: string, catalog: Catalog)
    requires ShopOk(shop, catalog)
    ensures Keeps(shop, ApplyShop(shop, Cancel(number, buyerId, reason), catalog), catalog, NoGain(|shop.stock|))
  {
    hide PlacingsOk, RestoredOnce, InStock, Strip, OrdersOk, LinesMatch, InRange, CatalogOk;
    var after := ApplyShop(shop, Cancel(number, buyerId, reason), catalog);
    forall c <- after.cancellings ensures CancellingOk(c, shop.orders, |shop.stock|, catalog) {
      assert c in shop.cancellings || c == Cancelling(number, Strip(buyerId), Strip(reason), [], LoadOrder);
    }
  }

  /** What the saves that raise after storing add to a unit over a run. */
  function TotalGain(shop: Shop, trace: seq<ShopAction>, ref: Ref, catalog: Catalog): int
    decreases |trace|
  {
    if trace == [] then 0
    else
      var last := |trace| - 1;
      var gain := ActionGain(RunShop(shop, trace[..last], catalog), trace[last]);
      TotalGain(shop, trace[..last], ref, catalog) + if ref < |gain| then gain[ref] else 0
  }

  lemma {:induction false} RunKeeps(shop: Shop, trace: seq<ShopAction>, catalog: Catalog)
    requires ShopOk(shop, catalog)
    ensures var after := RunShop(shop, trace, catalog);
            && ShopOk(after, catalog)
            && |after.stock| == |shop.stock|
            && forall ref: nat | ref < |shop.stock| ::
              Balance(after, ref, catalog) == Balance(shop, ref, catalog) + TotalGain(shop, trace, ref, catalog)
    decreases |trace|
  {
    hide ShopOk, Balance, ApplyShop, ActionGain;
    if trace != [] {
      var last := |trace| - 1;
      RunKeeps(shop, trace[..last], catalog);
      ActionKeeps(RunShop(shop, trace[..last], catalog), trace[last], catalog);
    }
  }

  /** The save of an order raises although the repository has stored the order. */
  predicate RaisesAfterStoring(shop: Shop, a: ShopAction) {
    && a.ResumePlacing? && a.index < |shop.placings| && shop.placings[a.index].step.Save?
    && a.awaited == Raised(true)
  }

  predicate SavesAreAtomic(shop: Shop, trace: seq<ShopAction>, catalog: Catalog)
    decreases |trace|
  {
    trace == [] ||
    (&& SavesAreAtomic(shop, trace[..|trace| - 1], catalog)
     && !RaisesAfterStoring(RunShop(shop, trace[..|trace| - 1], catalog), trace[|trace| - 1]))
  }

  lemma GainsAreNotNegative(shop: Shop, a: ShopAction, catalog: Catalog)
    requires ShopOk(shop, catalog)
    ensures |ActionGain(shop, a)| == |shop.stock|
    ensures forall ref: nat | ref < |shop.stock| :: ActionGain(shop, a)[ref] >= 0
    ensures !RaisesAfterStoring(shop, a) ==> ActionGain(shop, a) == NoGain(|shop.stock|)
    ensures RaisesAfterStoring(shop, a) ==> exists ref: nat :: ref < |shop.stock| && ActionGain(shop, a)[ref] > 0
  {
    hide CancellingsOk, OrdersOk, RestoredOnce, CatalogOk;
    if a.ResumePlacing? && a.index < |shop.placings| {
      var p := shop.placings[a.index];
      assert p in shop.placings && PlacingOk(p, |shop.stock|, catalog);
      forall ref: nat | ref < |shop.stock| ensures Held(p.deducted, ref) >= 0 {
        HeldIsPositive(p.deducted, |shop.stock|, ref);
      }
      if RaisesAfterStoring(shop, a) {
        var d := p.deducted[0];
        assert d in p.deducted;
        HeldIsPositive(p.deducted, |shop.stock|, d.ref);
        assert ActionGain(shop, a)[d.ref] > 0;
      }
    }
  }

  lemma {:induction false} TotalGainIsNotNegative(shop: Shop, trace: seq<ShopAction>, ref: Ref, catalog: Catalog)
    requires ShopOk(shop, catalog) && ref < |shop.stock|
    ensures TotalGain(shop, trace, ref, catalog) >= 0
    ensures SavesAreAtomic(shop, trace, catalog) ==> TotalGain(shop, trace, ref, catalog) == 0
    decreases |trace|
  {
    hide ShopOk, ActionGain, RaisesAfterStoring, RunShop;
    if trace != [] {
      var last := |trace| - 1;
      TotalGainIsNotNegative(shop, trace[..last], ref, catalog);
      RunKeeps(shop, trace[..last], catalog);
      GainsAreNotNegative(RunShop(shop, trace[..last], catalog), trace[last], catalog);
    }
  }

  lemma {:induction false} SomeUnitGains(shop: Shop, trace: seq<ShopAction>, catalog: Catalog) returns (ref: nat)
    requires ShopOk(shop, catalog) && !SavesAreAtomic(shop, trace, catalog)
    ensures ref < |shop.stock| && TotalGain(shop, trace, ref, catalog) > 0
    decreases |trace|
  {
    hide ShopOk, ActionGain, RaisesAfterStoring, RunShop;
    var last := |trace| - 1;
    var before := RunShop(shop, trace[..last], catalog);
    RunKeeps(shop, trace[..last], catalog);
    GainsAreNotNegative(before, trace[last], catalog);
    if SavesAreAtomic(shop, trace[..last], catalog) {
      var gain := ActionGain(before, trace[last]);
      ref :| ref < |shop.stock| && gain[ref] > 0;
      TotalGainIsNotNegative(shop, trace[..last], ref, catalog);
    } else {
      ref := SomeUnitGains(shop, trace[..last], catalog);
    }
  }

  /** A shop before its first order. */
  function OpenShop(stock: seq<int>): Shop {
    Shop(stock, [], [], [], [])
  }

  predicate Conserved(stock: seq<int>, shop: Shop, catalog: Catalog) {
    && |shop.stock| == |stock|
    && forall ref | 0 <= ref < |stock| :: shop.stock[ref] + InOrders(shop.orders, ref, catalog) + InPlacings(shop.placings, ref) == stock[ref]
  }

  /** Over every interleaving of placements and cancellations, stock never goes below zero, and no piece
      of any unit is lost or made up exactly when no save raised after it had stored its order. */
  lemma StockIsConserved(stock: seq<int>, trace: seq<ShopAction>, catalog: Catalog)
    requires InStock(stock) && CatalogOk(catalog, |stock|)
    ensures var shop := RunShop(OpenShop(stock), trace, catalog);
            && InStock(shop.stock)
            && (Conserved(stock, shop, catalog) <==> SavesAreAtomic(OpenShop(stock), trace, catalog))
  {
    hide RunShop, SavesAreAtomic, TotalGain, InOrders, InPlacings;
    var open := OpenShop(stock);
    OpenShopIsOk(stock, catalog);
    RunKeeps(open, trace, catalog);
    var shop := RunShop(open, trace, catalog);
    forall ref: nat | ref < |stock|
      ensures Balance(shop, ref, catalog) == stock[ref] + TotalGain(open, trace, ref, catalog)
      ensures SavesAreAtomic(open, trace, catalog) ==> Balance(shop, ref, catalog) == stock[ref]
    {
      NothingOrdered(stock, ref, catalog);
      TotalGainIsNotNegative(open, trace, ref, catalog);
    }
    if SavesAreAtomic(open, trace, catalog) {
      assert forall ref | 0 <= ref < |stock| :: Balance(shop, ref, catalog) == stock[ref];
    } else {
      var ref := SomeUnitGains(open, trace, catalog);
      assert Balance(shop, ref, catalog) != stock[ref];
    }
  }

  lemma NothingOrdered(stock: seq<int>, ref: Ref, catalog: Catalog)
    requires ref < |stock|
    ensures Balance(OpenShop(stock), ref, catalog) == stock[ref]
  {
  }

  /** The cancelled orders are those whose lines were put back, each order once. */
  lemma EveryCancelledOrderIsRestoredOnce(stock: seq<int>, trace: seq<ShopAction>, catalog: Catalog)
    requires InStock(stock) && CatalogOk(catalog, |stock|)
    ensures var shop := RunShop(OpenShop(stock), trace, catalog);
            && (forall number: nat :: number in shop.restores <==> IsCancelled(shop.orders, number))
            && (forall i, j | 0 <= i < j < |shop.restores| :: shop.restores[i] != shop.restores[j])
  {
    hide RunShop;
    RunKeeps(OpenShop(stock), trace, catalog);
  }

  // ---------------------------------------------------------------- one placement's account

  /** What a placement owes the stock: its deductions while it runs, its lines once placed, nothing once failed. */
  function Owes(placings: seq<Placing>, i: nat, ref: Ref, catalog: Catalog): int {
    if i >= |placings| then 0
    else match placings[i].step
      case Ended(placed) => if placed then Ordered(placings[i].lines, ref, catalog) else 0
      case _ => Held(placings[i].deducted, ref)
  }

  /** What the steps of placement `i` took from unit `ref`. */
  function TakenBy(shop: Shop, trace: seq<ShopAction>, i: nat, ref: Ref, catalog: Catalog): int
    decreases |trace|
  {
    if trace == [] then 0
    else
      var last := |trace| - 1;
      var before := RunShop(shop, trace[..last], catalog);
      var after := ApplyShop(before, trace[last], catalog);
      TakenBy(shop, trace[..last], i, ref, catalog) +
      if trace[last].ResumePlacing? && trace[last].index == i && ref < |before.stock| && ref < |after.stock|
      then before.stock[ref] - after.stock[ref] else 0
  }

  lemma RollbackTakesBack(shop: Shop, i: nat, ref: Ref, catalog: Catalog)
    requires ShopOk(shop, catalog) && i < |shop.placings| && ref < |shop.stock| && !shop.placings[i].step.Ended?
    ensures var after := Rollback(shop, i);
            && |after.stock| == |shop.stock|
            && shop.stock[ref] - after.stock[ref] == Owes(after.placings, i, ref, catalog) - Owes(shop.placings, i, ref, catalog)
  {
    RollbackKeeps(shop, i, catalog);
    hide ShopOk, Balance, RestoreReversed;
  }

  lemma TakingTakes(shop: Shop, i: nat, ref: Ref, catalog: Catalog)
    requires ShopOk(shop, catalog) && i < |shop.placings| && ref < |shop.stock| && shop.placings[i].step.FindProduct?
    ensures var after := TakeItem(shop, i, catalog);
            && |after.stock| == |shop.stock|
            && shop.stock[ref] - after.stock[ref] == Owes(after.placings, i, ref, catalog) - Owes(shop.placings, i, ref, catalog)
  {
    hide FindUnit, Strip, ShopOk, Rollback;
    if TakeItem(shop, i, catalog) == Rollback(shop, i) {
      RollbackTakesBack(shop, i, ref, catalog);
    } else {
      var p := shop.placings[i];
      if p.step.next < |p.items| {
        var item := p.items[p.step.next];
        HeldAppend(p.deducted, Deduction(FindUnit(catalog, item.productId, item.skuId).value.ref, item.quantity), ref);
      }
    }
  }

  lemma NumberTakes(shop: Shop, i: nat, awaited: Awaited, ref: Ref, catalog: Catalog)
    requires ShopOk(shop, catalog) && i < |shop.placings| && ref < |shop.stock|
    requires shop.placings[i].step.NextOrderId? || shop.placings[i].step.Save?
    ensures var after := ResumePlacingStep(shop, i, awaited, catalog);
            && |after.stock| == |shop.stock|
            && shop.stock[ref] - after.stock[ref] == Owes(after.placings, i, ref, catalog) - Owes(shop.placings, i, ref, catalog)
  {
    var p := shop.placings[i];
    assert p in shop.placings && PlacingOk(p, |shop.stock|, catalog);
    MatchingLinesHoldTheSame(p.lines, p.deducted, ref, catalog);
    RollbackTakesBack(shop, i, ref, catalog);
    hide ShopOk, Strip, CanPlace, RestoreReversed, Held, Ordered;
    var after := ResumePlacingStep(shop, i, awaited, catalog);
    if !(p.step.Save? && awaited.Returned?) && !after.placings[i].step.Save? {
      assert after.stock == Rollback(shop, i).stock && after.placings == Rollback(shop, i).placings;
    }
  }

  lemma PlacingStepTakes(shop: Shop, i: nat, awaited: Awaited, ref: Ref, catalog: Catalog)
    requires ShopOk(shop, catalog) && i < |shop.placings| && ref < |shop.stock|
    ensures var after := ResumePlacingStep(shop, i, awaited, catalog);
            && |after.stock| == |shop.stock|
            && shop.stock[ref] - after.stock[ref] == Owes(after.placings, i, ref, catalog) - Owes(shop.placings, i, ref, catalog)
  {
    hide ShopOk, TakeItem, Rollback, CanPlace, EndPlacing, Owes, Strip;
    match shop.placings[i].step
    case FindProduct(_) =>
      if awaited.Raised? { RollbackTakesBack(shop, i, ref, catalog); } else { TakingTakes(shop, i, ref, catalog); }
    case NextOrderId => NumberTakes(shop, i, awaited, ref, catalog);
    case Save(_) => NumberTakes(shop, i, awaited, ref, catalog);
    case Ended(_) =>
  }

  lemma OthersOweTheSame(shop: Shop, a: ShopAction, i: nat, ref: Ref, catalog: Catalog)
    requires !(a.ResumePlacing? && a.index == i)
    ensures Owes(ApplyShop(shop, a, catalog).placings, i, ref, catalog) == Owes(shop.placings, i, ref, catalog)
  {
    hide FindUnit, Strip, CanPlace, RestoreAll, RestoreReversed;
    var after := ApplyShop(shop, a, catalog);
    if a.Place? && |after.placings| > |shop.placings| == i {
      assert after.placings[i].deducted == [];
    } else if a.ResumePlacing? {
      assert i < |shop.placings| ==> after.placings[i] == shop.placings[i];
    }
  }

  /** Whatever else happens in between, the steps of one placement together take from each unit exactly
      what it holds; nothing if it failed, and its order's lines if it was placed. */
  lemma {:induction false} EachPlacementTakesWhatItOwes(stock: seq<int>, trace: seq<ShopAction>, i: nat, ref: Ref, catalog: Catalog)
    requires InStock(stock) && CatalogOk(catalog, |stock|) && ref < |stock|
    ensures var shop := RunShop(OpenShop(stock), trace, catalog);
            TakenBy(OpenShop(stock), trace, i, ref, catalog) == Owes(shop.placings, i, ref, catalog)
    decreases |trace|
  {
    hide ShopOk, ApplyShop, Owes;
    if trace == [] {
      assert Owes([], i, ref, catalog) == 0 by { NobodyOwesNothing(i, ref, catalog); }
    } else {
      var last := |trace| - 1;
      EachPlacementTakesWhatItOwes(stock, trace[..last], i, ref, catalog);
      OpenShopIsOk(stock, catalog);
      RunKeeps(OpenShop(stock), trace[..last], catalog);
      AccountStep(RunShop(OpenShop(stock), trace[..last], catalog), trace[last], i, ref, catalog);
    }
  }

  lemma AccountStep(shop: Shop, a: ShopAction, i: nat, ref: Ref, catalog: Catalog)
    requires ShopOk(shop, catalog) && ref < |shop.stock|
    ensures var after := ApplyShop(shop, a, catalog);
            && |after.stock| == |shop.stock|
            && Owes(after.placings, i, ref, catalog) == Owes(shop.placings, i, ref, catalog) +
              if a.ResumePlacing? && a.index == i then shop.stock[ref] - after.stock[ref] else 0
  {
    ActionKeeps(shop, a, catalog);
    hide ShopOk, Balance, Owes, ResumePlacingStep, ResumeCancellingStep, Strip;
    if a.ResumePlacing? && a.index == i {
      if i < |shop.placings| {
        PlacingStepTakes(shop, i, a.awaited, ref, catalog);
      }
    } else {
      OthersOweTheSame(shop, a, i, ref, catalog);
    }
  }

  lemma NobodyOwesNothing(i: nat, ref: Ref, catalog: Catalog)
    ensures Owes([], i, ref, catalog) == 0
  {
  }

  lemma OpenShopIsOk(stock: seq<int>, catalog: Catalog)
    requires InStock(stock) && CatalogOk(catalog, |stock|)
    ensures ShopOk(OpenShop(stock), catalog)
  {
  }
}
