/** A placement or a cancellation whose awaits all return and which nobody disturbs: when it goes through. */
module UndisturbedRuns {
  import opened Common
  import opened IntentTasks
  import opened Orders
  import opened OrderConservation
  import opened OrderOwners
  import opened PlacedOrders

  // ---------------------------------------------------------------- what a placement needs

  /** The item's product exists, has the unit, and ships to the country. */
  predicate Deliverable(item: Item, country: string, catalog: Catalog) {
    FindUnit(catalog, item.productId, item.skuId).Some? && item.productId in catalog && country in catalog[item.productId].shipsTo
  }

  function CurrencyOf(item: Item, catalog: Catalog): string {
    match FindUnit(catalog, item.productId, item.skuId) case None => "" case Some(entry) => entry.currency
  }

  /** How many pieces of unit `ref` the items ask for. */
  function Needed(items: seq<Item>, ref: Ref, catalog: Catalog): int {
    if items == [] then 0
    else
      var item := items[|items| - 1];
      var entry := FindUnit(catalog, item.productId, item.skuId);
      Needed(items[..|items| - 1], ref, catalog) + if entry.Some? && entry.value.ref == ref then item.quantity else 0
  }

  /** Every item can be delivered, and the stock covers what they ask for together. */
  ghost predicate CanTake(items: seq<Item>, country: string, stock: seq<int>, catalog: Catalog) {
    && (forall item <- items :: Deliverable(item, country, catalog))
    && forall ref: nat | ref < |stock| :: Needed(items, ref, catalog) <= stock[ref]
  }

  predicate SameCurrency(items: seq<Item>, catalog: Catalog) {
    forall item <- items :: CurrencyOf(item, catalog) == CurrencyOf(items[0], catalog)
  }

  lemma NeededNext(items: seq<Item>, k: nat, ref: Ref, catalog: Catalog)
    requires k < |items|
    ensures var entry := FindUnit(catalog, items[k].productId, items[k].skuId);
            Needed(items[..k + 1], ref, catalog) ==
            Needed(items[..k], ref, catalog) + if entry.Some? && entry.value.ref == ref then items[k].quantity else 0
  {
    hide FindUnit;
    assert items[..k + 1][..k] == items[..k];
  }

  /** Only the unit of the next item decides whether one more item can be taken. */
  lemma CanTakeNext(items: seq<Item>, k: nat, country: string, stock: seq<int>, catalog: Catalog)
    requires k < |items| && CatalogOk(catalog, |stock|) && items[k].quantity > 0
    ensures var item := items[k];
            CanTake(items[..k + 1], country, stock, catalog) <==>
            && CanTake(items[..k], country, stock, catalog)
            && Deliverable(item, country, catalog)
            && var ref := FindUnit(catalog, item.productId, item.skuId).value.ref;
               ref < |stock| && Needed(items[..k], ref, catalog) + item.quantity <= stock[ref]
  {
    hide Needed, Deliverable, FindUnit;
    var item := items[k];
    assert items[..k + 1] == items[..k] + [item];
    forall ref: nat | ref < |stock| ensures Needed(items[..k + 1], ref, catalog) >= Needed(items[..k], ref, catalog) {
      NeededNext(items, k, ref, catalog);
    }
    if Deliverable(item, country, catalog) {
      assert FindUnit(catalog, item.productId, item.skuId).Some? by { DeliverableIsFound(item, country, catalog); }
      var ref := FindUnit(catalog, item.productId, item.skuId).value.ref;
      UnitsExist(catalog, |stock|, item.productId, item.skuId);
      NeededNext(items, k, ref, catalog);
      forall other: nat | other < |stock| && other != ref
        ensures Needed(items[..k + 1], other, catalog) == Needed(items[..k], other, catalog)
      {
        NeededNext(items, k, other, catalog);
      }
    }
  }

  lemma DeliverableIsFound(item: Item, country: string, catalog: Catalog)
    requires Deliverable(item, country, catalog)
    ensures FindUnit(catalog, item.productId, item.skuId).Some?
  {
  }

  // ---------------------------------------------------------------- a placement by itself

  /** After `k` items: they are taken, and nothing else has happened. */
  ghost predicate Taking(shop: Shop, i: nat, base: Shop, k: nat, a: ShopAction, catalog: Catalog) {
    && i < |shop.placings| && |shop.stock| == |base.stock| && shop.orders == base.orders
    && var p := shop.placings[i];
       && From(p, a, catalog) && k <= |p.items|
       && p.step == (if k < |p.items| then FindProduct(k) else NextOrderId) && |p.lines| == k
       && (forall j | 0 <= j < k :: p.lines[j].currency == CurrencyOf(p.items[j], catalog))
       && forall ref: nat | ref < |base.stock| ::
            && Held(p.deducted, ref) == Needed(p.items[..k], ref, catalog)
            && shop.stock[ref] == base.stock[ref] - Needed(p.items[..k], ref, catalog)
  }

  /** The placement has failed, and left no trace. */
  ghost predicate Undone(shop: Shop, i: nat, base: Shop) {
    i < |shop.placings| && shop.placings[i].step == Ended(false) && shop.stock == base.stock && shop.orders == base.orders
  }

  lemma GivenUpIsUndone(shop: Shop, i: nat, base: Shop, k: nat, a: ShopAction, catalog: Catalog)
    requires ShopOk(shop, catalog) && Taking(shop, i, base, k, a, catalog)
    ensures Undone(Rollback(shop, i), i, base)
  {
    hide ShopOk, From, Needed, Keeps;
    RollbackKeeps(shop, i, catalog);
    assert |Rollback(shop, i).stock| == |base.stock| by { KeepsUnits(shop, Rollback(shop, i), catalog, NoGain(|shop.stock|)); }
  }

  lemma KeepsUnits(before: Shop, after: Shop, catalog: Catalog, gain: seq<int>)
    requires Keeps(before, after, catalog, gain)
    ensures |after.stock| == |before.stock| && ShopOk(after, catalog)
  {
  }

  /** The shop after one more item was taken. */
  function WithTaken(shop: Shop, i: nat, catalog: Catalog): Shop
    requires i < |shop.placings| && shop.placings[i].step.FindProduct? && shop.placings[i].step.next < |shop.placings[i].items|
    requires FindUnit(catalog, shop.placings[i].items[shop.placings[i].step.next].productId, shop.placings[i].items[shop.placings[i].step.next].skuId).Some?
    requires shop.placings[i].items[shop.placings[i].step.next].productId in catalog
  {
    var p := shop.placings[i];
    var item := p.items[p.step.next];
    var entry := FindUnit(catalog, item.productId, item.skuId).value;
    shop.(stock := Deduct(shop.stock, Deduction(entry.ref, item.quantity)),
          placings := shop.placings[i := WithLine(p, catalog[item.productId], entry, item)])
  }

  /** One more item is taken if that is possible, or else the placement is undone. */
  lemma TakeOne(shop: Shop, i: nat, base: Shop, k: nat, a: ShopAction, catalog: Catalog)
    requires ShopOk(shop, catalog) && Taking(shop, i, base, k, a, catalog)
    requires k < |a.items| && (forall item <- a.items :: ValidItem(item))
    requires CanTake(NormalItems(a.items)[..k], a.country, base.stock, catalog)
    ensures var after := TakeItem(shop, i, catalog);
            if CanTake(NormalItems(a.items)[..k + 1], a.country, base.stock, catalog)
            then Taking(after, i, base, k + 1, a, catalog) else Undone(after, i, base)
  {
    var items := NormalItems(a.items);
    var p, item := shop.placings[i], items[k];
    assert ValidItem(a.items[k]);
    assert p.items == items && CatalogOk(catalog, |base.stock|);
    hide ValidItem, Strip;
    CanTakeNext(items, k, a.country, base.stock, catalog);
    GivenUpIsUndone(shop, i, base, k, a, catalog);
    TakeItemAsked(shop, i, catalog, a);
    hide ShopOk, CanTake, Undone, Rollback, From;
    DeliverableMeans(item, a.country, catalog);
    if Deliverable(item, a.country, catalog) {
      var entry := FindUnit(catalog, item.productId, item.skuId).value;
      var d := Deduction(entry.ref, item.quantity);
      UnitsExist(catalog, |base.stock|, item.productId, item.skuId);
      if CanDeduct(shop.stock, d) {
        assert TakeItem(shop, i, catalog) == WithTaken(shop, i, catalog);
        TakenOne(shop, i, base, k, a, catalog);
      }
    }
  }

  lemma DeliverableMeans(item: Item, country: string, catalog: Catalog)
    ensures Deliverable(item, country, catalog) <==>
            && FindUnit(catalog, item.productId, item.skuId).Some?
            && item.productId in catalog && country in catalog[item.productId].shipsTo
  {
  }

  lemma TakenOne(shop: Shop, i: nat, base: Shop, k: nat, a: ShopAction, catalog: Catalog)
    requires Taking(shop, i, base, k, a, catalog) && k < |shop.placings[i].items|
    requires Deliverable(shop.placings[i].items[k], shop.placings[i].country, catalog)
    requires FindUnit(catalog, shop.placings[i].items[k].productId, shop.placings[i].items[k].skuId).value.ref < |base.stock|
    requires From(WithTaken(shop, i, catalog).placings[i], a, catalog)
    ensures Taking(WithTaken(shop, i, catalog), i, base, k + 1, a, catalog)
  {
    hide FindUnit, Needed, Held, From, Strip;
    var p := shop.placings[i];
    var item := p.items[k];
    var entry := FindUnit(catalog, item.productId, item.skuId).value;
    var q := WithTaken(shop, i, catalog).placings[i];
    forall ref: nat | ref < |base.stock|
      ensures Held(q.deducted, ref) == Needed(p.items[..k + 1], ref, catalog)
      ensures WithTaken(shop, i, catalog).stock[ref] == base.stock[ref] - Needed(p.items[..k + 1], ref, catalog)
    {
      NeededNext(p.items, k, ref, catalog);
      HeldAppend(p.deducted, Deduction(entry.ref, item.quantity), ref);
    }
  }

  function Resumes(i: nat, k: nat): seq<ShopAction> {
    seq(k, _ => ResumePlacing(i, Returned))
  }

  lemma RunOneMore(shop: Shop, i: nat, k: nat, catalog: Catalog)
    ensures RunShop(shop, Resumes(i, k + 1), catalog) ==
            ApplyShop(RunShop(shop, Resumes(i, k), catalog), ResumePlacing(i, Returned), catalog)
  {
    hide ApplyShop;
    assert Resumes(i, k + 1)[..k] == Resumes(i, k);
  }

  predicate ValidRequest(a: ShopAction) {
    a.Place? && Strip(a.buyerId) != [] && a.items != [] && forall item <- a.items :: ValidItem(item)
  }

  lemma StartIsTaking(base: Shop, a: ShopAction, catalog: Catalog)
    requires ShopOk(base, catalog) && ValidRequest(a)
    ensures var started := ApplyShop(base, a, catalog);
            ShopOk(started, catalog) && Taking(started, |base.placings|, base, 0, a, catalog)
    ensures CanTake(NormalItems(a.items)[..0], a.country, base.stock, catalog)
  {
    hide ValidItem, Strip;
    PlaceKeeps(base, a.buyerId, a.country, a.items, catalog);
    KeepsUnits(base, ApplyShop(base, a, catalog), catalog, NoGain(|base.stock|));
    assert NormalItems(a.items)[..0] == [];
    assert forall ref: nat | ref < |base.stock| :: base.stock[ref] in base.stock;
  }

  /** After `k` steps the first `k` items are taken, or the placement is undone. */
  lemma {:induction false} TakeSome(base: Shop, a: ShopAction, k: nat, catalog: Catalog)
    requires ShopOk(base, catalog) && ValidRequest(a) && k <= |a.items|
    ensures var i := |base.placings|;
            var shop := RunShop(ApplyShop(base, a, catalog), Resumes(i, k), catalog);
            && ShopOk(shop, catalog)
            && if CanTake(NormalItems(a.items)[..k], a.country, base.stock, catalog)
               then Taking(shop, i, base, k, a, catalog) else Undone(shop, i, base)
    decreases k
  {
    hide ShopOk, Taking, CanTake, Undone, ApplyShop, ValidRequest;
    var i, started := |base.placings|, ApplyShop(base, a, catalog);
    if k == 0 {
      StartIsTaking(base, a, catalog);
      assert RunShop(started, Resumes(i, 0), catalog) == started;
    } else {
      TakeSome(base, a, k - 1, catalog);
      RunOneMore(started, i, k - 1, catalog);
      SomeStep(RunShop(started, Resumes(i, k - 1), catalog), i, base, k - 1, a, catalog);
    }
  }

  lemma SomeStep(shop: Shop, i: nat, base: Shop, k: nat, a: ShopAction, catalog: Catalog)
    requires ShopOk(base, catalog) && ShopOk(shop, catalog) && ValidRequest(a) && k < |a.items|
    requires if CanTake(NormalItems(a.items)[..k], a.country, base.stock, catalog)
             then Taking(shop, i, base, k, a, catalog) else Undone(shop, i, base)
    ensures var after := ApplyShop(shop, ResumePlacing(i, Returned), catalog);
            && ShopOk(after, catalog)
            && if CanTake(NormalItems(a.items)[..k + 1], a.country, base.stock, catalog)
               then Taking(after, i, base, k + 1, a, catalog) else Undone(after, i, base)
  {
    var items := NormalItems(a.items);
    assert ValidItem(a.items[k]) && CatalogOk(catalog, |base.stock|) && items[k].quantity > 0;
    hide ShopOk, TakeItem, From, Needed, CatalogOk, ValidItem, Strip, Keeps, SaveGain, Deliverable, FindUnit, Held, Rollback, CurrencyOf;
    CanTakeNext(items, k, a.country, base.stock, catalog);
    assert i < |shop.placings|;
    PlacingStepKeeps(shop, i, Returned, catalog);
    KeepsUnits(shop, ResumePlacingStep(shop, i, Returned, catalog), catalog, SaveGain(shop.placings[i], Returned, |shop.stock|));
    if CanTake(items[..k], a.country, base.stock, catalog) {
      TakeOne(shop, i, base, k, a, catalog);
      TakingLooks(shop, i, base, k, a, catalog);
    }
    hide CanTake, ValidRequest;
  }

  lemma TakingLooks(shop: Shop, i: nat, base: Shop, k: nat, a: ShopAction, catalog: Catalog)
    requires Taking(shop, i, base, k, a, catalog) && k < |a.items|
    ensures shop.placings[i].step == FindProduct(k)
  {
  }

  /** The request can be fulfilled from this stock. */
  ghost predicate CanBePlaced(a: ShopAction, stock: seq<int>, catalog: Catalog)
    requires a.Place?
  {
    CanTake(NormalItems(a.items), a.country, stock, catalog) && SameCurrency(NormalItems(a.items), catalog)
  }

  ghost predicate IsOrderFor(order: Order, a: ShopAction, catalog: Catalog)
    requires a.Place?
  {
    && order.status == Confirmed && order.buyerId == Strip(a.buyerId)
    && |order.lines| == |a.items| && AllServe(order.lines, a.items, a.country, catalog)
  }

  /** The shop after the placement went through: one more order, and the stock that it took. */
  ghost predicate WentThrough(base: Shop, after: Shop, i: nat, a: ShopAction, catalog: Catalog)
    requires a.Place?
  {
    && i < |after.placings| && after.placings[i].step == Ended(true)
    && |after.orders| == |base.orders| + 1 && after.orders[..|base.orders|] == base.orders
    && after.orders[|base.orders|].Some? && IsOrderFor(after.orders[|base.orders|].value, a, catalog)
    && |after.stock| == |base.stock|
    && forall ref: nat | ref < |base.stock| :: after.stock[ref] == base.stock[ref] - Needed(NormalItems(a.items), ref, catalog)
  }

  /** The shop after the placement failed: nothing but an unused number may be left. */
  predicate FellThrough(base: Shop, after: Shop, i: nat) {
    && i < |after.placings| && after.placings[i].step == Ended(false) && after.stock == base.stock
    && (after.orders == base.orders || after.orders == base.orders + [None])
  }

  lemma LinesInOneCurrency(lines: seq<OrderLine>, items: seq<Item>, catalog: Catalog)
    requires |lines| == |items| && items != []
    requires forall j | 0 <= j < |lines| :: lines[j].currency == CurrencyOf(items[j], catalog)
    ensures SameCurrency(items, catalog) <==> forall line <- lines :: line.currency == lines[0].currency
  {
    hide CurrencyOf;
    forall j | 0 <= j < |lines| ensures lines[j] in lines && items[j] in items {
    }
  }

  /** The shop after the number and the save. */
  function WithOrder(shop: Shop, i: nat): Shop
    requires i < |shop.placings|
  {
    var p := shop.placings[i];
    shop.(orders := shop.orders + [Some(Order(Strip(p.buyerId), p.lines, Confirmed))],
          placings := shop.placings[i := p.(deducted := [], step := Ended(true))])
  }

  lemma TwoSteps(shop: Shop, i: nat, catalog: Catalog)
    requires i < |shop.placings| && shop.placings[i].step.NextOrderId?
    ensures var after := ApplyShop(ApplyShop(shop, ResumePlacing(i, Returned), catalog), ResumePlacing(i, Returned), catalog);
            after == if CanPlace(shop.placings[i].buyerId, shop.placings[i].lines) then WithOrder(shop, i)
                     else Rollback(shop.(orders := shop.orders + [None]), i)
  {
    hide Strip, RestoreReversed, CanPlace;
    var p := shop.placings[i];
    if CanPlace(p.buyerId, p.lines) {
      var numbered := ApplyShop(shop, ResumePlacing(i, Returned), catalog);
      assert numbered.placings[i] == p.(step := Save(|shop.orders|)) && numbered.orders == shop.orders + [None];
      assert ApplyShop(numbered, ResumePlacing(i, Returned), catalog) == WithOrder(shop, i);
    }
  }

  lemma TakenCanBePlaced(shop: Shop, i: nat, base: Shop, a: ShopAction, catalog: Catalog)
    requires a.Place? && a.items != [] && Taking(shop, i, base, |a.items|, a, catalog)
    ensures shop.placings[i].step.NextOrderId?
    ensures CanPlace(shop.placings[i].buyerId, shop.placings[i].lines) <==> SameCurrency(NormalItems(a.items), catalog)
    ensures Strip(shop.placings[i].buyerId) == Strip(a.buyerId)
  {
    hide Needed, Held, CurrencyOf, SameCurrency, AllServe;
    var p := shop.placings[i];
    StripIsStripped(a.buyerId);
    StripIsStripped(Strip(a.buyerId));
    hide Strip;
    LinesInOneCurrency(p.lines, p.items, catalog);
  }

  lemma SavedWentThrough(shop: Shop, i: nat, base: Shop, a: ShopAction, catalog: Catalog)
    requires a.Place? && a.items != [] && Taking(shop, i, base, |a.items|, a, catalog)
    requires Strip(shop.placings[i].buyerId) == Strip(a.buyerId)
    ensures WentThrough(base, WithOrder(shop, i), i, a, catalog)
  {
    hide Strip, Needed, Held, CurrencyOf, AllServe;
    var items := NormalItems(a.items);
    assert items[..|items|] == items;
  }

  /** The number, and the save. */
  lemma LastSteps(shop: Shop, i: nat, base: Shop, a: ShopAction, catalog: Catalog)
    requires ShopOk(shop, catalog) && a.Place? && a.items != [] && Taking(shop, i, base, |a.items|, a, catalog)
    ensures var after := ApplyShop(ApplyShop(shop, ResumePlacing(i, Returned), catalog), ResumePlacing(i, Returned), catalog);
            if SameCurrency(NormalItems(a.items), catalog) then WentThrough(base, after, i, a, catalog) else FellThrough(base, after, i)
  {
    TakenCanBePlaced(shop, i, base, a, catalog);
    TwoSteps(shop, i, catalog);
    SavedWentThrough(shop, i, base, a, catalog);
    GivenUpIsUndone(shop, i, base, |a.items|, a, catalog);
    assert shop.orders == base.orders;
    hide ShopOk, Taking, WentThrough, ApplyShop, CanPlace, SameCurrency, RestoreReversed;
  }

  /**
   When a placement goes through.  In any reachable state, a valid request whose awaits all return and which
   nobody disturbs ends with its order confirmed and the stock taken, if its items can be found, ship to its
   country, are priced in one currency and are in stock, counting together those of the same unit; and
   otherwise it fails and leaves stock and orders as they were.
   */
  lemma PlacementGoesThroughWhen(stock: seq<int>, trace: seq<ShopAction>, catalog: Catalog, a: ShopAction)
    requires InStock(stock) && CatalogOk(catalog, |stock|) && ValidRequest(a)
    ensures var shop := RunShop(OpenShop(stock), trace, catalog);
            var i := |shop.placings|;
            var after := RunShop(ApplyShop(shop, a, catalog), Resumes(i, |a.items| + 2), catalog);
            if CanBePlaced(a, shop.stock, catalog) then WentThrough(shop, after, i, a, catalog) else FellThrough(shop, after, i)
  {
    hide ShopOk, Taking, CanTake, SameCurrency, Undone, ApplyShop, WentThrough, RunShop, CatalogOk, Strip, ValidItem;
    RunAsked(stock, trace, catalog);
    var shop := RunShop(OpenShop(stock), trace, catalog);
    var i, n, started := |shop.placings|, |a.items|, ApplyShop(shop, a, catalog);
    assert NormalItems(a.items)[..n] == NormalItems(a.items);
    TakeSome(shop, a, n, catalog);
    RunOneMore(started, i, n, catalog);
    RunOneMore(started, i, n + 1, catalog);
    var taken := RunShop(started, Resumes(i, n), catalog);
    if CanTake(NormalItems(a.items), a.country, shop.stock, catalog) {
      LastSteps(taken, i, shop, a, catalog);
    } else {
      UndoneStays(taken, i, shop, catalog);
    }
  }

  lemma UndoneStays(shop: Shop, i: nat, base: Shop, catalog: Catalog)
    requires Undone(shop, i, base)
    ensures ApplyShop(shop, ResumePlacing(i, Returned), catalog) == shop && FellThrough(base, shop, i)
  {
  }

  // ---------------------------------------------------------------- a cancellation by itself

  function CancelResumes(i: nat, k: nat): seq<ShopAction> {
    seq(k, _ => ResumeCancelling(i, Returned))
  }

  lemma CancelOneMore(shop: Shop, i: nat, k: nat, catalog: Catalog)
    ensures RunShop(shop, CancelResumes(i, k + 1), catalog) ==
            ApplyShop(RunShop(shop, CancelResumes(i, k), catalog), ResumeCancelling(i, Returned), catalog)
  {
    hide ApplyShop;
    assert CancelResumes(i, k + 1)[..k] == CancelResumes(i, k);
  }

  /** The cancellation stands at this step, and nothing else has happened. */
  predicate Resolving(shop: Shop, i: nat, base: Shop, step: CancellingStep, asked: Cancelling) {
    && i < |shop.cancellings| && shop.stock == base.stock && shop.orders == base.orders
    && shop.placings == base.placings && shop.restores == base.restores
    && var c := shop.cancellings[i];
       c.number == asked.number && c.buyerId == asked.buyerId && c.reason == asked.reason && c.step == step
  }

  predicate ConfirmedFor(base: Shop, asked: Cancelling) {
    && asked.number < |base.orders| && base.orders[asked.number].Some? && Strip(asked.reason) != []
    && base.orders[asked.number].value.buyerId == asked.buyerId && base.orders[asked.number].value.status == Confirmed
  }

  lemma OwnerPasses(shop: Shop, i: nat, base: Shop, asked: Cancelling, catalog: Catalog)
    requires ShopOk(shop, catalog) && Resolving(shop, i, base, LoadOrder, asked) && ConfirmedFor(base, asked)
    ensures Resolving(ApplyShop(shop, ResumeCancelling(i, Returned), catalog), i, base, FindLineProduct(0), asked)
  {
    OrdersOkAt(shop.orders, asked.number, catalog);
    hide ShopOk;
  }

  /** One more line found; after the last one the order is cancelled. */
  lemma ResolveOne(shop: Shop, i: nat, base: Shop, j: nat, asked: Cancelling, catalog: Catalog)
    requires ShopOk(shop, catalog) && Resolving(shop, i, base, FindLineProduct(j), asked) && ConfirmedFor(base, asked)
    requires j < |base.orders[asked.number].value.lines|
    ensures var lines := base.orders[asked.number].value.lines;
            var after := ApplyShop(shop, ResumeCancelling(i, Returned), catalog);
            if j + 1 < |lines| then Resolving(after, i, base, FindLineProduct(j + 1), asked)
            else IsCancelledNow(base, after, asked.number, catalog)
  {
    hide Strip;
    var lines := base.orders[asked.number].value.lines;
    ResolvingKeeps(shop, i, catalog);
    var entry := FindUnit(catalog, lines[j].productId, lines[j].skuId).value;
    var resolved := WithResolved(shop, i, entry, lines[j].quantity);
    var after := ApplyShop(shop, ResumeCancelling(i, Returned), catalog);
    if j + 1 < |lines| {
      assert after == resolved;
    } else {
      CancelRestoresTheOrder(resolved, i, catalog);
      assert after == WithCancelled(resolved, i);
      hide ShopOk, Ordered, FindUnit, Keeps, RestoreAll, FullyResolved;
    }
  }

  /** This order is cancelled and its lines are back in stock; nothing else has changed. */
  predicate IsCancelledNow(base: Shop, after: Shop, number: nat, catalog: Catalog)
    requires number < |base.orders| && base.orders[number].Some?
  {
    && after.orders == base.orders[number := Some(base.orders[number].value.(status := Cancelled))]
    && after.placings == base.placings && after.restores == base.restores + [number]
    && |after.stock| == |base.stock|
    && forall ref: nat | ref < |base.stock| ::
         after.stock[ref] == base.stock[ref] + Ordered(base.orders[number].value.lines, ref, catalog)
  }

  lemma {:induction false} ResolveSome(shop: Shop, i: nat, base: Shop, j: nat, asked: Cancelling, catalog: Catalog)
    requires ShopOk(shop, catalog) && Resolving(shop, i, base, LoadOrder, asked) && ConfirmedFor(base, asked)
    requires j < |base.orders[asked.number].value.lines|
    ensures var after := RunShop(shop, CancelResumes(i, j + 1), catalog);
            ShopOk(after, catalog) && Resolving(after, i, base, FindLineProduct(j), asked)
    decreases j
  {
    hide ShopOk, Resolving, ApplyShop;
    var before := RunShop(shop, CancelResumes(i, j), catalog);
    CancelOneMore(shop, i, j, catalog);
    if j == 0 {
      assert before == shop;
      OwnerPasses(shop, i, base, asked, catalog);
    } else {
      ResolveSome(shop, i, base, j - 1, asked, catalog);
      ResolveOne(before, i, base, j - 1, asked, catalog);
    }
    ActionKeeps(before, ResumeCancelling(i, Returned), catalog);
    KeepsUnits(before, ApplyShop(before, ResumeCancelling(i, Returned), catalog), catalog, ActionGain(before, ResumeCancelling(i, Returned)));
  }

  lemma CancelStarts(base: Shop, number: nat, buyerId: string, reason: string, catalog: Catalog)
    requires ShopOk(base, catalog) && Strip(buyerId) != [] && Strip(reason) != []
    ensures var asked := Cancelling(number, Strip(buyerId), Strip(reason), [], LoadOrder);
            var started := ApplyShop(base, Cancel(number, buyerId, reason), catalog);
            ShopOk(started, catalog) && Resolving(started, |base.cancellings|, base, LoadOrder, asked) && Strip(asked.reason) != []
  {
    StripIsStripped(reason);
    StripIsStripped(Strip(reason));
    hide Strip, ShopOk, Keeps;
    var started := ApplyShop(base, Cancel(number, buyerId, reason), catalog);
    assert started == base.(cancellings := base.cancellings + [Cancelling(number, Strip(buyerId), Strip(reason), [], LoadOrder)]);
    CancelStartKeeps(base, number, buyerId, reason, catalog);
    KeepsUnits(base, started, catalog, NoGain(|base.stock|));
  }

  /**
   The owner's cancellation goes through.  In any reachable state, when the buyer of a confirmed order cancels it
   with a reason, every await returns and nobody disturbs, the order is cancelled and exactly its lines are back
   in stock; every line's product and unit are found.
   */
  lemma OwnersCancellationGoesThrough(stock: seq<int>, trace: seq<ShopAction>, catalog: Catalog, number: nat, buyerId: string, reason: string)
    requires InStock(stock) && CatalogOk(catalog, |stock|)
    requires var shop := RunShop(OpenShop(stock), trace, catalog);
             && number < |shop.orders| && shop.orders[number].Some? && shop.orders[number].value.status == Confirmed
             && Strip(buyerId) == shop.orders[number].value.buyerId && Strip(reason) != []
    ensures var shop := RunShop(OpenShop(stock), trace, catalog);
            var lines := shop.orders[number].value.lines;
            var after := RunShop(ApplyShop(shop, Cancel(number, buyerId, reason), catalog), CancelResumes(|shop.cancellings|, |lines| + 1), catalog);
            IsCancelledNow(shop, after, number, catalog)
  {
    hide ShopOk, ApplyShop, RunShop, Strip, IsCancelledNow, Serves;
    RunAsked(stock, trace, catalog);
    OrdersAreWhatWasAsked(stock, trace, catalog, number);
    CancellationFrom(RunShop(OpenShop(stock), trace, catalog), catalog, number, buyerId, reason);
  }

  lemma CancellationFrom(shop: Shop, catalog: Catalog, number: nat, buyerId: string, reason: string)
    requires ShopOk(shop, catalog)
    requires number < |shop.orders| && shop.orders[number].Some? && shop.orders[number].value.status == Confirmed
    requires shop.orders[number].value.lines != [] && Strip(buyerId) != []
    requires Strip(buyerId) == shop.orders[number].value.buyerId && Strip(reason) != []
    ensures var lines := shop.orders[number].value.lines;
            var after := RunShop(ApplyShop(shop, Cancel(number, buyerId, reason), catalog), CancelResumes(|shop.cancellings|, |lines| + 1), catalog);
            IsCancelledNow(shop, after, number, catalog)
  {
    hide ShopOk, Resolving, ApplyShop, RunShop, Strip, IsCancelledNow;
    var i, lines := |shop.cancellings|, shop.orders[number].value.lines;
    var asked := Cancelling(number, Strip(buyerId), Strip(reason), [], LoadOrder);
    var started := ApplyShop(shop, Cancel(number, buyerId, reason), catalog);
    CancelStarts(shop, number, buyerId, reason, catalog);
    assert ConfirmedFor(shop, asked);
    var n := |lines| - 1;
    ResolveSome(started, i, shop, n, asked, catalog);
    CancelOneMore(started, i, n + 1, catalog);
    ResolveOne(RunShop(started, CancelResumes(i, n + 1), catalog), i, shop, n, asked, catalog);
  }
}
