/** Who can cancel an order, over every interleaving of placements and cancellations: its buyer, and nobody else. */
module OrderOwners {
  import opened Common
  import opened IntentTasks
  import opened Orders
  import opened OrderConservation

  // ---------------------------------------------------------------- how orders change

  /** Orders are only added; a stored one keeps its buyer and its lines. */
  predicate OwnersStay(before: seq<Option<Order>>, after: seq<Option<Order>>) {
    && |before| <= |after|
    && forall i | 0 <= i < |before| && before[i].Some? ::
         after[i].Some? && after[i].value.buyerId == before[i].value.buyerId && after[i].value.lines == before[i].value.lines
  }

  lemma PlacingKeepsOwners(shop: Shop, i: nat, awaited: Awaited, catalog: Catalog)
    requires ShopOk(shop, catalog) && i < |shop.placings|
    ensures var after := ResumePlacingStep(shop, i, awaited, catalog);
            && OwnersStay(shop.orders, after.orders)
            && after.cancellings == shop.cancellings && after.restores == shop.restores
  {
    assert shop.placings[i] in shop.placings && SlotIsFree(shop.placings[i].step, shop.orders);
    hide ShopOk, RestoreReversed, FindUnit, CanDeduct, CanPlace, WithLine, Strip;
  }

  /** The check of `load_owned_order` was passed. */
  predicate PastTheCheck(step: CancellingStep) {
    step.FindLineProduct? || step.SaveCancelled?
  }

  predicate IsOwner(orders: seq<Option<Order>>, number: nat, buyerId: string) {
    number < |orders| && orders[number].Some? && orders[number].value.buyerId == buyerId
  }

  /** What one step of a cancellation can change. */
  lemma CancellingShape(shop: Shop, i: nat, awaited: Awaited, catalog: Catalog)
    requires ShopOk(shop, catalog) && i < |shop.cancellings|
    ensures var after, c := ResumeCancellingStep(shop, i, awaited, catalog), shop.cancellings[i];
            && |after.cancellings| == |shop.cancellings|
            && var d := after.cancellings[i];
               && after.cancellings == shop.cancellings[i := d]
               && d.number == c.number && d.buyerId == c.buyerId && d.reason == c.reason
               && (PastTheCheck(d.step) ==> PastTheCheck(c.step) || IsOwner(shop.orders, c.number, c.buyerId))
               && OwnersStay(shop.orders, after.orders)
               && after.placings == shop.placings
               && (PastTheCheck(c.step) || (after.orders == shop.orders && after.stock == shop.stock && after.restores == shop.restores))
               && (after.restores == shop.restores || after.restores == shop.restores + [c.number])
  {
    var c := shop.cancellings[i];
    assert c in shop.cancellings && CancellingOk(c, shop.orders, |shop.stock|, catalog);
    if c.number < |shop.orders| {
      OrdersOkAt(shop.orders, c.number, catalog);
    }
    hide ShopOk, RestoreAll, FindUnit, Strip, LinesMatch, InRange;
  }

  // ---------------------------------------------------------------- the invariant

  /** Somebody asked for this cancellation in these words. */
  ghost predicate Asked(trace: seq<ShopAction>, number: nat, buyerId: string) {
    exists a <- trace :: a.Cancel? && a.number == number && Strip(a.buyerId) == buyerId && Strip(a.reason) != []
  }

  ghost predicate AskedByOwner(trace: seq<ShopAction>, number: nat, orders: seq<Option<Order>>) {
    number < |orders| && orders[number].Some? && Asked(trace, number, orders[number].value.buyerId)
  }

  ghost predicate CancellingOwned(c: Cancelling, orders: seq<Option<Order>>, trace: seq<ShopAction>) {
    Asked(trace, c.number, c.buyerId) && (PastTheCheck(c.step) ==> IsOwner(orders, c.number, c.buyerId))
  }

  ghost predicate OwnersOk(shop: Shop, trace: seq<ShopAction>) {
    && (forall c <- shop.cancellings :: CancellingOwned(c, shop.orders, trace))
    && (forall number <- shop.restores :: AskedByOwner(trace, number, shop.orders))
  }

  lemma AskedLater(trace: seq<ShopAction>, a: ShopAction, number: nat, buyerId: string)
    requires Asked(trace, number, buyerId)
    ensures Asked(trace + [a], number, buyerId)
  {
    assert forall b <- trace :: b in trace + [a];
  }

  lemma OwnedLater(c: Cancelling, orders: seq<Option<Order>>, after: seq<Option<Order>>, trace: seq<ShopAction>, a: ShopAction)
    requires CancellingOwned(c, orders, trace) && OwnersStay(orders, after)
    ensures CancellingOwned(c, after, trace + [a])
  {
    hide Asked;
    AskedLater(trace, a, c.number, c.buyerId);
  }

  lemma OwnersLater(shop: Shop, after: Shop, trace: seq<ShopAction>, a: ShopAction)
    requires OwnersOk(shop, trace) && OwnersStay(shop.orders, after.orders)
    ensures forall c <- shop.cancellings :: CancellingOwned(c, after.orders, trace + [a])
    ensures forall number <- shop.restores :: AskedByOwner(trace + [a], number, after.orders)
  {
    hide OwnersStay, CancellingOwned, Asked;
    forall c <- shop.cancellings ensures CancellingOwned(c, after.orders, trace + [a]) {
      OwnedLater(c, shop.orders, after.orders, trace, a);
    }
    forall number <- shop.restores ensures AskedByOwner(trace + [a], number, after.orders) {
      OwnerLater(number, shop.orders, after.orders, trace, a);
    }
  }

  lemma OwnerLater(number: nat, orders: seq<Option<Order>>, after: seq<Option<Order>>, trace: seq<ShopAction>, a: ShopAction)
    requires AskedByOwner(trace, number, orders) && OwnersStay(orders, after)
    ensures AskedByOwner(trace + [a], number, after)
  {
    hide Asked;
    AskedLater(trace, a, number, orders[number].value.buyerId);
  }

  lemma CancellingKeepsOwners(shop: Shop, i: nat, awaited: Awaited, catalog: Catalog, trace: seq<ShopAction>)
    requires ShopOk(shop, catalog) && OwnersOk(shop, trace) && i < |shop.cancellings|
    ensures OwnersOk(ResumeCancellingStep(shop, i, awaited, catalog), trace + [ResumeCancelling(i, awaited)])
  {
    hide ShopOk, Asked, ResumeCancellingStep;
    var a, c := ResumeCancelling(i, awaited), shop.cancellings[i];
    var after := ResumeCancellingStep(shop, i, awaited, catalog);
    assert c in shop.cancellings && CancellingOwned(c, shop.orders, trace);
    CancellingShape(shop, i, awaited, catalog);
    OwnersLater(shop, after, trace, a);
    assert CancellingOwned(after.cancellings[i], after.orders, trace + [a]);
    forall d <- after.cancellings ensures CancellingOwned(d, after.orders, trace + [a]) {
      assert d == after.cancellings[i] || d in shop.cancellings;
    }
    if after.restores != shop.restores {
      AskedLater(trace, a, c.number, c.buyerId);
      assert AskedByOwner(trace + [a], c.number, after.orders);
    }
  }

  lemma StepKeepsOwners(shop: Shop, a: ShopAction, catalog: Catalog, trace: seq<ShopAction>)
    requires ShopOk(shop, catalog) && OwnersOk(shop, trace)
    ensures OwnersOk(ApplyShop(shop, a, catalog), trace + [a])
  {
    hide ShopOk, Asked, ResumeCancellingStep, ResumePlacingStep, OwnersStay, Strip;
    var after := ApplyShop(shop, a, catalog);
    assert OwnersStay(shop.orders, shop.orders) by { StayingTheSame(shop.orders); }
    OwnersLater(shop, shop, trace, a);
    match a
    case Place(_, _, _) =>
    case ResumePlacing(i, awaited) =>
      if i < |shop.placings| {
        PlacingKeepsOwners(shop, i, awaited, catalog);
        OwnersLater(shop, after, trace, a);
      }
    case Cancel(number, buyerId, reason) =>
      if after != shop {
        assert Asked(trace + [a], number, Strip(buyerId)) by { JustAsked(trace, a); }
        assert forall c <- after.cancellings :: c in shop.cancellings || c == Cancelling(number, Strip(buyerId), Strip(reason), [], LoadOrder);
      }
    case ResumeCancelling(i, awaited) =>
      if i < |shop.cancellings| { CancellingKeepsOwners(shop, i, awaited, catalog, trace); }
  }

  lemma StayingTheSame(orders: seq<Option<Order>>)
    ensures OwnersStay(orders, orders)
  {
  }

  lemma JustAsked(trace: seq<ShopAction>, a: ShopAction)
    requires a.Cancel? && Strip(a.reason) != []
    ensures Asked(trace + [a], a.number, Strip(a.buyerId))
  {
    hide Strip;
    assert a in trace + [a];
  }

  lemma {:induction false} RunKeepsOwners(stock: seq<int>, trace: seq<ShopAction>, catalog: Catalog)
    requires InStock(stock) && CatalogOk(catalog, |stock|)
    ensures var shop := RunShop(OpenShop(stock), trace, catalog); ShopOk(shop, catalog) && OwnersOk(shop, trace)
    decreases |trace|
  {
    hide ShopOk, OwnersOk, ApplyShop;
    OpenShopIsOk(stock, catalog);
    RunKeeps(OpenShop(stock), trace, catalog);
    if trace == [] {
      NobodyAsked(stock);
    } else {
      var front, a := trace[..|trace| - 1], trace[|trace| - 1];
      RunKeepsOwners(stock, front, catalog);
      StepKeepsOwners(RunShop(OpenShop(stock), front, catalog), a, catalog, front);
      assert front + [a] == trace;
    }
  }

  lemma NobodyAsked(stock: seq<int>)
    ensures OwnersOk(OpenShop(stock), [])
  {
  }

  /** In every run, each cancelled order, and so each order whose lines were put back into stock, was asked to be
      cancelled by its own buyer, with a reason. */
  lemma OnlyTheOwnerCancels(stock: seq<int>, trace: seq<ShopAction>, catalog: Catalog, number: nat)
    requires InStock(stock) && CatalogOk(catalog, |stock|)
    requires var shop := RunShop(OpenShop(stock), trace, catalog); IsCancelled(shop.orders, number) || number in shop.restores
    ensures var order := RunShop(OpenShop(stock), trace, catalog).orders;
            && number < |order| && order[number].Some?
            && exists a <- trace ::
                 a.Cancel? && a.number == number && Strip(a.buyerId) == order[number].value.buyerId && Strip(a.reason) != []
  {
    hide RunShop, Strip;
    RunKeepsOwners(stock, trace, catalog);
    var shop := RunShop(OpenShop(stock), trace, catalog);
    assert number in shop.restores;
    assert AskedByOwner(trace, number, shop.orders);
  }

  /** In every reachable state, no step of another buyer's cancellation changes the stock, an order or a placement. */
  lemma OthersChangeNothing(stock: seq<int>, trace: seq<ShopAction>, catalog: Catalog, i: nat, awaited: Awaited)
    requires InStock(stock) && CatalogOk(catalog, |stock|)
    requires var shop := RunShop(OpenShop(stock), trace, catalog);
             i < |shop.cancellings| && !IsOwner(shop.orders, shop.cancellings[i].number, shop.cancellings[i].buyerId)
    ensures var shop := RunShop(OpenShop(stock), trace, catalog);
            var after := ApplyShop(shop, ResumeCancelling(i, awaited), catalog);
            && after.stock == shop.stock && after.orders == shop.orders && after.placings == shop.placings && after.restores == shop.restores
            && |after.cancellings| == |shop.cancellings| && !PastTheCheck(after.cancellings[i].step)
  {
    hide RunShop, ResumeCancellingStep, Asked;
    RunKeepsOwners(stock, trace, catalog);
    var shop := RunShop(OpenShop(stock), trace, catalog);
    assert shop.cancellings[i] in shop.cancellings && CancellingOwned(shop.cancellings[i], shop.orders, trace);
    hide OwnersOk, ShopOk;
    CancellingShape(shop, i, awaited, catalog);
  }
}
