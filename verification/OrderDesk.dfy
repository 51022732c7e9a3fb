/**
 The objects behind the shop: stock-keeping units and orders that change in place, the repository that
 keeps the orders, and the pieces of the two use cases that run from one await to the next.  Every piece
 is one step of the machine in `Orders`.
 */
module OrderDesk {
  import opened Common
  import opened IntentTasks
  import opened Orders
  import opened OrderConservation

  class Sku {
    var stock: int

    constructor (stock: int)
      ensures this.stock == stock
    {
      this.stock := stock;
    }

    /** A deduction that is refused changes nothing. */
    method DeductStock(quantity: int) returns (ok: bool)
      modifies this
      ensures ok <==> quantity > 0 && old(stock) >= quantity
      ensures stock == if ok then old(stock) - quantity else old(stock)
    {
      ok := quantity > 0 && stock >= quantity;
      if ok {
        stock := stock - quantity;
      }
    }

    method RestoreStock(quantity: int) returns (ok: bool)
      modifies this
      ensures ok <==> quantity > 0
      ensures stock == if ok then old(stock) + quantity else old(stock)
    {
      ok := quantity > 0;
      if ok {
        stock := stock + quantity;
      }
    }
  }

  class OrderObject {
    const buyerId: string
    const lines: seq<OrderLine>
    var status: OrderStatus
    var cancelReason: Option<string>

    constructor (buyerId: string, lines: seq<OrderLine>)
      ensures this.buyerId == Strip(buyerId) && this.lines == lines && status == Draft && cancelReason == None
    {
      this.buyerId := Strip(buyerId);
      this.lines := lines;
      status := Draft;
      cancelReason := None;
    }

    function Value(): Order
      reads this
    {
      Order(buyerId, lines, status)
    }

    /** Only a draft is confirmed. */
    method Confirm() returns (ok: bool)
      modifies this
      ensures ok <==> old(status) == Draft
      ensures Value() == if ok then old(Value()).(status := Confirmed) else old(Value())
      ensures cancelReason == old(cancelReason)
    {
      ok := status == Draft;
      if ok {
        status := Confirmed;
      }
    }

    /** Only a confirmed order is cancelled, and only for a reason. */
    method Cancel(reason: string) returns (ok: bool)
      modifies this
      ensures ok <==> old(status) == Confirmed && Strip(reason) != []
      ensures Value() == if ok then old(Value()).(status := Cancelled) else old(Value())
      ensures cancelReason == if ok then Some(Strip(reason)) else old(cancelReason)
    {
      ok := status == Confirmed && Strip(reason) != [];
      if ok {
        status := Cancelled;
        cancelReason := Some(Strip(reason));
      }
    }
  }

  lemma KeepsIsOk(before: Shop, after: Shop, catalog: Catalog, gain: seq<int>)
    requires Keeps(before, after, catalog, gain)
    ensures ShopOk(after, catalog)
  {
  }

  lemma TakeItemIsOk(shop: Shop, i: nat, catalog: Catalog)
    requires ShopOk(shop, catalog) && i < |shop.placings| && shop.placings[i].step.FindProduct?
    ensures ShopOk(TakeItem(shop, i, catalog), catalog)
  {
    TakeItemKeeps(shop, i, catalog);
    KeepsIsOk(shop, TakeItem(shop, i, catalog), catalog, NoGain(|shop.stock|));
  }

  lemma PlacingStepIsOk(shop: Shop, i: nat, awaited: Awaited, catalog: Catalog)
    requires ShopOk(shop, catalog) && i < |shop.placings|
    ensures ShopOk(ResumePlacingStep(shop, i, awaited, catalog), catalog)
  {
    hide ResumePlacingStep;
    PlacingStepKeeps(shop, i, awaited, catalog);
    KeepsIsOk(shop, ResumePlacingStep(shop, i, awaited, catalog), catalog, SaveGain(shop.placings[i], awaited, |shop.stock|));
  }

  lemma TakeItemCases(shop: Shop, i: nat, catalog: Catalog)
    requires i < |shop.placings| && shop.placings[i].step.FindProduct? && shop.placings[i].step.next < |shop.placings[i].items|
    ensures var p := shop.placings[i];
            var item := p.items[p.step.next];
            var entry := FindUnit(catalog, item.productId, item.skuId);
            if entry.None? || p.country !in catalog[item.productId].shipsTo then TakeItem(shop, i, catalog) == Rollback(shop, i)
            else
              var d := Deduction(entry.value.ref, item.quantity);
              TakeItem(shop, i, catalog) ==
              if !CanDeduct(shop.stock, d) then Rollback(shop, i)
              else shop.(stock := Deduct(shop.stock, d),
                         placings := shop.placings[i := WithLine(p, catalog[item.productId], entry.value, item)])
  {
    hide Rollback, FindUnit, CanDeduct, Deduct, WithLine;
  }

  lemma CancellingStepIsOk(shop: Shop, i: nat, awaited: Awaited, catalog: Catalog)
    requires ShopOk(shop, catalog) && i < |shop.cancellings|
    ensures ShopOk(ResumeCancellingStep(shop, i, awaited, catalog), catalog)
  {
    hide ResumeCancellingStep;
    CancellingStepKeeps(shop, i, awaited, catalog);
    KeepsIsOk(shop, ResumeCancellingStep(shop, i, awaited, catalog), catalog, NoGain(|shop.stock|));
  }

  lemma NoOrderIsEmpty(shop: Shop, number: nat, catalog: Catalog)
    requires ShopOk(shop, catalog) && number < |shop.orders| && shop.orders[number].Some?
    ensures shop.orders[number].value.lines != []
  {
    OrdersOkAt(shop.orders, number, catalog);
  }

  predicate Distinct(units: seq<Sku>) {
    forall i, j | 0 <= i < j < |units| :: units[i] != units[j]
  }

  /** No unit and no order is held twice, and numbers are allocated before orders are stored under them. */
  ghost predicate Separate(units: seq<Sku>, stored: map<nat, OrderObject>, counter: nat) {
    && Distinct(units)
    && (forall n <- stored :: n < counter)
    && forall m <- stored, n <- stored | m != n :: stored[m] != stored[n]
  }

  function OrdersOf(stored: map<nat, OrderObject>, counter: nat): (s: seq<Option<Order>>)
    reads stored.Values
    ensures |s| == counter
    ensures forall i | 0 <= i < counter :: s[i] == if i in stored then Some(stored[i].Value()) else None
  {
    seq(counter, i requires 0 <= i < counter reads stored.Values => if i in stored then Some(stored[i].Value()) else None)
  }

  function StoredThenEnded(shop: Shop, i: nat, placed: bool): Shop
    requires i < |shop.placings| && shop.placings[i].step.Save? && shop.placings[i].step.number < |shop.orders|
  {
    Stored(shop, i, placed).(stock := if placed then shop.stock else RestoreReversed(shop.stock, shop.placings[i].deducted))
  }

  lemma SaveCases(shop: Shop, i: nat, awaited: Awaited, catalog: Catalog)
    requires i < |shop.placings| && shop.placings[i].step.Save? && shop.placings[i].step.number < |shop.orders|
    ensures ResumePlacingStep(shop, i, awaited, catalog) ==
            if awaited == Raised(false) then Rollback(shop, i) else StoredThenEnded(shop, i, awaited.Returned?)
  {
    hide Strip, RestoreReversed;
  }

  lemma DeductionsOf(shop: Shop, i: nat, catalog: Catalog)
    requires ShopOk(shop, catalog) && i < |shop.placings|
    ensures InRange(shop.placings[i].deducted, |shop.stock|)
  {
    assert shop.placings[i] in shop.placings && PlacingOk(shop.placings[i], |shop.stock|, catalog);
  }

  lemma RollbackIsOk(shop: Shop, i: nat, catalog: Catalog)
    requires ShopOk(shop, catalog) && i < |shop.placings|
    ensures ShopOk(Rollback(shop, i), catalog)
  {
    RollbackKeeps(shop, i, catalog);
    KeepsIsOk(shop, Rollback(shop, i), catalog, NoGain(|shop.stock|));
  }

  /** The objects of the repositories, and the frames of the running use cases. */
  class Desk {
    const catalog: Catalog
    const units: seq<Sku>
    var stored: map<nat, OrderObject>
    var counter: nat
    var placings: seq<Placing>
    var cancellings: seq<Cancelling>
    ghost var restores: seq<nat>

    constructor (catalog: Catalog, units: seq<Sku>)
      requires forall i, j | 0 <= i < j < |units| :: units[i] != units[j]
      requires CatalogOk(catalog, |units|) && forall sku <- units :: sku.stock >= 0
      ensures Valid() && this.catalog == catalog && this.units == units
      ensures Abs() == OpenShop(Stock())
    {
      this.catalog := catalog;
      this.units := units;
      stored := map[];
      counter := 0;
      placings := [];
      cancellings := [];
      restores := [];
      new;
      OpenShopIsOk(Stock(), catalog);
    }

    function Stock(): (s: seq<int>)
      reads units
      ensures |s| == |units| && forall i | 0 <= i < |units| :: s[i] == units[i].stock
    {
      seq(|units|, i requires 0 <= i < |units| reads units => units[i].stock)
    }

    ghost function Abs(): Shop
      reads this, units, stored.Values
    {
      Shop(Stock(), OrdersOf(stored, counter), placings, cancellings, restores)
    }

    ghost predicate Valid()
      reads this, units, stored.Values
    {
      Separate(units, stored, counter) && ShopOk(Abs(), catalog)
    }

    method RestoreUnit(d: Deduction)
      requires Distinct(units) && d.ref < |units| && d.quantity > 0
      modifies units
      ensures Stock() == Restore(old(Stock()), d)
    {
      ghost var was := Stock();
      var ok := units[d.ref].RestoreStock(d.quantity);
      forall i | 0 <= i < |units| ensures Stock()[i] == Restore(was, d)[i] {
        assert i != d.ref ==> units[i] != units[d.ref];
      }
    }

    method DeductUnit(d: Deduction) returns (ok: bool)
      requires Distinct(units) && d.ref < |units|
      modifies units
      ensures ok <==> CanDeduct(old(Stock()), d)
      ensures Stock() == if ok then Deduct(old(Stock()), d) else old(Stock())
    {
      ok := units[d.ref].DeductStock(d.quantity);
    }

    /** A placement begins, unless its input is refused. */
    method StartPlacing(buyerId: string, country: string, items: seq<Item>)
      requires Valid()
      modifies this`placings
      ensures Valid() && Abs() == ApplyShop(old(Abs()), Place(buyerId, country, items), catalog)
    {
      hide ShopOk, Strip, Separate;
      ghost var before := Abs();
      PlaceKeeps(before, buyerId, country, items, catalog);
      KeepsIsOk(before, ApplyShop(before, Place(buyerId, country, items), catalog), catalog, NoGain(|units|));
      if Strip(buyerId) != [] && items != [] && forall item <- items :: ValidItem(item) {
        placings := placings + [Placing(Strip(buyerId), country, NormalItems(items), [], [], FindProduct(0))];
      }
      assert Abs() == ApplyShop(before, Place(buyerId, country, items), catalog);
    }

    /** A cancellation begins, unless its input is refused. */
    method StartCancelling(number: nat, buyerId: string, reason: string)
      requires Valid()
      modifies this`cancellings
      ensures Valid() && Abs() == ApplyShop(old(Abs()), Orders.Cancel(number, buyerId, reason), catalog)
    {
      hide ShopOk, Strip, Separate;
      ghost var before := Abs();
      CancelStartKeeps(before, number, buyerId, reason, catalog);
      KeepsIsOk(before, ApplyShop(before, Orders.Cancel(number, buyerId, reason), catalog), catalog, NoGain(|units|));
      if Strip(buyerId) != [] && Strip(reason) != [] {
        cancellings := cancellings + [Cancelling(number, Strip(buyerId), Strip(reason), [], LoadOrder)];
      }
      assert Abs() == ApplyShop(before, Orders.Cancel(number, buyerId, reason), catalog);
    }

    /** The loop of `finally`: the last deduction is given back first. */
    method GiveBackReversed(ds: seq<Deduction>)
      requires Distinct(units) && InRange(ds, |units|)
      modifies units
      ensures Stock() == RestoreReversed(old(Stock()), ds)
    {
      hide Distinct;
      ghost var was := Stock();
      var i := |ds|;
      assert ds[..i] == ds;
      while i > 0
        invariant 0 <= i <= |ds|
        invariant RestoreReversed(Stock(), ds[..i]) == RestoreReversed(was, ds)
      {
        i := i - 1;
        assert ds[i] in ds;
        assert ds[..i + 1][..i] == ds[..i];
        RestoreUnit(ds[i]);
      }
    }

    /** The restore loop of a cancellation, in line order. */
    method GiveBack(ds: seq<Deduction>)
      requires Distinct(units) && InRange(ds, |units|)
      modifies units
      ensures Stock() == RestoreAll(old(Stock()), ds)
    {
      hide Distinct;
      ghost var was := Stock();
      assert ds[0..] == ds;
      for i := 0 to |ds|
        invariant RestoreAll(Stock(), ds[i..]) == RestoreAll(was, ds)
      {
        assert ds[i] in ds;
        assert ds[i..][1..] == ds[i + 1..];
        RestoreUnit(ds[i]);
      }
    }

    /** An exception leaves `execute`: `finally` gives the deductions back. */
    method Fail(index: nat)
      requires Valid() && index < |placings|
      modifies this`placings, units
      ensures Valid() && Abs() == Rollback(old(Abs()), index)
    {
      hide ShopOk, InRange, Stock, OrdersOf, Distinct, RestoreReversed;
      ghost var before := Abs();
      RollbackIsOk(before, index, catalog);
      DeductionsOf(before, index, catalog);
      var p := placings[index];
      GiveBackReversed(p.deducted);
      placings := placings[index := p.(deducted := [], step := Ended(false))];
      assert Abs() == Rollback(before, index);
    }

    lemma NextItemIsThere(index: nat)
      requires Valid() && index < |placings| && placings[index].step.FindProduct?
      ensures var p := placings[index];
              && p.step.next < |p.items|
              && var item := p.items[p.step.next];
                var entry := FindUnit(catalog, item.productId, item.skuId);
                entry.Some? ==> item.productId in catalog && entry.value.ref < |units|
    {
      hide Strip;
      var p := placings[index];
      assert p in Abs().placings && PlacingOk(p, |Abs().stock|, catalog);
      var item := p.items[p.step.next];
      if FindUnit(catalog, item.productId, item.skuId).Some? {
        UnitsExist(catalog, |units|, item.productId, item.skuId);
      }
    }

    /** From the product's arrival to the next await. */
    method TakeOne(index: nat)
      requires Valid() && index < |placings| && placings[index].step.FindProduct?
      modifies this`placings, units
      ensures Valid() && Abs() == TakeItem(old(Abs()), index, catalog)
    {
      hide ShopOk, FindUnit, Rollback, CanDeduct, Deduct, Distinct, TakeItem, WithLine;
      ghost var before := Abs();
      TakeItemIsOk(before, index, catalog);
      NextItemIsThere(index);
      var p := placings[index];
      var item := p.items[p.step.next];
      var entry := FindUnit(catalog, item.productId, item.skuId);
      TakeItemCases(before, index, catalog);
      if entry.None? || p.country !in catalog[item.productId].shipsTo {
        Fail(index);
      } else {
        var ok := DeductUnit(Deduction(entry.value.ref, item.quantity));
        if !ok {
          assert Abs() == before;
          Fail(index);
        } else {
          placings := placings[index := WithLine(p, catalog[item.productId], entry.value, item)];
          assert Abs() == TakeItem(before, index, catalog);
        }
      }
    }

    /** From a product, an order number or a save to the next await. */
    method ResumePlacing(index: nat, awaited: Awaited)
      requires Valid() && index < |placings|
      modifies this`placings, this`stored, this`counter, units
      ensures Valid() && Abs() == ResumePlacingStep(old(Abs()), index, awaited, catalog)
    {
      hide ShopOk, FindUnit, Strip, Rollback, Distinct, TakeItem;
      ghost var before := Abs();
      PlacingStepIsOk(before, index, awaited, catalog);
      match placings[index].step
      case FindProduct(_) =>
        if awaited.Raised? { Fail(index); } else { TakeOne(index); }
      case NextOrderId =>
        if awaited.Raised? { Fail(index); } else { Number(index); }
      case Save(number) =>
        SaveOrder(index, awaited);
      case Ended(_) =>
    }

    /** next_order_id has returned: Order.place, then the save is awaited. */
    method Number(index: nat)
      requires Valid() && index < |placings| && placings[index].step.NextOrderId?
      modifies this`placings, this`counter, units
      ensures Valid() && Abs() == ResumePlacingStep(old(Abs()), index, Returned, catalog)
    {
      hide ShopOk, FindUnit, Strip, Rollback, Distinct, TakeItem, CanPlace, Keeps;
      ghost var before := Abs();
      PlacingStepIsOk(before, index, Returned, catalog);
      var p := placings[index];
      NumberedKeeps(before, index, p, catalog);
      var number := counter;
      counter := counter + 1;
      assert OrdersOf(stored, counter) == before.orders + [None];
      if CanPlace(p.buyerId, p.lines) {
        placings := placings[index := p.(step := Save(number))];
        assert Abs() == ResumePlacingStep(before, index, Returned, catalog);
      } else {
        ghost var numbered := before.(orders := before.orders + [None], placings := before.placings[index := p]);
        assert Abs() == numbered;
        KeepsIsOk(before, numbered, catalog, NoGain(|before.stock|));
        Fail(index);
      }
    }

    /** Order.place and the repository's save: a new confirmed order under its number. */
    method Store(number: nat, buyerId: string, lines: seq<OrderLine>)
      requires Separate(units, stored, counter) && number < counter
      modifies this`stored
      ensures Separate(units, stored, counter)
      ensures OrdersOf(stored, counter) == old(OrdersOf(stored, counter))[number := Some(Order(Strip(buyerId), lines, Confirmed))]
    {
      hide Strip, Distinct;
      var order := new OrderObject(buyerId, lines);
      var ok := order.Confirm();
      stored := stored[number := order];
    }

    /** The order is stored; if the save raised all the same, `finally` still gives the deductions back. */
    method EndStored(index: nat, placed: bool)
      requires Separate(units, stored, counter)
      requires index < |placings| && placings[index].step.Save? && placings[index].step.number < counter
      requires InRange(placings[index].deducted, |units|)
      modifies this`placings, this`stored, units
      ensures Separate(units, stored, counter)
      ensures Abs() == StoredThenEnded(old(Abs()), index, placed)
    {
      hide Strip, Distinct, InRange, RestoreReversed, Stock, OrdersOf;
      ghost var before := Abs();
      var p := placings[index];
      AreDistinct();
      Store(p.step.number, p.buyerId, p.lines);
      ghost var orders := OrdersOf(stored, counter);
      hide Separate;
      if !placed {
        GiveBackReversed(p.deducted);
      }
      placings := placings[index := p.(deducted := [], step := Ended(placed))];
      assert OrdersOf(stored, counter) == orders == StoredThenEnded(before, index, placed).orders;
      assert placings == StoredThenEnded(before, index, placed).placings;
      assert Stock() == StoredThenEnded(before, index, placed).stock;
    }

    /** The repository's save has ended, with or without storing the order. */
    method SaveOrder(index: nat, awaited: Awaited)
      requires Valid() && index < |placings| && placings[index].step.Save?
      modifies this`placings, this`stored, units
      ensures Valid() && Abs() == ResumePlacingStep(old(Abs()), index, awaited, catalog)
    {
      hide ShopOk, InRange, Separate, Stock, OrdersOf, ResumePlacingStep, StoredThenEnded, Rollback;
      ghost var before := Abs();
      PlacingStepIsOk(before, index, awaited, catalog);
      SlotOf(before, index, catalog);
      SaveCases(before, index, awaited, catalog);
      var p := placings[index];
      if awaited == Raised(false) {
        Fail(index);
      } else {
        EndStored(index, awaited.Returned?);
      }
    }

    lemma AreDistinct()
      requires Separate(units, stored, counter)
      ensures Distinct(units)
    {
    }

    /** From an order or a product to the next await of a cancellation. */
    method ResumeCancelling(index: nat, awaited: Awaited)
      requires Valid() && index < |cancellings|
      modifies this`cancellings, this`restores, units, stored.Values
      ensures Valid() && Abs() == ResumeCancellingStep(old(Abs()), index, awaited, catalog)
    {
      hide ShopOk, Strip, Distinct, InRange, CancelAndRestore, FindUnit;
      ghost var before := Abs();
      CancellingStepIsOk(before, index, awaited, catalog);
      var c := cancellings[index];
      if c.step.Stopped? {
      } else if awaited.Raised? || c.step.SaveCancelled? || c.number !in stored {
        cancellings := cancellings[index := c.(step := Stopped)];
        assert Abs() == ResumeCancellingStep(before, index, awaited, catalog);
      } else {
        var order := stored[c.number];
        match c.step
        case LoadOrder => {
          if order.buyerId != c.buyerId {
            cancellings := cancellings[index := c.(step := Stopped)];
          } else {
            NoOrderIsEmpty(before, c.number, catalog);
            cancellings := cancellings[index := c.(step := FindLineProduct(0))];
          }
          assert Abs() == ResumeCancellingStep(before, index, awaited, catalog);
        }
        case FindLineProduct(next) => {
          if next < |order.lines| {
            Resolve(index);
          }
        }
      }
    }

    /** The product of the next line has arrived; after the last one the order is cancelled and its lines restored. */
    method Resolve(index: nat)
      requires Valid() && index < |cancellings| && cancellings[index].step.FindLineProduct?
      requires cancellings[index].number in stored
      requires cancellings[index].step.next < |stored[cancellings[index].number].lines|
      modifies this`cancellings, this`restores, units, stored.Values
      ensures Valid() && Abs() == ResumeCancellingStep(old(Abs()), index, Returned, catalog)
    {
      hide ShopOk, Strip, Distinct, InRange, FindUnit, RestoreAll, Stock, FullyResolved;
      ghost var before := Abs();
      CancellingStepIsOk(before, index, Returned, catalog);
      ResolvingKeeps(before, index, catalog);
      var c := cancellings[index];
      var order := stored[c.number];
      var line := order.lines[c.step.next];
      var entry := FindUnit(catalog, line.productId, line.skuId);
      cancellings := cancellings[index :=
        c.(toRestore := c.toRestore + [Deduction(entry.value.ref, line.quantity)], step := FindLineProduct(c.step.next + 1))];
      ghost var resolved := WithResolved(before, index, entry.value, line.quantity);
      assert Abs() == resolved;
      if c.step.next + 1 == |order.lines| {
        RangeOf(resolved.cancellings[index], resolved.orders, |units|, catalog);
        CancelResolved(index);
      }
    }

    /** order.cancel(reason) on the stored object. */
    method CancelStored(number: nat, reason: string) returns (ok: bool)
      requires Separate(units, stored, counter) && number in stored
      modifies stored.Values
      ensures var order := old(stored[number].Value());
              && (ok <==> order.status == Confirmed && Strip(reason) != [])
              && OrdersOf(stored, counter) ==
                if ok then old(OrdersOf(stored, counter))[number := Some(order.(status := Cancelled))] else old(OrdersOf(stored, counter))
    {
      hide Strip, Distinct;
      ok := stored[number].Cancel(reason);
    }

    /** order.cancel(reason), then the lines are restored. */
    method CancelResolved(index: nat)
      requires Separate(units, stored, counter) && index < |cancellings| && cancellings[index].number in stored
      requires InRange(cancellings[index].toRestore, |units|)
      modifies this`cancellings, this`restores, units, stored.Values
      ensures Separate(units, stored, counter) && Abs() == CancelAndRestore(old(Abs()), index)
    {
      hide Strip, Distinct, InRange, RestoreAll, Stock, OrdersOf;
      ghost var before := Abs();
      var c := cancellings[index];
      AreDistinct();
      assert c.number < counter;
      hide Separate;
      var ok := CancelStored(c.number, c.reason);
      if ok {
        GiveBack(c.toRestore);
        restores := restores + [c.number];
      }
      cancellings := cancellings[index := c.(step := if ok then SaveCancelled else Stopped)];
      assert OrdersOf(stored, counter) == CancelAndRestore(before, index).orders;
      assert cancellings == CancelAndRestore(before, index).cancellings;
    }
  }

  lemma RangeOf(c: Cancelling, orders: seq<Option<Order>>, units: nat, catalog: Catalog)
    requires FullyResolved(c, orders, units, catalog)
    ensures InRange(c.toRestore, units)
  {
  }

  lemma SlotOf(shop: Shop, i: nat, catalog: Catalog)
    requires ShopOk(shop, catalog) && i < |shop.placings| && shop.placings[i].step.Save?
    ensures shop.placings[i].step.number < |shop.orders| && shop.orders[shop.placings[i].step.number].None?
    ensures InRange(shop.placings[i].deducted, |shop.stock|)
  {
    assert shop.placings[i] in shop.placings;
    assert PlacingOk(shop.placings[i], |shop.stock|, catalog) && SlotIsFree(shop.placings[i].step, shop.orders);
  }
}
