/** The one way in which stock is made up: a save that stores its order and then raises. */
module StockMadeUp {
  import opened Common
  import opened IntentTasks
  import opened Orders
  import opened OrderConservation

  function OneProduct(productId: string, skuId: string, country: string): Catalog {
    map[productId := Product(productId, [country], [SkuEntry(skuId, 0, "CNY")])]
  }

  /** One placement of the last piece, whose save raises after it stored the order. */
  function LastPiece(productId: string, skuId: string, country: string, buyerId: string): seq<ShopAction> {
    [Place(buyerId, country, [Item(productId, skuId, 1)]),
     ResumePlacing(0, Returned), ResumePlacing(0, Returned), ResumePlacing(0, Raised(true))]
  }

  /** The placement at one of its steps. */
  function Placed(productId: string, skuId: string, country: string, buyerId: string, lines: seq<OrderLine>, deducted: seq<Deduction>, step: PlacingStep)
    : Placing
  {
    Placing(buyerId, country, [Item(productId, skuId, 1)], lines, deducted, step)
  }

  predicate Name(s: string) {
    s != [] && Stripped(s)
  }

  /** The stock before each step of the placement. */
  lemma PieceIsDeducted(productId: string, skuId: string, country: string, buyerId: string)
    requires Name(productId) && Name(skuId) && Name(buyerId)
    ensures var t, catalog := LastPiece(productId, skuId, country, buyerId), OneProduct(productId, skuId, country);
            ApplyShop(ApplyShop(OpenShop([1]), t[0], catalog), t[1], catalog) ==
            Shop([0], [], [Placed(productId, skuId, country, buyerId, [OrderLine(productId, skuId, "CNY", 1)], [Deduction(0, 1)], NextOrderId)], [], [])
  {
    hide Strip, Stripped;
    StripIsStripped(productId);
    StripIsStripped(skuId);
    StripIsStripped(buyerId);
    var t, catalog := LastPiece(productId, skuId, country, buyerId), OneProduct(productId, skuId, country);
    var item := Item(productId, skuId, 1);
    assert NormalItems([item]) == [item];
    assert forall i <- [item] :: i == item && ValidItem(i);
    var begun := ApplyShop(OpenShop([1]), t[0], catalog);
    assert begun.placings == [Placed(productId, skuId, country, buyerId, [], [], FindProduct(0))];
    assert FindUnit(catalog, productId, skuId) == Some(SkuEntry(skuId, 0, "CNY"));
    var p := begun.placings[0];
    assert begun == Shop([1], [], [p], [], []);
    assert ApplyShop(begun, t[1], catalog) == TakeItem(begun, 0, catalog);
    assert Deduct([1], Deduction(0, 1)) == [0];
    assert WithLine(p, catalog[productId], SkuEntry(skuId, 0, "CNY"), item) ==
           Placed(productId, skuId, country, buyerId, [OrderLine(productId, skuId, "CNY", 1)], [Deduction(0, 1)], NextOrderId);
  }

  lemma SaveIsRolledBack(productId: string, skuId: string, country: string, buyerId: string, before: Shop)
    requires Name(productId) && Name(skuId) && Name(buyerId)
    requires before == Shop([0], [], [Placed(productId, skuId, country, buyerId, [OrderLine(productId, skuId, "CNY", 1)], [Deduction(0, 1)], NextOrderId)], [], [])
    ensures var t, catalog := LastPiece(productId, skuId, country, buyerId), OneProduct(productId, skuId, country);
            var numbered := ApplyShop(before, t[2], catalog);
            var after := ApplyShop(numbered, t[3], catalog);
            && RaisesAfterStoring(numbered, t[3])
            && after.stock == [1] && after.orders == [Some(Order(buyerId, [OrderLine(productId, skuId, "CNY", 1)], Confirmed))]
  {
    hide Strip, Stripped;
    StripIsStripped(buyerId);
    var t, catalog := LastPiece(productId, skuId, country, buyerId), OneProduct(productId, skuId, country);
    var numbered := ApplyShop(before, t[2], catalog);
    assert numbered.placings[0].step == Save(0) && numbered.orders == [None];
    assert RestoreReversed([0], [Deduction(0, 1)]) == [1];
  }

  /** The piece is sold, and it is in stock again. */
  lemma SoldAndInStock(productId: string, skuId: string, country: string, buyerId: string)
    requires Name(productId) && Name(skuId) && Name(buyerId)
    ensures var catalog := OneProduct(productId, skuId, country);
            var shop := RunShop(OpenShop([1]), LastPiece(productId, skuId, country, buyerId), catalog);
            && shop.stock == [1] && shop.orders == [Some(Order(buyerId, [OrderLine(productId, skuId, "CNY", 1)], Confirmed))]
            && !Conserved([1], shop, catalog)
  {
    hide ApplyShop, Stripped, Conserved, RaisesAfterStoring;
    var t, catalog := LastPiece(productId, skuId, country, buyerId), OneProduct(productId, skuId, country);
    PieceIsDeducted(productId, skuId, country, buyerId);
    SaveIsRolledBack(productId, skuId, country, buyerId, ApplyShop(ApplyShop(OpenShop([1]), t[0], catalog), t[1], catalog));
    assert t[..4] == t && t[..3] == [t[0], t[1], t[2]] && t[..3][..2] == [t[0], t[1]] && t[..3][..2][..1] == [t[0]];
    assert RunShop(OpenShop([1]), [t[0]], catalog) == ApplyShop(OpenShop([1]), t[0], catalog);
    assert RunShop(OpenShop([1]), [t[0], t[1]], catalog) == ApplyShop(RunShop(OpenShop([1]), [t[0]], catalog), t[1], catalog);
    assert RunShop(OpenShop([1]), t[..3], catalog) == ApplyShop(RunShop(OpenShop([1]), [t[0], t[1]], catalog), t[2], catalog);
    assert !SavesAreAtomic(OpenShop([1]), t, catalog);
    StockIsConserved([1], t, catalog);
  }
}
