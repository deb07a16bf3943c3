/** `updateTotals`: the order form's recomputation of the subtotal from the
    pizza rows, with its per-speciality accumulator updated in place. */
module OrderTotals {
  import opened Wrappers
  import opened Catalog
  import opened Sums
  import opened Pricing
  import opened PricingProperties

  /** The inner loop of `updateTotals`: looks each given ingredient up and
      adds its price for the size, 0 for a missing record or another size. */
  method ChargeIngredients(ings: Ingredients, unstored: seq<int>, size: string) returns (totalPrice: int)
    ensures totalPrice == ExtraCharge(ings, unstored, size)
  {
    totalPrice := 0;
    var j := 0;
    while j < |unstored|
      invariant 0 <= j <= |unstored|
      invariant totalPrice == ExtraCharge(ings, unstored[..j], size)
    {
      var ingredientUns := if unstored[j] in ings then Some(ings[unstored[j]]) else None;
      totalPrice := totalPrice + PriceBySize(ingredientUns, size);
      assert unstored[..j + 1][..j] == unstored[..j];
      j := j + 1;
    }
    assert unstored[..j] == unstored;
  }

  /** Returns the subtotal the form stores. The rows' specialities must be
      in the catalogue and selected rows must carry an ingredient list
      (otherwise the original fails on a null). */
  method UpdateTotals(specs: Specialities, ings: Ingredients, pizzas: seq<PizzaItem>) returns (subtotal: int)
    requires AllPriceable(specs, pizzas)
    ensures subtotal == OrderSubtotal(specs, ings, pizzas)
    ensures subtotal == ReferenceSubtotal(specs, ings, pizzas)
  {
    var selected := Selected(pizzas);
    var prices: map<int, int> := map[];
    var n := 0;
    assert selected[..0] == [];
    while n < |selected|
      invariant 0 <= n <= |selected|
      invariant AllSelectedPriceable(specs, selected[..n])
      invariant prices == PriceMap(specs, ings, selected[..n])
    {
      var item := selected[n];
      assert item in selected;
      var sid := item.specialityId.value;
      var size := item.size.value;
      var stored := specs[sid].ingredientIds;
      var provided := item.ingredientIds.value;
      var unstored := ExtraIds(provided, stored);

      var totalPrice := ChargeIngredients(ings, unstored, size);

      var price := PriceBySize(Some(specs[sid].prices), size);
      totalPrice := totalPrice + price * item.quantity;
      assert totalPrice == LineTotal(specs, ings, item);

      PriceMapSnoc(specs, ings, selected[..n], item);
      if sid in prices {
        prices := prices[sid := prices[sid] + totalPrice];
      } else {
        prices := prices[sid := totalPrice];
      }
      assert selected[..n + 1] == selected[..n] + [item];
      n := n + 1;
    }
    assert selected[..n] == selected;
    subtotal := Subtotal(prices, selected);
    SubtotalMatchesReference(specs, ings, pizzas);
  }
}
