/** What choosing a speciality on a whole-pizza row writes back into the row:
    its unit price and its ingredient ticks. */
module SpecialitySelection {
  import opened Wrappers
  import opened Catalog
  import opened Pricing
  import opened PricingProperties

  datatype Selection = Selection(unitPrice: int, ingredientIds: seq<int>)

  function Find(specs: Specialities, state: Option<int>): Option<Speciality> {
    if state.Some? && state.value in specs then Some(specs[state.value]) else None
  }

  /** The new unit price and ingredient list for the chosen speciality
      `state` and the row's current size. */
  function SelectSpeciality(specs: Specialities, state: Option<int>, size: Option<string>): (r: Selection)
    ensures !Filled(size) ==> r.unitPrice == 0
    ensures Find(specs, state).None? ==> r.unitPrice == 0 && r.ingredientIds == []
    ensures Find(specs, state).Some? ==> r.ingredientIds == Find(specs, state).value.ingredientIds
    ensures Filled(size) && Find(specs, state).Some? && size.value == Small ==>
      r.unitPrice == OrZero(Find(specs, state).value.prices.small)
    ensures Filled(size) && Find(specs, state).Some? && size.value == Medium ==>
      r.unitPrice == OrZero(Find(specs, state).value.prices.medium)
    ensures Filled(size) && Find(specs, state).Some? && size.value == Large ==>
      r.unitPrice == OrZero(Find(specs, state).value.prices.large)
  {
    var sp := Find(specs, state);
    var unitPrice :=
      if Filled(size) then PriceBySize(if sp.Some? then Some(sp.value.prices) else None, size.value) else 0;
    var ids := if sp.Some? then sp.value.ingredientIds else [];
    Selection(unitPrice, ids)
  }

  /** Right after a speciality is chosen, the row is priced at unit price ×
      quantity: its ingredient list is the defaults, so nothing is extra. */
  lemma SelectionPricesAtUnitPrice(specs: Specialities, ings: Ingredients, it: PizzaItem)
    requires IsSelected(it) && it.specialityId.value in specs
    ensures var s := SelectSpeciality(specs, it.specialityId, it.size);
            var chosen := it.(ingredientIds := Some(s.ingredientIds));
            Priceable(specs, chosen) && LineTotal(specs, ings, chosen) == s.unitPrice * it.quantity
  {
    var s := SelectSpeciality(specs, it.specialityId, it.size);
    var chosen := it.(ingredientIds := Some(s.ingredientIds));
    DefaultsOnlyCostNothing(ings, s.ingredientIds, s.ingredientIds, it.size.value);
  }
}
