/** The pricing rules of the order form's pizza lines, as specification
    functions: which lines count, what a line costs, the per-speciality
    accumulator and the order subtotal built from it. */
module Pricing {
  import opened Wrappers
  import opened Catalog
  import opened Sums

  /** One row of the order's pizza repeater. The speciality id, size and
      ingredient list may be absent; a blank quantity is 0. */
  datatype PizzaItem = PizzaItem(
    specialityId: Option<int>,
    quantity: int,
    size: Option<string>,
    ingredientIds: Option<seq<int>>)

  /** A row takes part in pricing only with a non-empty speciality id,
      quantity and size (PHP's `empty` treats 0, "" and "0" as empty). */
  predicate IsSelected(it: PizzaItem) {
    it.specialityId.Some? && it.specialityId.value != 0 && it.quantity != 0 && Filled(it.size)
  }

  /** What pricing a selected row needs to not fail: its speciality is in the
      catalogue and it carries an ingredient list. */
  predicate Priceable(specs: Specialities, it: PizzaItem) {
    IsSelected(it) ==> it.specialityId.value in specs && it.ingredientIds.Some?
  }

  predicate AllPriceable(specs: Specialities, items: seq<PizzaItem>) {
    forall it | it in items :: Priceable(specs, it)
  }

  predicate AllSelectedPriceable(specs: Specialities, items: seq<PizzaItem>) {
    forall it | it in items :: IsSelected(it) && Priceable(specs, it)
  }

  /** The rows that survive the filter, in their original order. */
  function Selected(items: seq<PizzaItem>): (r: seq<PizzaItem>)
    ensures |r| <= |items|
    ensures forall it :: it in r <==> it in items && IsSelected(it)
  {
    if items == [] then []
    else if IsSelected(items[0]) then [items[0]] + Selected(items[1..])
    else Selected(items[1..])
  }

  /** `array_diff(provided, stored)`: the provided ids that are not defaults,
      keeping their order and any repetitions. */
  function ExtraIds(provided: seq<int>, stored: seq<int>): (r: seq<int>)
    ensures |r| <= |provided|
    ensures forall x :: x in r <==> x in provided && x !in stored
  {
    if provided == [] then []
    else
      var init := ExtraIds(provided[..|provided| - 1], stored);
      var x := provided[|provided| - 1];
      assert forall y :: y in provided <==> y in provided[..|provided| - 1] || y == x by {
        assert provided == provided[..|provided| - 1] + [x];
      }
      if x in stored then init else init + [x]
  }

  /** The charge for the given ingredient ids at one size. */
  function ExtraCharge(ings: Ingredients, ids: seq<int>, size: string): int {
    SumBy(ids, id => IngredientPrice(ings, id, size))
  }

  function SpecialityOf(specs: Specialities, it: PizzaItem): Speciality
    requires IsSelected(it) && Priceable(specs, it)
  {
    specs[it.specialityId.value]
  }

  /** The ingredients of a row charged on top of its speciality. */
  function RowExtras(specs: Specialities, it: PizzaItem): seq<int>
    requires IsSelected(it) && Priceable(specs, it)
  {
    ExtraIds(it.ingredientIds.value, SpecialityOf(specs, it).ingredientIds)
  }

  /** The speciality's price for the row's size. */
  function BasePrice(specs: Specialities, it: PizzaItem): int
    requires IsSelected(it) && Priceable(specs, it)
  {
    PriceBySize(Some(SpecialityOf(specs, it).prices), it.size.value)
  }

  /** A row's total: its extra ingredients, charged once, plus the base
      price times the quantity. */
  function LineTotal(specs: Specialities, ings: Ingredients, it: PizzaItem): int
    requires IsSelected(it) && Priceable(specs, it)
  {
    ExtraCharge(ings, RowExtras(specs, it), it.size.value) + BasePrice(specs, it) * it.quantity
  }

  /** The per-speciality accumulator after the given selected rows, in order. */
  function PriceMap(specs: Specialities, ings: Ingredients, sel: seq<PizzaItem>): (m: map<int, int>)
    requires AllSelectedPriceable(specs, sel)
  {
    if sel == [] then map[]
    else
      var init := sel[..|sel| - 1];
      var it := sel[|sel| - 1];
      assert forall x | x in init :: x in sel;
      assert it in sel;
      var m := PriceMap(specs, ings, init);
      var k := it.specialityId.value;
      var t := LineTotal(specs, ings, it);
      if k in m then m[k := m[k] + t] else m[k := t]
  }

  /** The `reduce` step: the accumulated total of the row's speciality times
      the row's quantity. */
  function SubtotalTerm(prices: map<int, int>, it: PizzaItem): int {
    if IsSelected(it) && it.specialityId.value in prices
    then prices[it.specialityId.value] * it.quantity
    else 0
  }

  function Subtotal(prices: map<int, int>, sel: seq<PizzaItem>): int {
    SumBy(sel, it => SubtotalTerm(prices, it))
  }

  /** The subtotal `updateTotals` stores for the given repeater rows. */
  function OrderSubtotal(specs: Specialities, ings: Ingredients, pizzas: seq<PizzaItem>): int
    requires AllPriceable(specs, pizzas)
  {
    var sel := Selected(pizzas);
    Subtotal(PriceMap(specs, ings, sel), sel)
  }

  // A closed form of the same subtotal, with no accumulator and no filter.

  /** What a row adds to speciality k's accumulated total. */
  function LineShare(specs: Specialities, ings: Ingredients, k: int, it: PizzaItem): int {
    if IsSelected(it) && Priceable(specs, it) && it.specialityId.value == k
    then LineTotal(specs, ings, it)
    else 0
  }

  /** The sum of the line totals of all selected rows of speciality k. */
  function SpecialityTotal(specs: Specialities, ings: Ingredients, items: seq<PizzaItem>, k: int): int {
    SumBy(items, it => LineShare(specs, ings, k, it))
  }

  function ReferenceTerm(specs: Specialities, ings: Ingredients, items: seq<PizzaItem>, it: PizzaItem): int {
    if IsSelected(it) && Priceable(specs, it)
    then SpecialityTotal(specs, ings, items, it.specialityId.value) * it.quantity
    else 0
  }

  /** Each selected row pays its speciality's whole total once per unit. */
  function ReferenceSubtotal(specs: Specialities, ings: Ingredients, items: seq<PizzaItem>): int {
    SumBy(items, it => ReferenceTerm(specs, ings, items, it))
  }
}
