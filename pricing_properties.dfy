/** What the pricing rules promise: the filter, the extra-ingredient charge,
    the accumulator, and the subtotal's closed form and its quirks. */
module PricingProperties {
  import opened Wrappers
  import opened Catalog
  import opened Sums
  import opened Pricing

  // ---- The row filter ----

  lemma {:induction false} SelectedAppend(a: seq<PizzaItem>, b: seq<PizzaItem>)
    ensures Selected(a + b) == Selected(a) + Selected(b)
  {
    if a != [] {
      assert (a + b)[0] == a[0];
      assert (a + b)[1..] == a[1..] + b;
      SelectedAppend(a[1..], b);
    } else {
      assert a + b == b;
    }
  }

  /** The filter keeps every copy of a selected row and no copy of any
      other row: identical rows are all priced. */
  lemma {:induction false} SelectedCounts(items: seq<PizzaItem>, it: PizzaItem)
    ensures multiset(Selected(items))[it] == if IsSelected(it) then multiset(items)[it] else 0
  {
    if items != [] {
      SelectedCounts(items[1..], it);
      assert items == [items[0]] + items[1..];
    }
  }

  /** Summing an amount that is 0 on unselected rows over the selected rows
      gives the sum over all rows. */
  lemma {:induction false} SumOverSelected(s: seq<PizzaItem>, f: PizzaItem -> int)
    requires forall i | 0 <= i < |s| :: !IsSelected(s[i]) ==> f(s[i]) == 0
    ensures SumBy(Selected(s), f) == SumBy(s, f)
  {
    if s != [] {
      SumOverSelected(s[1..], f);
      assert s == [s[0]] + s[1..];
      SumByAppend([s[0]], s[1..], f);
      assert SumBy([s[0]], f) == f(s[0]) by { assert [s[0]][..0] == []; }
      if IsSelected(s[0]) {
        SumByAppend([s[0]], Selected(s[1..]), f);
      }
    }
  }

  // ---- The extra-ingredient charge ----

  lemma {:induction false} ExtraIdsAppend(a: seq<int>, b: seq<int>, stored: seq<int>)
    ensures ExtraIds(a + b, stored) == ExtraIds(a, stored) + ExtraIds(b, stored)
  {
    if b != [] {
      assert (a + b)[..|a + b| - 1] == a + b[..|b| - 1];
      assert (a + b)[|a + b| - 1] == b[|b| - 1];
      ExtraIdsAppend(a, b[..|b| - 1], stored);
    } else {
      assert a + b == a;
    }
  }

  /** `array_diff` keeps every copy of a non-default id and drops every
      default: a repeated extra is charged once per copy. */
  lemma {:induction false} ExtraIdsCounts(provided: seq<int>, stored: seq<int>, x: int)
    ensures multiset(ExtraIds(provided, stored))[x] == if x in stored then 0 else multiset(provided)[x]
  {
    if provided != [] {
      var init := provided[..|provided| - 1];
      ExtraIdsCounts(init, stored, x);
      assert provided == init + [provided[|provided| - 1]];
    }
  }

  /** No extra is charged exactly when every chosen ingredient is a default;
      in particular when the chosen list is the speciality's own list. */
  lemma DefaultsOnlyCostNothing(ings: Ingredients, provided: seq<int>, stored: seq<int>, size: string)
    ensures ExtraIds(provided, stored) == [] <==> forall x | x in provided :: x in stored
    ensures (forall x | x in provided :: x in stored) ==> ExtraCharge(ings, ExtraIds(provided, stored), size) == 0
  {
    var e := ExtraIds(provided, stored);
    if e != [] {
      assert e[0] in e;
    }

  }

  /** Unticking a default ingredient leaves the extras, and so the charge,
      as they were: removing a default never lowers the price. */
  lemma RemovingDefaultKeepsExtras(provided: seq<int>, stored: seq<int>, i: nat)
    requires i < |provided| && provided[i] in stored
    ensures ExtraIds(provided[..i] + provided[i + 1..], stored) == ExtraIds(provided, stored)
  {
    var d := provided[i];
    assert provided == provided[..i] + [d] + provided[i + 1..];
    ExtraIdsAppend(provided[..i] + [d], provided[i + 1..], stored);
    ExtraIdsAppend(provided[..i], [d], stored);
    ExtraIdsAppend(provided[..i], provided[i + 1..], stored);
    assert ExtraIds([d], stored) == [] by { assert [d][..0] == []; }
  }

  lemma RemovingDefaultKeepsLineTotal(specs: Specialities, ings: Ingredients, it: PizzaItem, i: nat)
    requires IsSelected(it) && Priceable(specs, it)
    requires i < |it.ingredientIds.value|
    requires it.ingredientIds.value[i] in SpecialityOf(specs, it).ingredientIds
    ensures var ids := it.ingredientIds.value;
            LineTotal(specs, ings, it.(ingredientIds := Some(ids[..i] + ids[i + 1..]))) == LineTotal(specs, ings, it)
  {
    RemovingDefaultKeepsExtras(it.ingredientIds.value, SpecialityOf(specs, it).ingredientIds, i);
  }

  /** Ticking one more non-default ingredient adds exactly its price. */
  lemma AddingExtraChargesItsPrice(specs: Specialities, ings: Ingredients, it: PizzaItem, x: int)
    requires IsSelected(it) && Priceable(specs, it)
    requires x !in SpecialityOf(specs, it).ingredientIds
    ensures var more := it.(ingredientIds := Some(it.ingredientIds.value + [x]));
            LineTotal(specs, ings, more) == LineTotal(specs, ings, it) + IngredientPrice(ings, x, it.size.value)
  {
    var ids := it.ingredientIds.value;
    var stored := SpecialityOf(specs, it).ingredientIds;
    ExtraIdsAppend(ids, [x], stored);
    assert ExtraIds([x], stored) == [x] by { assert [x][..0] == []; }
    assert (ExtraIds(ids, stored) + [x])[..|ExtraIds(ids, stored)|] == ExtraIds(ids, stored);
  }

  /** A size outside the three price columns prices a whole row at 0. */
  lemma UnknownSizeIsFree(specs: Specialities, ings: Ingredients, it: PizzaItem)
    requires IsSelected(it) && Priceable(specs, it)
    requires !IsKnownSize(it.size.value)
    ensures LineTotal(specs, ings, it) == 0
  {
    var e := RowExtras(specs, it);
    SumByZero(e, id => IngredientPrice(ings, id, it.size.value));
  }

  /** Extras that have no ingredient record cost nothing. */
  lemma UnknownIngredientsAreFree(specs: Specialities, ings: Ingredients, it: PizzaItem)
    requires IsSelected(it) && Priceable(specs, it)
    requires forall x | x in it.ingredientIds.value :: x !in ings
    ensures LineTotal(specs, ings, it) == BasePrice(specs, it) * it.quantity
  {
    var e := RowExtras(specs, it);
    assert forall i | 0 <= i < |e| :: e[i] in it.ingredientIds.value;
    SumByZero(e, id => IngredientPrice(ings, id, it.size.value));
  }

  // ---- The per-speciality accumulator ----

  /** After any sequence of selected rows, the accumulator has an entry for
      exactly the specialities seen, each holding the sum of their rows'
      line totals. */
  lemma {:induction false} PriceMapAt(specs: Specialities, ings: Ingredients, sel: seq<PizzaItem>, k: int)
    requires AllSelectedPriceable(specs, sel)
    ensures k in PriceMap(specs, ings, sel) <==> exists it :: it in sel && it.specialityId == Some(k)
    ensures k in PriceMap(specs, ings, sel) ==> PriceMap(specs, ings, sel)[k] == SpecialityTotal(specs, ings, sel, k)
    ensures k !in PriceMap(specs, ings, sel) ==> SpecialityTotal(specs, ings, sel, k) == 0
  {
    if sel != [] {
      var init := sel[..|sel| - 1];
      var last := sel[|sel| - 1];
      assert sel == init + [last];
      assert forall x :: x in sel <==> x in init || x == last;
      PriceMapAt(specs, ings, init, k);
      PriceMapStep(specs, ings, init, last, k);
      if last.specialityId == Some(k) {
        assert last in sel;
      }
    }
  }

  /** Appending a row updates the accumulator exactly as the loop body does:
      adds the row's line total to its speciality's entry, creating it at need. */
  lemma PriceMapSnoc(specs: Specialities, ings: Ingredients, sel: seq<PizzaItem>, it: PizzaItem)
    requires AllSelectedPriceable(specs, sel) && IsSelected(it) && Priceable(specs, it)
    ensures AllSelectedPriceable(specs, sel + [it])
    ensures var m := PriceMap(specs, ings, sel);
            var k := it.specialityId.value;
            var t := LineTotal(specs, ings, it);
            PriceMap(specs, ings, sel + [it]) == if k in m then m[k := m[k] + t] else m[k := t]
  {
    assert (sel + [it])[..|sel|] == sel;
  }

  /** A row changes only its own speciality's entry, by its line total. */
  lemma PriceMapStep(specs: Specialities, ings: Ingredients, sel: seq<PizzaItem>, it: PizzaItem, k: int)
    requires AllSelectedPriceable(specs, sel) && IsSelected(it) && Priceable(specs, it)
    ensures AllSelectedPriceable(specs, sel + [it])
    ensures k != it.specialityId.value ==>
      (k in PriceMap(specs, ings, sel + [it]) <==> k in PriceMap(specs, ings, sel))
    ensures k != it.specialityId.value && k in PriceMap(specs, ings, sel) ==>
      PriceMap(specs, ings, sel + [it])[k] == PriceMap(specs, ings, sel)[k]
    ensures k == it.specialityId.value ==>
      PriceMap(specs, ings, sel + [it])[k]
        == (if k in PriceMap(specs, ings, sel) then PriceMap(specs, ings, sel)[k] else 0) + LineTotal(specs, ings, it)
  {
    assert (sel + [it])[..|sel|] == sel;
  }

  // ---- The subtotal ----

  /** The subtotal is the closed form: every selected row pays its
      speciality's accumulated total once per unit of its own quantity. */
  lemma SubtotalMatchesReference(specs: Specialities, ings: Ingredients, pizzas: seq<PizzaItem>)
    requires AllPriceable(specs, pizzas)
    ensures OrderSubtotal(specs, ings, pizzas) == ReferenceSubtotal(specs, ings, pizzas)
  {
    var sel := Selected(pizzas);
    var pm := PriceMap(specs, ings, sel);
    var term := it => ReferenceTerm(specs, ings, pizzas, it);
    forall i | 0 <= i < |sel|
      ensures SubtotalTerm(pm, sel[i]) == term(sel[i])
    {
      var it := sel[i];
      assert it in sel;
      var k := it.specialityId.value;
      PriceMapAt(specs, ings, sel, k);
      SumOverSelected(pizzas, it => LineShare(specs, ings, k, it));
    }
    SumByCongruent(sel, it => SubtotalTerm(pm, it), term);
    SumOverSelected(pizzas, term);
  }

  /** The subtotal does not depend on the order of the rows. */
  lemma SubtotalOrderIndependent(specs: Specialities, ings: Ingredients, p: seq<PizzaItem>, q: seq<PizzaItem>)
    requires AllPriceable(specs, p)
    requires multiset(p) == multiset(q)
    ensures AllPriceable(specs, q)
    ensures OrderSubtotal(specs, ings, p) == OrderSubtotal(specs, ings, q)
  {
    assert forall it :: it in q <==> it in p by {
      forall it ensures it in q <==> it in p {
        assert it in q <==> it in multiset(q);
        assert it in p <==> it in multiset(p);
      }
    }
    SubtotalMatchesReference(specs, ings, p);
    SubtotalMatchesReference(specs, ings, q);
    forall i | 0 <= i < |p|
      ensures ReferenceTerm(specs, ings, p, p[i]) == ReferenceTerm(specs, ings, q, p[i])
    {
      if IsSelected(p[i]) && Priceable(specs, p[i]) {
        SumByPermutation(p, q, it => LineShare(specs, ings, p[i].specialityId.value, it));
      }
    }
    SumByCongruent(p, it => ReferenceTerm(specs, ings, p, it), it => ReferenceTerm(specs, ings, q, it));
    SumByPermutation(p, q, it => ReferenceTerm(specs, ings, q, it));
  }

  /** A row that is not selected changes nothing, wherever it stands. */
  lemma UnselectedRowIsIgnored(specs: Specialities, ings: Ingredients, a: seq<PizzaItem>, x: PizzaItem, b: seq<PizzaItem>)
    requires AllPriceable(specs, a + b)
    requires !IsSelected(x)
    ensures AllPriceable(specs, a + [x] + b)
    ensures OrderSubtotal(specs, ings, a + [x] + b) == OrderSubtotal(specs, ings, a + b)
  {
    SelectedAppend(a + [x], b);
    SelectedAppend(a, [x]);
    SelectedAppend(a, b);
    assert Selected([x]) == [] by { assert [x][1..] == []; }
    assert Selected(a) + [] == Selected(a);
  }

  /** With no selected row the subtotal is 0. */
  lemma NothingSelectedIsZero(specs: Specialities, ings: Ingredients, pizzas: seq<PizzaItem>)
    requires AllPriceable(specs, pizzas)
    requires forall it | it in pizzas :: !IsSelected(it)
    ensures OrderSubtotal(specs, ings, pizzas) == 0
  {
  }

  /** A lone row pays its quantity twice on the base price:
      (extras + base × q) × q. */
  lemma LoneItemSubtotal(specs: Specialities, ings: Ingredients, it: PizzaItem)
    requires IsSelected(it) && Priceable(specs, it)
    ensures AllPriceable(specs, [it])
    ensures OrderSubtotal(specs, ings, [it])
      == (ExtraCharge(ings, RowExtras(specs, it), it.size.value) + BasePrice(specs, it) * it.quantity) * it.quantity
  {
    assert Selected([it]) == [it] by { assert [it][1..] == []; }
    assert [it][..0] == [];
    var pm := PriceMap(specs, ings, [it]);
    PriceMapStep(specs, ings, [], it, it.specialityId.value);
    assert [] + [it] == [it];
    SumBySingleton(it, it => SubtotalTerm(pm, it));
  }

  /** Two rows of one speciality share a single accumulator entry holding
      the sum of their line totals. */
  lemma SharedSpecialityPriceMap(specs: Specialities, ings: Ingredients, a: PizzaItem, b: PizzaItem)
    requires IsSelected(a) && Priceable(specs, a) && IsSelected(b) && Priceable(specs, b)
    requires a.specialityId == b.specialityId
    ensures AllSelectedPriceable(specs, [a, b])
    ensures PriceMap(specs, ings, [a, b])
      == map[a.specialityId.value := LineTotal(specs, ings, a) + LineTotal(specs, ings, b)]
  {
    var k := a.specialityId.value;
    PriceMapStep(specs, ings, [], a, k);
    assert [] + [a] == [a];
    PriceMapStep(specs, ings, [a], b, k);
    assert [a] + [b] == [a, b];
    forall k' ensures k' in PriceMap(specs, ings, [a, b]) <==> k' == k {
      PriceMapStep(specs, ings, [], a, k');
      PriceMapStep(specs, ings, [a], b, k');
    }
  }

  /** Each of two rows of one speciality pays the shared total per unit:
      (t1 + t2) × (q1 + q2). */
  lemma SharedSpecialitySubtotal(specs: Specialities, ings: Ingredients, a: PizzaItem, b: PizzaItem)
    requires IsSelected(a) && Priceable(specs, a) && IsSelected(b) && Priceable(specs, b)
    requires a.specialityId == b.specialityId
    ensures AllPriceable(specs, [a, b])
    ensures OrderSubtotal(specs, ings, [a, b])
      == (LineTotal(specs, ings, a) + LineTotal(specs, ings, b)) * (a.quantity + b.quantity)
  {
    assert Selected([a, b]) == [a, b] by {
      assert [a, b][1..] == [b];
      assert [b][1..] == [];
    }
    SharedSpecialityPriceMap(specs, ings, a, b);
    var t := LineTotal(specs, ings, a) + LineTotal(specs, ings, b);
    var pm := PriceMap(specs, ings, [a, b]);
    var f := it => SubtotalTerm(pm, it);
    assert [a, b] == [a] + [b];
    SumByAppend([a], [b], f);
    SumBySingleton(a, f);
    SumBySingleton(b, f);
    assert SubtotalTerm(pm, a) == t * a.quantity;
    assert SubtotalTerm(pm, b) == t * b.quantity;
    assert t * (a.quantity + b.quantity) == t * a.quantity + t * b.quantity;
  }
}
