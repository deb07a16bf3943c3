/** The price catalogue that order pricing reads: specialities and ingredients
    keyed by their database ids, each with one price column per pizza size.
    Money is held as integer cents. */
module Catalog {
  import opened Wrappers

  /** The three per-size price columns of a speciality or an ingredient;
      a column may hold no value (a database null). */
  datatype SizePrices = SizePrices(small: Option<int>, medium: Option<int>, large: Option<int>)

  /** A speciality: its per-size base prices and the ids of its default
      ingredients, in the order the ingredients relation yields them. */
  datatype Speciality = Speciality(prices: SizePrices, ingredientIds: seq<int>)

  type Specialities = map<int, Speciality>
  type Ingredients = map<int, SizePrices>

  /** The size values the order form offers; each names a price column. */
  const Small: string := "price_small"
  const Medium: string := "price_medium"
  const Large: string := "price_large"

  predicate IsKnownSize(size: string) {
    size == Small || size == Medium || size == Large
  }

  /** PHP's `empty` on an optional form value: absent, "" and "0" are blank. */
  predicate Filled(v: Option<string>) {
    v.Some? && v.value != "" && v.value != "0"
  }

  /** A possibly-null price as PHP arithmetic uses it: null counts as 0. */
  function OrZero(p: Option<int>): int {
    match p
    case Some(v) => v
    case None => 0
  }

  /** The `match` on the size: the record's column for a known size, 0 for any
      other size, and 0 when there is no record or the column is null. */
  function PriceBySize(rec: Option<SizePrices>, size: string): (r: int)
    ensures rec.None? || !IsKnownSize(size) ==> r == 0
    ensures rec.Some? && size == Small ==> r == OrZero(rec.value.small)
    ensures rec.Some? && size == Medium ==> r == OrZero(rec.value.medium)
    ensures rec.Some? && size == Large ==> r == OrZero(rec.value.large)
  {
    match rec
    case None => 0
    case Some(p) =>
      if size == Small then OrZero(p.small)
      else if size == Medium then OrZero(p.medium)
      else if size == Large then OrZero(p.large)
      else 0
  }

  /** `Ingredient::find(id)` followed by the size lookup. */
  function IngredientPrice(ings: Ingredients, id: int, size: string): (r: int)
    ensures id !in ings || !IsKnownSize(size) ==> r == 0
    ensures id in ings && size == Small ==> r == OrZero(ings[id].small)
    ensures id in ings && size == Medium ==> r == OrZero(ings[id].medium)
    ensures id in ings && size == Large ==> r == OrZero(ings[id].large)
  {
    PriceBySize(if id in ings then Some(ings[id]) else None, size)
  }
}
