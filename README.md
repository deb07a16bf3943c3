# Pizza order pricing

A model of the pricing logic in the order form of a pizza shop's admin
back-office (a Laravel/Filament application). The form holds a repeater of
pizza rows. Each row names a speciality (a recipe with per-size base prices
and a default set of ingredients), a quantity, a size and the ingredients
ticked for it. Whenever the rows change, `OrderResource::updateTotals`
recomputes the order subtotal. Beside it sit two small rules: what choosing a
speciality writes back into a row, and the default shape of a new order's
number.

The database is replaced by plain inputs:

- `Catalog.Specialities`: a map from speciality id to its three price
  columns (`price_small`, `price_medium`, `price_large`) and its default
  ingredient ids, in the order the `ingredients` relation yields them.
- `Catalog.Ingredients`: a map from ingredient id to its three price columns.
- `Pricing.PizzaItem`: a row with an optional speciality id, a quantity, an
  optional size and an optional list of ingredient ids.

Money is integer cents. A null price column counts as 0, as PHP arithmetic
treats it. A form value is blank in PHP's `empty` sense: absent, `""`, `"0"`
or the number 0.

Modules:

- `wrappers.dfy`: `Option`.
- `catalog.dfy`: the price catalogue and the by-size price lookup.
- `sums.dfy`: left-folded sums over sequences and their algebra.
- `pricing.dfy`: the specification functions. These are the row filter, the
  extra ingredients, a row's line total, the per-speciality accumulator, the
  subtotal, and an accumulator-free closed form of the subtotal.
- `pricing_properties.dfy`: what those functions promise.
- `update_totals.dfy`: `updateTotals` as an imperative method, with its loops
  and its accumulator map updated in place, proved equal to the functions.
- `speciality_selection.dfy`: the speciality-selection callback.
- `order_number.dfy`: the default order number and a parser for its shape.

The proofs pin down three quirks of the source:

- The base price is multiplied by the quantity twice. It is multiplied once
  into the row's line total and again in the subtotal's `reduce`. A lone row
  costs `(extras + base × q) × q` (`LoneItemSubtotal`).
- Rows that share a speciality share one accumulated total, and each of them
  pays that whole total per unit of its own quantity
  (`SharedSpecialitySubtotal`).
- Unticking a default ingredient never lowers the price
  (`RemovingDefaultKeepsLineTotal`).

## Model

| member | source | states |
|---|---|---|
| `Catalog.PriceBySize` | app/Filament/Resources/Shop/OrderResource.php:684-690 | The size `match`: each of the three sizes gives its own column, a null column gives 0, any other size or a missing record gives 0 |
| `Catalog.IngredientPrice` | app/Filament/Resources/Shop/OrderResource.php:667-676 | An ingredient id with no record, or a size other than the three, costs 0; otherwise the ingredient's column for the size |
| `Pricing.Selected` | app/Filament/Resources/Shop/OrderResource.php:645 | A row is kept exactly when its speciality id, quantity and size are all non-blank; the kept rows are never more than the input rows |
| `Pricing.ExtraIds` | app/Filament/Resources/Shop/OrderResource.php:659-661 | `array_diff`: an id is extra exactly when it was ticked and is not one of the speciality's defaults |
| `PricingProperties.SelectedCounts` | app/Filament/Resources/Shop/OrderResource.php:645 | The filter keeps every copy of a selected row and drops every copy of an unselected one, so identical rows are all priced |
| `PricingProperties.ExtraIdsCounts` | app/Filament/Resources/Shop/OrderResource.php:661 | `array_diff` keeps every copy of a ticked non-default id and drops every default, so a repeated extra is charged once per copy |
| `PricingProperties.SelectedAppend` | app/Filament/Resources/Shop/OrderResource.php:645 | Filtering a concatenation filters each part separately |
| `PricingProperties.DefaultsOnlyCostNothing` | app/Filament/Resources/Shop/OrderResource.php:659-679 | There are no extras exactly when every ticked id is a default; in particular, ticking exactly the defaults costs nothing extra |
| `PricingProperties.RemovingDefaultKeepsExtras` | app/Filament/Resources/Shop/OrderResource.php:659-661 | Unticking a default ingredient leaves the list of extras unchanged |
| `PricingProperties.RemovingDefaultKeepsLineTotal` | app/Filament/Resources/Shop/OrderResource.php:657-693 | Unticking a default ingredient leaves the row's line total unchanged: removals never lower the price |
| `PricingProperties.AddingExtraChargesItsPrice` | app/Filament/Resources/Shop/OrderResource.php:663-678 | Ticking one more non-default ingredient raises the line total by exactly that ingredient's price for the row's size, charged once and not per unit |
| `PricingProperties.UnknownSizeIsFree` | app/Filament/Resources/Shop/OrderResource.php:667-690 | A size other than the three price columns prices the whole row at 0 |
| `PricingProperties.UnknownIngredientsAreFree` | app/Filament/Resources/Shop/OrderResource.php:665-679 | When no ticked ingredient has a record, the line total is the base price times the quantity |
| `PricingProperties.PriceMapStep` | app/Filament/Resources/Shop/OrderResource.php:695-700 | A row leaves the entries of every other speciality unchanged, both their presence and their value |
| `PricingProperties.PriceMapAt` | app/Filament/Resources/Shop/OrderResource.php:657-701 | After all rows, the accumulator has an entry exactly for the specialities of the rows, each equal to the sum of those rows' line totals |
| `PricingProperties.SharedSpecialityPriceMap` | app/Filament/Resources/Shop/OrderResource.php:695-700 | Two rows of one speciality produce a single entry holding the sum of their line totals |
| `PricingProperties.SubtotalMatchesReference` | app/Filament/Resources/Shop/OrderResource.php:704-707 | The subtotal equals the closed form: the sum over selected rows of their speciality's total line price times the row's quantity |
| `PricingProperties.SubtotalOrderIndependent` | app/Filament/Resources/Shop/OrderResource.php:704-707 | Reordering the rows does not change the subtotal |
| `PricingProperties.UnselectedRowIsIgnored` | app/Filament/Resources/Shop/OrderResource.php:645 | Inserting a row with a blank speciality, quantity or size anywhere leaves the subtotal unchanged |
| `PricingProperties.NothingSelectedIsZero` | app/Filament/Resources/Shop/OrderResource.php:704-707 | With no selected row the subtotal is 0 |
| `PricingProperties.LoneItemSubtotal` | app/Filament/Resources/Shop/OrderResource.php:693-707 | A lone row costs (extras + base × q) × q: the quantity is applied twice to the base price |
| `PricingProperties.SharedSpecialitySubtotal` | app/Filament/Resources/Shop/OrderResource.php:695-707 | Two rows of one speciality cost (t1 + t2) × (q1 + q2), where t1 and t2 are their line totals |
| `OrderTotals.ChargeIngredients` | app/Filament/Resources/Shop/OrderResource.php:663-679 | The inner loop's total is the sum of the size prices of the extra ingredients |
| `OrderTotals.UpdateTotals` | app/Filament/Resources/Shop/OrderResource.php:640-711 | The stored subtotal equals the accumulator-then-reduce specification and the closed form, given that every selected row's speciality exists and the row carries an ingredient list |
| `SpecialitySelection.SelectSpeciality` | app/Filament/Resources/Shop/OrderResource.php:441-447 | The unit price is 0 with no size chosen; otherwise it is the chosen speciality's column for the size, or 0 if that column is null or the speciality is unknown. The ingredient list becomes the speciality's defaults, or empty for an unknown speciality |
| `SpecialitySelection.SelectionPricesAtUnitPrice` | app/Filament/Resources/Shop/OrderResource.php:444-447 | Right after a speciality is chosen, the row's line total is unit price × quantity, because nothing ticked is extra |
| `OrderNumber.Format` | app/Filament/Resources/Shop/OrderResource.php:296 | The layout is "OR-", then six digits of `dmy`, "-", four digits of `Hi`, "-" and four digits of suffix, 19 characters in all |
| `OrderNumber.DefaultNumber` | app/Filament/Resources/Shop/OrderResource.php:294-301 | The default number has 19 characters, within the field's `maxLength` of 32. It has the "OR-" prefix and dashes at positions 9 and 14, and its suffix never starts with 0 |
| `OrderNumber.Parse` | app/Filament/Resources/Shop/OrderResource.php:296 | A string parses exactly when it has the default number's shape, and what it yields fits the field widths |
| `OrderNumber.FormatParseRoundTrip` | app/Filament/Resources/Shop/OrderResource.php:296 | Formatting parts that fit their widths and parsing the result gives the parts back |
| `OrderNumber.ParseFormatRoundTrip` | app/Filament/Resources/Shop/OrderResource.php:296 | Every string of the shape is the formatting of what it parses to |
| `OrderNumber.DefaultNumberRecords` | app/Filament/Resources/Shop/OrderResource.php:296 | A default number records the day, month, two-digit year, hour, minute and random draw it was made from |
| `OrderNumber.DefaultNumberCollision` | app/Filament/Resources/Shop/OrderResource.php:296-301 | Two default numbers are equal exactly when they come from the same stamp fields (year modulo 100) and the same draw. So the `unique` rule can only trip on orders opened in the same minute |

## Left out

- Filament form, table, page and widget configuration, and the rest of the
  resources and pages. They are declarative UI with no behaviour to verify.
- Eloquent queries. `Speciality::find`, `Ingredient::find` and the
  `ingredients` relation become the input maps.
- `OrderTotals.UpdateTotals` has two preconditions for cases where the
  original fails with a null dereference. A selected row's speciality must
  exist, or `->ingredients` is read from null (line 659). A selected row
  must carry an ingredient list, or `array_map` gets null (line 660).
- Quantity is a whole number, blank exactly when it is 0. The form's
  numeric field is a string while `updateTotals` runs live, before the
  `min:1` rule is applied on submit. So a fractional quantity such as
  `"1.5"` (priced as a float), and a zero spelled other than `0` or `"0"`
  (`"0.0"` and `"00"` pass PHP's `empty` and are priced), are not modelled.
- `intval` on ingredient ids. Ids are integers from the start.
- `number_format` at line 710 and decimal money. Prices and the subtotal are
  integers (cents), so there is no rounding.
- The clock and `random_int` in the order number. The moment and the draw
  are parameters. The draw lies in 1000..9999, as `random_int` guarantees.
  The `unique` rule (a database query) is left out.
- `SpecialitySelection.SelectSpeciality` looks the unit price up only
  through the three size columns. The original reads the property the size
  names, and for a size outside the three offered options it could read
  another attribute. The size field only offers the three columns.
- The `placeholder_ingredients` text (line 447). It is a display string of
  ingredient names.
- The half-and-half speciality callbacks (lines 514-519 and 569-574). They
  only reset an ingredient list. `updateTotals` prices a half-and-half row by
  its first speciality and first ingredient list alone, and the model does
  the same. The second half's fields never enter the price.
- PDF streaming, database notifications, Carbon date indicators,
  migrations, model classes and the login prefill. These are I/O, library
  formatting or declarations.
