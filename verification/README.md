# Unit converter: the conversion engine in Dafny

This project models the conversion engine of a single-page unit converter.
The user picks a category (length, temperature, area, weight), types a value,
and picks a source unit and a target unit. The page then shows the converted
value and a line describing the formula used.

The model has six modules:

- `Optional` (optional.dfy): the `Option` datatype, which stands in for
  JavaScript's `undefined` when a lookup finds nothing.
- `Units` (units.dfy): the static unit table. Each category has an ordered list
  of units `{id, name, factor}`. A factor turns one base unit into that unit.
  The module also has `Find`, the lookup `units.find(u => u.id === id)`, and
  the table invariants.
- `Linear` (linear.dfy): the factor-based conversion `value / from.factor * to.factor`
  and the ratio `to.factor / from.factor` that the formula line shows.
- `Temperature` (temperature.dfy): the six affine formulas, chosen by the
  ordered pair of unit ids, plus the pass-through for any other pair. They are
  checked against an independent reference that reads the value into Celsius
  and out again.
- `Engine` (engine.dfy): the `convert` routine. It turns the category, the two
  unit ids, the classified input and the previous result field into the new
  result field. The module also holds the converter's state and two transitions:
  the default-unit reset on a category change, and the re-run of `convert`
  when the input or the ids change.
- `Formula` (formula.dfy): the formula line. It is a fixed text for
  temperature and `1 <label> = <ratio> <label>` otherwise. A label is the
  display name up to its first space.

Quantities are Dafny `real`s, so arithmetic is exact. The algebraic laws
(identity, round trip, composition, the displayed ratio equalling the
conversion of 1) therefore hold exactly in the model. In the program they hold
only up to IEEE-754 rounding. The input text is abstracted as
`Input = Empty | NotANumber | Num(v)`. The result field is
`Display = Blank | Message(text) | Shown(v)`: `Blank` is the initial empty
string, and `Shown(v)` stands for the formatted number.

Two details of the code are easy to misread:

- A label is the name cut at the first space character, as `split(' ')[0]` does.
  It is not cut at the first whitespace of any kind.
- `convert` is first run from a stale closure on a category change. It sees the
  new category but the old unit ids. `SwitchCategory` models that call. Unit ids
  are distinct across categories, so the call never converts with mismatched
  units: it leaves the result alone, or sets the validation message.
  `SelectCategory` then re-runs the routine with the reset ids. The result is
  settled, and it does not depend on what was shown before.

## Model

| member | source | states |
|---|---|---|
| Units.TableWellFormed | src/App.tsx:6-58 | every category has at least two units, unique ids and strictly positive factors |
| Units.ResolvesInOneCategory | src/App.tsx:6-58 | an id that resolves in one category is owned by that category and resolves in no other |
| Units.Find | src/App.tsx:99-100 | a found unit carries the id, is in the list and is the first one with that id; nothing is found exactly when no unit has the id |
| Units.FindById | src/App.tsx:99-100 | with unique ids, looking up the id of the i-th unit returns the i-th unit |
| Temperature.Convert | src/App.tsx:107-122 | a same-id pair, and any pair without one of the six formulas, returns the input unchanged |
| Temperature.ConvertViaCelsius | src/App.tsx:107-122 | each of the six formulas equals reading the value into Celsius on the source scale and out on the target scale |
| Temperature.IdentityIffPassThrough | src/App.tsx:107-122 | the routine leaves every value unchanged exactly for the pairs that have none of the six formulas |
| Temperature.PassThroughIffSameUnit | src/App.tsx:120-122 | among the table's ids, the routine leaves every value unchanged exactly for a same-unit pair |
| Temperature.RoundTrip | src/App.tsx:107-122 | X to Y followed by Y to X is the identity, for every pair of scales |
| Temperature.Compose | src/App.tsx:107-122 | X to Y followed by Y to Z equals X to Z, for all scales |
| Temperature.FahrenheitKelvinThroughCelsius | src/App.tsx:114-119 | F to K equals F to C then C to K; K to F equals K to C then C to F |
| Linear.Convert | src/App.tsx:124-126 | the result denotes the same base-unit quantity as the input: result / to.factor = value / from.factor |
| Linear.ConvertIsScaling | src/App.tsx:124-126 | converting multiplies by to.factor / from.factor, so converting 1 gives exactly that ratio |
| Linear.SameBaseQuantity | src/App.tsx:124-126 | w is the conversion of v if and only if w and v denote the same base quantity |
| Linear.Identity | src/App.tsx:124-126 | converting a unit to itself returns the value |
| Linear.RoundTrip | src/App.tsx:124-126 | A to B followed by B to A returns the original value |
| Linear.Compose | src/App.tsx:124-126 | A to B followed by B to C equals A to C |
| Linear.RatioChain | src/App.tsx:254-255 | the displayed ratios along a chain of units multiply |
| Engine.UnitOf | src/App.tsx:99-100 | a resolved id names a unit of the category with that id and a positive factor |
| Engine.TemperatureIdIsScale | src/App.tsx:26-30 | every temperature id is the id of one of the three scales |
| Engine.Convert | src/App.tsx:91-127 | empty or non-numeric input gives exactly the validation message; an unresolved id leaves the previous result; otherwise a value: the same base quantity outside temperature, and the via-Celsius reference for temperature |
| Engine.ConvertLinear | src/App.tsx:123-127 | outside temperature, a resolved pair is converted by rescaling with the two units' factors |
| Engine.ConvertIdentity | src/App.tsx:91-127 | in every category, converting a unit to itself shows the input |
| Engine.ConvertRoundTrip | src/App.tsx:91-127 | in every category, converting the shown value back gives the input back |
| Engine.ConvertIgnoresPrevious | src/App.tsx:99-102 | the previous result matters only when an id does not resolve |
| Engine.UnitAt | src/App.tsx:99-100 | the id of the i-th unit of a table resolves to that unit |
| Engine.MeterToKilometer | src/App.tsx:12-13 | converting 1000 from meter to km shows 1 |
| Engine.MeterToCentimeter | src/App.tsx:12-14 | converting 1 from meter to cm shows 100 |
| Engine.KilogramToGram | src/App.tsx:50-51 | converting 1 from kg to g shows 1000 |
| Engine.KnownTemperatureConversions | src/App.tsx:108-117 | the routine shows 32 and 212 for 0 and 100 degrees Celsius in Fahrenheit, 273.15 for 0 degrees Celsius in Kelvin, 0 and 100 for 32 and 212 degrees Fahrenheit in Celsius, and -273.15 for 0 kelvin in Celsius |
| Engine.Initial | src/App.tsx:62-66 | the initial state is length with input 1 and a blank result; the source is the length table's first unit (meter) and the target its second (km), and they resolve and differ |
| Engine.InitialIsLengthDefaults | src/App.tsx:64-86 | the initial source and target are the ones a change back to length selects |
| Engine.Refresh | src/App.tsx:136-139 | re-running the routine keeps the category, input and ids; with resolving ids it leaves the state settled and the result not blank |
| Engine.InitialDisplay | src/App.tsx:62-66 | once mounted, the page shows 0.001 (one meter in kilometers) |
| Engine.StaleIdsDoNotResolve | src/App.tsx:84-88 | ids selected in one category do not resolve in another |
| Engine.SwitchCategory | src/App.tsx:84-88 | after a category change the ids resolve in the new category and differ; the stale run keeps the old result, or shows the validation message for invalid input |
| Engine.SelectCategory | src/App.tsx:84-88 | selecting the active category changes nothing; selecting another leaves consistent ids and a settled result |
| Engine.SelectCategoryDefaults | src/App.tsx:84-86 | after a category change the source is the category's first unit and the target its second, and the result does not depend on what was shown before |
| Formula.FirstToken | src/App.tsx:253 | the label is a space-free prefix of the name that is either the whole name or followed by a space |
| Formula.FirstTokenUnique | src/App.tsx:253 | that description determines the label uniquely |
| Formula.Label | src/App.tsx:253-257 | a found unit's label is its first token; a missing unit prints as "undefined" |
| Formula.FormulaOf | src/App.tsx:244-258 | temperature gets a fixed text and the other categories get a ratio line; the ratio is defined exactly when both ids resolve |
| Formula.FormulaOfResolved | src/App.tsx:253-257 | with both ids resolved, the line has the two units' labels and the ratio to.factor / from.factor |
| Formula.FormulaOfUnresolved | src/App.tsx:253-255 | an unresolved source id prints as "undefined" and the ratio is NaN |
| Formula.NoConversionIffPassThrough | src/App.tsx:244-251 | the text is "No conversion needed" exactly when the temperature routine leaves every value unchanged; for the table's ids, exactly for a same-unit pair |
| Formula.RatioIsConversionOfOne | src/App.tsx:254-255 | the displayed ratio equals the conversion of input 1 from source to target |
| Formula.SquareMeterLabel | src/App.tsx:37 | "Square Meter (m²)" is labelled "Square" |
| Formula.MetricTonLabel | src/App.tsx:55 | "Metric Ton (t)" is labelled "Metric" |
| Formula.MeterLabels | src/App.tsx:12-13 | "Meter (m)" and "Kilometer (km)" are labelled "Meter" and "Kilometer" |
| Formula.AcreLabel | src/App.tsx:40 | a name without a space, "Acre", is its own label |
| Formula.MeterToKilometerFormula | src/App.tsx:253-257 | meter to km reads 1 Meter = 0.001 Kilometer |
| Formula.CelsiusToFahrenheitFormula | src/App.tsx:244-251 | Celsius to Fahrenheit reads "(°C × 9/5) + 32 = °F", and Kelvin to Kelvin reads "No conversion needed" |

## Left out

- Parsing of the input text (`!inputValue`, `isNaN(Number(...))`, `parseFloat`) is left out. The input arrives already classified as `Input`, so quirks such as whitespace-only input or "Infinity" are not modelled.
- Number formatting (`toLocaleString('en-US', { maximumFractionDigits: 6 })`) of the result and of the ratio is left out. It depends on the locale and on floating-point rounding, so `Shown(v)` and the ratio carry the exact value instead.
- IEEE-754 double arithmetic is left out. The round-trip, identity and composition laws hold exactly over `real`, but only approximately in the program. Likewise `to.factor / from.factor` and `1 / from.factor * to.factor` are equal here, but may differ in their last bit there.
- Dark mode, the icons, the colour classes, the markup and the "Available Units" list are left out. They are presentation only.
- React scheduling is left out beyond the order of the two effects that `SelectCategory` and `Refresh` model. The one render in which the new category is shown with the old unit ids is not modelled as a separate state. For that render `FormulaOf` with unresolved ids gives the "undefined" labels it would print.
- The exact whitespace and line break inside the formula template literal are left out: `RatioLine` keeps only the two labels and the ratio.
