/**
 The static unit table of the converter: four categories, each owning an
 ordered list of units. A unit's factor is the multiplier that turns one
 base unit of its category (meter, square meter, kilogram) into that unit.
 Temperature units carry a nominal factor of 1 that the conversion never uses.
 */
module Units {
  import opened Optional

  datatype Unit = Unit(id: string, name: string, factor: real)

  datatype Category = Length | Temperature | Area | Weight

  /** The ordered unit list of each category, in table order. */
  function UnitsOf(c: Category): seq<Unit>
  {
    match c
    case Length => [
      Unit("meter", "Meter (m)", 1.0),
      Unit("km", "Kilometer (km)", 0.001),
      Unit("cm", "Centimeter (cm)", 100.0),
      Unit("mm", "Millimeter (mm)", 1000.0),
      Unit("mile", "Mile (mi)", 0.000621371),
      Unit("yard", "Yard (yd)", 1.09361),
      Unit("foot", "Foot (ft)", 3.28084),
      Unit("inch", "Inch (in)", 39.3701)
    ]
    case Temperature => [
      Unit("celsius", "Celsius (°C)", 1.0),
      Unit("fahrenheit", "Fahrenheit (°F)", 1.0),
      Unit("kelvin", "Kelvin (K)", 1.0)
    ]
    case Area => [
      Unit("sqmeter", "Square Meter (m²)", 1.0),
      Unit("sqkm", "Square Kilometer (km²)", 0.000001),
      Unit("sqft", "Square Foot (ft²)", 10.7639),
      Unit("acre", "Acre", 0.000247105),
      Unit("hectare", "Hectare", 0.0001),
      Unit("cent", "Cent", 0.01)
    ]
    case Weight => [
      Unit("kg", "Kilogram (kg)", 1.0),
      Unit("g", "Gram (g)", 1000.0),
      Unit("mg", "Milligram (mg)", 1000000.0),
      Unit("pound", "Pound (lb)", 2.20462),
      Unit("ounce", "Ounce (oz)", 35.274),
      Unit("ton", "Metric Ton (t)", 0.001)
    ]
  }

  /** No two units of the list share an id. */
  ghost predicate UniqueIds(units: seq<Unit>)
  {
    forall i, j :: 0 <= i < j < |units| ==> units[i].id != units[j].id
  }

  /** Every factor is strictly positive, so dividing by it is defined. */
  ghost predicate PositiveFactors(units: seq<Unit>)
  {
    forall u :: u in units ==> u.factor > 0.0
  }

  /** What the rest of the converter relies on: a default source unit and a
      distinct default target unit exist, ids identify units, factors divide. */
  ghost predicate WellFormed(units: seq<Unit>)
  {
    && |units| >= 2
    && UniqueIds(units)
    && PositiveFactors(units)
  }

  lemma TableWellFormed(c: Category)
    ensures WellFormed(UnitsOf(c))
  {
    match c
    case Length => LengthWellFormed();
    case Temperature => TemperatureWellFormed();
    case Area => AreaWellFormed();
    case Weight => WeightWellFormed();
  }

  lemma LengthWellFormed()
    ensures WellFormed(UnitsOf(Length))
  {
  }

  lemma TemperatureWellFormed()
    ensures WellFormed(UnitsOf(Temperature))
  {
  }

  lemma AreaWellFormed()
    ensures WellFormed(UnitsOf(Area))
  {
  }

  lemma WeightWellFormed()
    ensures WellFormed(UnitsOf(Weight))
  {
  }

  /** The category whose table lists `id`, if any: a reverse index of the table. */
  function OwnerOf(id: string): Option<Category>
  {
    if id in ["meter", "km", "cm", "mm", "mile", "yard", "foot", "inch"] then Some(Length)
    else if id in ["celsius", "fahrenheit", "kelvin"] then Some(Temperature)
    else if id in ["sqmeter", "sqkm", "sqft", "acre", "hectare", "cent"] then Some(Area)
    else if id in ["kg", "g", "mg", "pound", "ounce", "ton"] then Some(Weight)
    else None
  }

  /** Every id of a category's table is owned by that category. */
  lemma TableOwners(c: Category)
    ensures forall i :: 0 <= i < |UnitsOf(c)| ==> OwnerOf(UnitsOf(c)[i].id) == Some(c)
  {
    match c
    case Length => LengthOwners();
    case Temperature => TemperatureOwners();
    case Area => AreaOwners();
    case Weight => WeightOwners();
  }

  lemma LengthOwners()
    ensures forall i :: 0 <= i < |UnitsOf(Length)| ==> OwnerOf(UnitsOf(Length)[i].id) == Some(Length)
  {
  }

  lemma TemperatureOwners()
    ensures forall i :: 0 <= i < |UnitsOf(Temperature)| ==> OwnerOf(UnitsOf(Temperature)[i].id) == Some(Temperature)
  {
  }

  lemma AreaOwners()
    ensures forall i :: 0 <= i < |UnitsOf(Area)| ==> OwnerOf(UnitsOf(Area)[i].id) == Some(Area)
  {
  }

  lemma WeightOwners()
    ensures forall i :: 0 <= i < |UnitsOf(Weight)| ==> OwnerOf(UnitsOf(Weight)[i].id) == Some(Weight)
  {
  }

  /** Unit ids are distinct across categories too: an id that resolves in one
      category is owned by that category alone and resolves in no other. */
  lemma ResolvesInOneCategory(c: Category, d: Category, id: string)
    requires Find(UnitsOf(c), id).Some?
    ensures OwnerOf(id) == Some(c)
    ensures d != c ==> Find(UnitsOf(d), id).None?
  {
    TableOwners(c);
    TableOwners(d);
    if Find(UnitsOf(d), id).Some? {
      assert OwnerOf(id) == Some(d);
    }
  }

  /** The i-th unit is the first of the list to carry `id`. */
  ghost predicate FirstWithId(units: seq<Unit>, i: int, id: string)
    requires 0 <= i < |units|
  {
    units[i].id == id && forall j :: 0 <= j < i ==> units[j].id != id
  }

  /** The first unit of the list whose id is `id`, as `Array.prototype.find`
      returns it; None when no unit has that id. */
  function Find(units: seq<Unit>, id: string): (r: Option<Unit>)
    ensures r.Some? ==> r.value.id == id && r.value in units
    ensures r.Some? ==> exists i :: 0 <= i < |units| && units[i] == r.value && FirstWithId(units, i, id)
    ensures r.None? <==> forall i :: 0 <= i < |units| ==> units[i].id != id
  {
    if |units| == 0 then None
    else if units[0].id == id then Some(units[0])
    else Find(units[1..], id)
  }

  /** With unique ids, looking up the id of the i-th unit yields that unit. */
  lemma {:induction false} FindById(units: seq<Unit>, i: nat)
    requires UniqueIds(units)
    requires i < |units|
    ensures Find(units, units[i].id) == Some(units[i])
  {
    if i > 0 {
      assert units[0].id != units[i].id;
      assert units[1..][i - 1] == units[i];
      FindById(units[1..], i - 1);
    }
  }
}
