/**
 The conversion routine and the little state it works on: the active
 category, the classified input, the selected source and target unit ids
 and the displayed result. Parsing of the input text is abstracted into
 `Input`, and the number formatting of the result into `Shown`.
 */
module Engine {
  import opened Optional
  import opened Units
  import Linear
  import Temperature

  /** The input field, already classified: empty, not a number, or a number. */
  datatype Input = Empty | NotANumber | Num(value: real)

  /** The result field: blank before the first conversion, the validation
      message, or a converted value. */
  datatype Display = Blank | Message(text: string) | Shown(value: real)

  const InvalidNumberMessage: string := "Please enter a valid number"

  /** Both unit ids name units of the category. */
  predicate Resolves(c: Category, fromId: string, toId: string)
  {
    Find(UnitsOf(c), fromId).Some? && Find(UnitsOf(c), toId).Some?
  }

  /** The unit an id names in a category; only asked of resolving ids. */
  function UnitOf(c: Category, id: string): (u: Unit)
    requires Find(UnitsOf(c), id).Some?
    ensures u in UnitsOf(c) && u.id == id && u.factor > 0.0
  {
    TableWellFormed(c);
    Find(UnitsOf(c), id).value
  }

  /** The temperature table's ids are exactly the three scales' ids. */
  lemma TemperatureIdIsScale(id: string)
    requires Find(UnitsOf(Temperature), id).Some?
    ensures Temperature.ScaleOf(id).Some?
    ensures Temperature.IdOf(Temperature.ScaleOf(id).value) == id
  {
  }

  /** One run of the routine: the new content of the result field, given
      its previous content. */
  function Convert(c: Category, fromId: string, toId: string, input: Input, previous: Display): (d: Display)
    ensures !input.Num? ==> d == Message(InvalidNumberMessage)
    ensures input.Num? && !Resolves(c, fromId, toId) ==> d == previous
    ensures input.Num? && Resolves(c, fromId, toId) && c != Temperature ==>
      && d.Shown?
      && d.value / UnitOf(c, toId).factor == input.value / UnitOf(c, fromId).factor
    ensures input.Num? && Resolves(c, fromId, toId) && c == Temperature ==>
      && Temperature.ScaleOf(fromId).Some? && Temperature.ScaleOf(toId).Some?
      && d == Shown(Temperature.FromCelsius(Temperature.ScaleOf(toId).value,
                    Temperature.ToCelsius(Temperature.ScaleOf(fromId).value, input.value)))
  {
    match input
    case Empty => Message(InvalidNumberMessage)
    case NotANumber => Message(InvalidNumberMessage)
    case Num(v) =>
      var from := Find(UnitsOf(c), fromId);
      var to := Find(UnitsOf(c), toId);
      if from.None? || to.None? then previous
      else if c == Temperature then
        TemperatureIdIsScale(fromId);
        TemperatureIdIsScale(toId);
        Temperature.ConvertViaCelsius(Temperature.ScaleOf(fromId).value, Temperature.ScaleOf(toId).value, v);
        Shown(Temperature.Convert(fromId, toId, v))
      else
        Shown(Linear.Convert(UnitOf(c, fromId), UnitOf(c, toId), v))
  }

  /** Converting a unit to itself shows the input, in every category. */
  lemma ConvertIdentity(c: Category, id: string, v: real, previous: Display)
    requires Find(UnitsOf(c), id).Some?
    ensures Convert(c, id, id, Num(v), previous) == Shown(v)
  {
    if c != Temperature {
      Linear.Identity(UnitOf(c, id), v);
    }
  }

  /** Converting the shown value back to the source unit gives the input
      back, in every category. */
  lemma ConvertRoundTrip(c: Category, a: string, b: string, v: real, p: Display, q: Display)
    requires Resolves(c, a, b)
    ensures Convert(c, a, b, Num(v), p).Shown?
    ensures Convert(c, b, a, Num(Convert(c, a, b, Num(v), p).value), q) == Shown(v)
  {
    var w := Convert(c, a, b, Num(v), p).value;
    if c == Temperature {
      TemperatureIdIsScale(a);
      TemperatureIdIsScale(b);
      ConvertTemperature(a, b, v, p);
      ConvertTemperature(b, a, w, q);
      Temperature.RoundTrip(Temperature.ScaleOf(a).value, Temperature.ScaleOf(b).value, v);
    } else {
      ConvertLinear(c, a, b, v, p);
      ConvertLinear(c, b, a, w, q);
      Linear.RoundTrip(UnitOf(c, a), UnitOf(c, b), v);
    }
  }

  /** Outside temperature, a resolved pair is converted by rescaling. */
  lemma ConvertLinear(c: Category, a: string, b: string, v: real, p: Display)
    requires Resolves(c, a, b) && c != Temperature
    ensures Convert(c, a, b, Num(v), p) == Shown(Linear.Convert(UnitOf(c, a), UnitOf(c, b), v))
  {
  }

  /** The i-th unit of a category's table is what its id resolves to. */
  lemma UnitAt(c: Category, i: nat)
    requires i < |UnitsOf(c)|
    ensures Find(UnitsOf(c), UnitsOf(c)[i].id).Some?
    ensures UnitOf(c, UnitsOf(c)[i].id) == UnitsOf(c)[i]
  {
    TableWellFormed(c);
    FindById(UnitsOf(c), i);
  }

  /** In temperature, a resolved pair is converted by the formula for the pair. */
  lemma ConvertTemperature(a: string, b: string, v: real, p: Display)
    requires Resolves(Temperature, a, b)
    ensures Convert(Temperature, a, b, Num(v), p) == Shown(Temperature.Convert(a, b, v))
  {
  }

  /** Reference values from the length and weight tables. */
  lemma MeterToKilometer(p: Display)
    ensures Convert(Length, "meter", "km", Num(1000.0), p) == Shown(1.0)
  {
    var from, to := UnitsOf(Length)[0], UnitsOf(Length)[1];
    UnitAt(Length, 0);
    UnitAt(Length, 1);
    ConvertLinear(Length, "meter", "km", 1000.0, p);
    assert Linear.Convert(from, to, 1000.0) == 1.0;
  }

  lemma MeterToCentimeter(p: Display)
    ensures Convert(Length, "meter", "cm", Num(1.0), p) == Shown(100.0)
  {
    var from, to := UnitsOf(Length)[0], UnitsOf(Length)[2];
    UnitAt(Length, 0);
    UnitAt(Length, 2);
    ConvertLinear(Length, "meter", "cm", 1.0, p);
    assert Linear.Convert(from, to, 1.0) == 100.0;
  }

  lemma KilogramToGram(p: Display)
    ensures Convert(Weight, "kg", "g", Num(1.0), p) == Shown(1000.0)
  {
    var from, to := UnitsOf(Weight)[0], UnitsOf(Weight)[1];
    UnitAt(Weight, 0);
    UnitAt(Weight, 1);
    ConvertLinear(Weight, "kg", "g", 1.0, p);
    assert Linear.Convert(from, to, 1.0) == 1000.0;
  }

  /** Reference points of the temperature scales. */
  lemma KnownTemperatureConversions(p: Display)
    ensures Convert(Temperature, "celsius", "fahrenheit", Num(0.0), p) == Shown(32.0)
    ensures Convert(Temperature, "celsius", "fahrenheit", Num(100.0), p) == Shown(212.0)
    ensures Convert(Temperature, "celsius", "kelvin", Num(0.0), p) == Shown(273.15)
    ensures Convert(Temperature, "fahrenheit", "celsius", Num(32.0), p) == Shown(0.0)
    ensures Convert(Temperature, "fahrenheit", "celsius", Num(212.0), p) == Shown(100.0)
    ensures Convert(Temperature, "kelvin", "celsius", Num(0.0), p) == Shown(-273.15)
  {
    UnitAt(Temperature, 0);
    UnitAt(Temperature, 1);
    UnitAt(Temperature, 2);
    ConvertTemperature("celsius", "fahrenheit", 0.0, p);
    ConvertTemperature("celsius", "fahrenheit", 100.0, p);
    ConvertTemperature("celsius", "kelvin", 0.0, p);
    ConvertTemperature("fahrenheit", "celsius", 32.0, p);
    ConvertTemperature("fahrenheit", "celsius", 212.0, p);
    ConvertTemperature("kelvin", "celsius", 0.0, p);
  }

  /** The converter's state: category, input, selected ids, result field. */
  datatype State = State(category: Category, input: Input, fromId: string, toId: string, result: Display)

  /** Both selected ids name units of the active category. */
  predicate Consistent(s: State)
  {
    Resolves(s.category, s.fromId, s.toId)
  }

  /** The result field shows what the routine computes from the other fields. */
  predicate Settled(s: State)
  {
    Convert(s.category, s.fromId, s.toId, s.input, s.result) == s.result
  }

  /** The state before any effect has run: length, input "1", the length
      table's first unit as source and its second as target, a blank result. */
  function Initial(): (s: State)
    ensures s.category == Length
    ensures s.fromId == UnitsOf(Length)[0].id && s.toId == UnitsOf(Length)[1].id
    ensures s.fromId == "meter" && s.toId == "km"
    ensures Consistent(s) && s.fromId != s.toId
    ensures s.input == Num(1.0) && s.result == Blank
  {
    TableWellFormed(Length);
    FindById(UnitsOf(Length), 0);
    FindById(UnitsOf(Length), 1);
    State(Length, Num(1.0), UnitsOf(Length)[0].id, UnitsOf(Length)[1].id, Blank)
  }

  /** The effect that re-runs the routine whenever input or unit ids change. */
  function Refresh(s: State): (r: State)
    ensures r.category == s.category && r.input == s.input
    ensures r.fromId == s.fromId && r.toId == s.toId
    ensures Consistent(s) ==> Settled(r) && r.result != Blank
  {
    s.(result := Convert(s.category, s.fromId, s.toId, s.input, s.result))
  }

  /** Once mounted, the converter shows one meter in kilometers. */
  lemma InitialDisplay()
    ensures Refresh(Initial()).result == Shown(0.001)
  {
  }

  /** Ids selected in one category never resolve in another, so the
      routine run with stale ids changes nothing but the validation message. */
  lemma StaleIdsDoNotResolve(s: State, c: Category)
    requires c != s.category
    ensures Consistent(s) ==> !Resolves(c, s.fromId, s.toId)
  {
    if Consistent(s) {
      ResolvesInOneCategory(s.category, c, s.fromId);
    }
  }

  /** The effect on a category change: reset the ids to the new category's
      first and second units, then run the routine from the closure of the
      render that saw the change, whose unit ids are still the old ones. */
  function SwitchCategory(s: State, c: Category): (r: State)
    requires c != s.category
    ensures r.category == c && r.input == s.input && Consistent(r)
    ensures r.fromId != r.toId
    ensures Consistent(s) ==> r.result == (if s.input.Num? then s.result else Message(InvalidNumberMessage))
  {
    TableWellFormed(c);
    FindById(UnitsOf(c), 0);
    FindById(UnitsOf(c), 1);
    StaleIdsDoNotResolve(s, c);
    var stale := Convert(c, s.fromId, s.toId, s.input, s.result);
    State(c, s.input, UnitsOf(c)[0].id, UnitsOf(c)[1].id, stale)
  }

  /** Selecting a category in the sidebar: nothing happens for the active one;
      otherwise the category effect runs and, because the ids changed, the
      refresh effect runs after it. */
  function SelectCategory(s: State, c: Category): (r: State)
    ensures r.category == c && r.input == s.input
    ensures c == s.category ==> r == s
    ensures c != s.category ==> Consistent(r) && Settled(r)
  {
    if c == s.category then s
    else
      var switched := SwitchCategory(s, c);
      if switched.fromId != s.fromId || switched.toId != s.toId then Refresh(switched)
      else switched
  }

  /** For resolving ids the routine's outcome does not depend on what the
      result field showed before. */
  lemma ConvertIgnoresPrevious(c: Category, a: string, b: string, input: Input, p: Display, q: Display)
    requires Resolves(c, a, b)
    ensures Convert(c, a, b, input, p) == Convert(c, a, b, input, q)
  {
  }

  /** After a category change the source is the category's first unit and the
      target its second, and the result no longer depends on what was shown. */
  lemma SelectCategoryDefaults(s: State, c: Category, other: Display)
    requires c != s.category
    ensures SelectCategory(s, c).fromId == UnitsOf(c)[0].id
    ensures SelectCategory(s, c).toId == UnitsOf(c)[1].id
    ensures SelectCategory(s, c).result == SelectCategory(s.(result := other), c).result
  {
    UnitAt(c, 0);
    UnitAt(c, 1);
    var s' := s.(result := other);
    var first, second := UnitsOf(c)[0].id, UnitsOf(c)[1].id;
    var stale := Convert(c, s.fromId, s.toId, s.input, s.result);
    var stale' := Convert(c, s.fromId, s.toId, s.input, other);
    if first != s.fromId || second != s.toId {
      ConvertIgnoresPrevious(c, first, second, s.input, stale, stale');
    } else {
      ConvertIgnoresPrevious(c, first, second, s.input, s.result, other);
    }
  }

  /** The initial selection is the one a change to length would make: coming
      back to length from any other category restores meter and km. */
  lemma InitialIsLengthDefaults(s: State)
    requires s.category != Length
    ensures SelectCategory(s, Length).fromId == Initial().fromId
    ensures SelectCategory(s, Length).toId == Initial().toId
  {
    SelectCategoryDefaults(s, Length, s.result);
  }
}
