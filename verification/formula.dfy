/**
 The formula line shown under the converter. For temperature it is one fixed
 text per ordered pair of unit ids; for the other categories it reads
 "1 <source> = <ratio> <target>", where the labels are the units' display
 names cut at the first space and the ratio is target factor over source
 factor. The number formatting of the ratio is abstracted away.
 */
module Formula {
  import opened Optional
  import opened Units
  import Linear
  import Temperature
  import Engine

  /** A fixed text, or the ratio line with its two labels and its ratio;
      `None` is the NaN that dividing by a missing factor gives. */
  datatype Formula =
    | Fixed(text: string)
    | RatioLine(fromLabel: string, ratio: Option<real>, toLabel: string)

  const NoConversionNeeded: string := "No conversion needed"

  /** `t` is the part of `s` before its first space: a space-free prefix of
      `s` that is either all of `s` or followed by a space. */
  ghost predicate IsFirstToken(s: string, t: string)
  {
    && t <= s
    && (forall i :: 0 <= i < |t| ==> t[i] != ' ')
    && (t == s || s[|t|] == ' ')
  }

  /** The first element of splitting `s` on the space character. */
  function FirstToken(s: string): (t: string)
    ensures IsFirstToken(s, t)
  {
    if |s| == 0 || s[0] == ' ' then ""
    else [s[0]] + FirstToken(s[1..])
  }

  /** There is only one first token: the description above determines it. */
  lemma {:induction false} FirstTokenUnique(s: string, t: string)
    requires IsFirstToken(s, t)
    ensures t == FirstToken(s)
  {
    if |s| == 0 || s[0] == ' ' {
    } else {
      assert |t| > 0;
      assert t[0] == s[0];
      FirstTokenUnique(s[1..], t[1..]);
      assert t == [s[0]] + t[1..];
    }
  }

  /** The label of a looked-up unit; a missing unit prints as "undefined". */
  function Label(u: Option<Unit>): (l: string)
    ensures u.Some? ==> IsFirstToken(u.value.name, l)
    ensures u.None? ==> l == "undefined"
  {
    match u
    case Some(unit) => FirstToken(unit.name)
    case None => "undefined"
  }

  /** The temperature texts, chosen by the ordered pair of ids. */
  function TemperatureText(fromId: string, toId: string): string
  {
    if fromId == "celsius" && toId == "fahrenheit" then "(°C × 9/5) + 32 = °F"
    else if fromId == "celsius" && toId == "kelvin" then "°C + 273.15 = K"
    else if fromId == "fahrenheit" && toId == "celsius" then "(°F - 32) × 5/9 = °C"
    else if fromId == "fahrenheit" && toId == "kelvin" then "(°F - 32) × 5/9 + 273.15 = K"
    else if fromId == "kelvin" && toId == "celsius" then "K - 273.15 = °C"
    else if fromId == "kelvin" && toId == "fahrenheit" then "(K - 273.15) × 9/5 + 32 = °F"
    else NoConversionNeeded
  }

  /** The formula line for the active category and the selected ids. */
  function FormulaOf(c: Category, fromId: string, toId: string): (f: Formula)
    ensures c == Temperature <==> f.Fixed?
    ensures c != Temperature ==> (f.ratio.Some? <==> Engine.Resolves(c, fromId, toId))
  {
    if c == Temperature then Fixed(TemperatureText(fromId, toId))
    else
      var from := Find(UnitsOf(c), fromId);
      var to := Find(UnitsOf(c), toId);
      var ratio := if from.Some? && to.Some? then Some(Linear.Ratio(Engine.UnitOf(c, fromId), to.value)) else None;
      RatioLine(Label(from), ratio, Label(to))
  }

  /** Outside temperature, with both ids resolved, the line carries the two
      units' labels and the ratio of their factors. */
  lemma FormulaOfResolved(c: Category, fromId: string, toId: string)
    requires c != Temperature && Engine.Resolves(c, fromId, toId)
    ensures FormulaOf(c, fromId, toId) == RatioLine(
      FirstToken(Engine.UnitOf(c, fromId).name),
      Some(Linear.Ratio(Engine.UnitOf(c, fromId), Engine.UnitOf(c, toId))),
      FirstToken(Engine.UnitOf(c, toId).name))
  {
  }

  /** Outside temperature, an id that does not resolve prints as
      "undefined" and makes the ratio NaN. */
  lemma FormulaOfUnresolved(c: Category, fromId: string, toId: string)
    requires c != Temperature && Find(UnitsOf(c), fromId).None?
    ensures FormulaOf(c, fromId, toId).fromLabel == "undefined"
    ensures FormulaOf(c, fromId, toId).ratio.None?
  {
  }

  /** The temperature text says no conversion is needed exactly when the
      routine takes its pass-through branch; for the table's ids, exactly
      when source and target are the same unit. */
  lemma NoConversionIffPassThrough(fromId: string, toId: string)
    ensures TemperatureText(fromId, toId) == NoConversionNeeded <==>
      (forall v :: Temperature.Convert(fromId, toId, v) == v)
    ensures Temperature.ScaleOf(fromId).Some? && Temperature.ScaleOf(toId).Some? ==>
      (TemperatureText(fromId, toId) == NoConversionNeeded <==> fromId == toId)
  {
    Temperature.IdentityIffPassThrough(fromId, toId);
  }

  /** The displayed ratio is what one source unit converts to. */
  lemma RatioIsConversionOfOne(c: Category, fromId: string, toId: string, p: Engine.Display)
    requires c != Temperature && Engine.Resolves(c, fromId, toId)
    ensures FormulaOf(c, fromId, toId).ratio.Some?
    ensures Engine.Convert(c, fromId, toId, Engine.Num(1.0), p) == Engine.Shown(FormulaOf(c, fromId, toId).ratio.value)
  {
    Engine.ConvertLinear(c, fromId, toId, 1.0, p);
    Linear.ConvertIsScaling(Engine.UnitOf(c, fromId), Engine.UnitOf(c, toId), 1.0);
  }

  /** The labels cut the display names at the first space. */
  lemma SquareMeterLabel()
    ensures FirstToken("Square Meter (m²)") == "Square"
  {
    var s := "Square Meter (m²)";
    assert s[..6] == "Square" && s[6] == ' ';
    FirstTokenUnique(s, "Square");
  }

  lemma MetricTonLabel()
    ensures FirstToken("Metric Ton (t)") == "Metric"
  {
    var s := "Metric Ton (t)";
    assert s[..6] == "Metric" && s[6] == ' ';
    FirstTokenUnique(s, "Metric");
  }

  lemma MeterLabels()
    ensures FirstToken("Meter (m)") == "Meter"
    ensures FirstToken("Kilometer (km)") == "Kilometer"
  {
    var m, km := "Meter (m)", "Kilometer (km)";
    assert m[..5] == "Meter" && m[5] == ' ';
    assert km[..9] == "Kilometer" && km[9] == ' ';
    FirstTokenUnique(m, "Meter");
    FirstTokenUnique(km, "Kilometer");
  }

  lemma AcreLabel()
    ensures FirstToken("Acre") == "Acre"
  {
    FirstTokenUnique("Acre", "Acre");
  }

  /** The formula line for meter to kilometer. */
  lemma MeterToKilometerFormula()
    ensures FormulaOf(Length, "meter", "km") == RatioLine("Meter", Some(0.001), "Kilometer")
  {
    var len := UnitsOf(Length);
    Engine.UnitAt(Length, 0);
    Engine.UnitAt(Length, 1);
    FormulaOfResolved(Length, "meter", "km");
    MeterLabels();
    assert Linear.Ratio(len[0], len[1]) == 0.001;
  }

  /** The fixed text for Celsius to Fahrenheit. */
  lemma CelsiusToFahrenheitFormula()
    ensures FormulaOf(Temperature, "celsius", "fahrenheit") == Fixed("(°C × 9/5) + 32 = °F")
    ensures FormulaOf(Temperature, "kelvin", "kelvin") == Fixed(NoConversionNeeded)
  {
  }
}
