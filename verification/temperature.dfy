/**
 Temperature conversion. Celsius, Fahrenheit and Kelvin are related by affine
 maps, so the converter does not use unit factors here: it picks one of six
 closed-form formulas by the ordered pair of unit ids, and passes the value
 through for any other pair.
 */
module Temperature {
  import opened Optional

  /** The converter's branch on the ordered pair of ids, formula by formula. */
  function Convert(fromId: string, toId: string, v: real): (r: real)
    ensures fromId == toId ==> r == v
    ensures !HasFormula(fromId, toId) ==> r == v
  {
    if fromId == "celsius" && toId == "fahrenheit" then v * 9.0 / 5.0 + 32.0
    else if fromId == "celsius" && toId == "kelvin" then v + 273.15
    else if fromId == "fahrenheit" && toId == "celsius" then (v - 32.0) * 5.0 / 9.0
    else if fromId == "fahrenheit" && toId == "kelvin" then (v - 32.0) * 5.0 / 9.0 + 273.15
    else if fromId == "kelvin" && toId == "celsius" then v - 273.15
    else if fromId == "kelvin" && toId == "fahrenheit" then (v - 273.15) * 9.0 / 5.0 + 32.0
    else v
  }

  /** True exactly for the pairs that have a formula of their own. */
  predicate HasFormula(fromId: string, toId: string)
  {
    || (fromId == "celsius" && toId == "fahrenheit")
    || (fromId == "celsius" && toId == "kelvin")
    || (fromId == "fahrenheit" && toId == "celsius")
    || (fromId == "fahrenheit" && toId == "kelvin")
    || (fromId == "kelvin" && toId == "celsius")
    || (fromId == "kelvin" && toId == "fahrenheit")
  }

  /** The three scales, as an independent reference for the six formulas. */
  datatype Scale = Celsius | Fahrenheit | Kelvin

  function ScaleOf(id: string): Option<Scale>
  {
    if id == "celsius" then Some(Celsius)
    else if id == "fahrenheit" then Some(Fahrenheit)
    else if id == "kelvin" then Some(Kelvin)
    else None
  }

  function IdOf(s: Scale): (id: string)
    ensures ScaleOf(id) == Some(s)
  {
    match s
    case Celsius => "celsius"
    case Fahrenheit => "fahrenheit"
    case Kelvin => "kelvin"
  }

  /** A reading on scale `s` expressed in degrees Celsius. */
  function ToCelsius(s: Scale, v: real): real
  {
    match s
    case Celsius => v
    case Fahrenheit => (v - 32.0) * 5.0 / 9.0
    case Kelvin => v - 273.15
  }

  /** A Celsius reading expressed on scale `s`. */
  function FromCelsius(s: Scale, c: real): real
  {
    match s
    case Celsius => c
    case Fahrenheit => c * 9.0 / 5.0 + 32.0
    case Kelvin => c + 273.15
  }

  lemma CelsiusRoundTrip(s: Scale, v: real)
    ensures FromCelsius(s, ToCelsius(s, v)) == v
    ensures ToCelsius(s, FromCelsius(s, v)) == v
  {
  }

  /** Every formula of the converter goes through Celsius: it equals reading
      the value on the source scale into Celsius and then out on the target scale. */
  lemma ConvertViaCelsius(a: Scale, b: Scale, v: real)
    ensures Convert(IdOf(a), IdOf(b), v) == FromCelsius(b, ToCelsius(a, v))
  {
    match (a, b)
    case (Celsius, Fahrenheit) =>
    case (Celsius, Kelvin) =>
    case (Fahrenheit, Celsius) =>
    case (Fahrenheit, Kelvin) =>
    case (Kelvin, Celsius) =>
    case (Kelvin, Fahrenheit) =>
    case (_, _) =>
  }

  /** A pair without a formula of its own leaves every value unchanged, and
      a pair with one moves 0: the routine is the identity exactly for the
      pass-through pairs. */
  lemma IdentityIffPassThrough(fromId: string, toId: string)
    ensures (forall v :: Convert(fromId, toId, v) == v) <==> !HasFormula(fromId, toId)
  {
    if HasFormula(fromId, toId) {
      assert Convert(fromId, toId, 0.0) != 0.0;
    }
  }

  /** Among the table's ids, the routine leaves every value unchanged
      exactly for a same-unit pair. */
  lemma PassThroughIffSameUnit(a: Scale, b: Scale)
    ensures (forall v :: Convert(IdOf(a), IdOf(b), v) == v) <==> a == b
  {
    IdentityIffPassThrough(IdOf(a), IdOf(b));
  }

  /** Converting there and back is the identity, exactly over the reals. */
  lemma RoundTrip(a: Scale, b: Scale, v: real)
    ensures Convert(IdOf(b), IdOf(a), Convert(IdOf(a), IdOf(b), v)) == v
  {
    ConvertViaCelsius(a, b, v);
    ConvertViaCelsius(b, a, Convert(IdOf(a), IdOf(b), v));
    CelsiusRoundTrip(b, ToCelsius(a, v));
    CelsiusRoundTrip(a, v);
  }

  /** Conversions compose: a to b then b to c equals a to c directly. */
  lemma Compose(a: Scale, b: Scale, c: Scale, v: real)
    ensures Convert(IdOf(b), IdOf(c), Convert(IdOf(a), IdOf(b), v)) == Convert(IdOf(a), IdOf(c), v)
  {
    ConvertViaCelsius(a, b, v);
    ConvertViaCelsius(b, c, Convert(IdOf(a), IdOf(b), v));
    ConvertViaCelsius(a, c, v);
    CelsiusRoundTrip(b, ToCelsius(a, v));
  }

  /** The Fahrenheit/Kelvin formulas are the two-step route through Celsius. */
  lemma FahrenheitKelvinThroughCelsius(v: real)
    ensures Convert("fahrenheit", "kelvin", v) == Convert("celsius", "kelvin", Convert("fahrenheit", "celsius", v))
    ensures Convert("kelvin", "fahrenheit", v) == Convert("celsius", "fahrenheit", Convert("kelvin", "celsius", v))
  {
    Compose(Fahrenheit, Celsius, Kelvin, v);
    Compose(Kelvin, Celsius, Fahrenheit, v);
  }
}
