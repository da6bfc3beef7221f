/**
 Conversion in the factor-based categories (length, area, weight): a value is
 divided by the source unit's factor, giving the quantity in the category's
 base unit, and multiplied by the target unit's factor.
 */
module Linear {
  import opened Units

  /** The converter's two-step rescaling through the base unit. */
  function Convert(from: Unit, to: Unit, v: real): (r: real)
    requires from.factor > 0.0
    ensures to.factor > 0.0 ==> r / to.factor == v / from.factor
  {
    var base := v / from.factor;
    base * to.factor
  }

  /** The ratio the formula line displays: how many target units make one
      source unit. */
  function Ratio(from: Unit, to: Unit): real
    requires from.factor > 0.0
  {
    to.factor / from.factor
  }

  /** Converting is scaling by the displayed ratio; in particular the ratio
      is what one source unit converts to. */
  lemma ConvertIsScaling(from: Unit, to: Unit, v: real)
    requires from.factor > 0.0
    ensures Convert(from, to, v) == v * Ratio(from, to)
    ensures Convert(from, to, 1.0) == Ratio(from, to)
  {
  }

  /** Two values that denote the same base quantity convert to each other. */
  lemma SameBaseQuantity(from: Unit, to: Unit, v: real, w: real)
    requires from.factor > 0.0 && to.factor > 0.0
    ensures Convert(from, to, v) == w <==> w / to.factor == v / from.factor
  {
    var r := Convert(from, to, v);
    if w / to.factor == v / from.factor {
      assert r / to.factor == w / to.factor;
      assert r == (r / to.factor) * to.factor;
      assert w == (w / to.factor) * to.factor;
    }
  }

  lemma Identity(u: Unit, v: real)
    requires u.factor > 0.0
    ensures Convert(u, u, v) == v
  {
  }

  /** There and back again returns the original value, exactly over the reals. */
  lemma RoundTrip(a: Unit, b: Unit, v: real)
    requires a.factor > 0.0 && b.factor > 0.0
    ensures Convert(b, a, Convert(a, b, v)) == v
  {
    var w := Convert(a, b, v);
    assert w / b.factor == v / a.factor;
    SameBaseQuantity(b, a, w, v);
  }

  /** Conversions compose: a to b then b to c equals a to c directly. */
  lemma Compose(a: Unit, b: Unit, c: Unit, v: real)
    requires a.factor > 0.0 && b.factor > 0.0 && c.factor > 0.0
    ensures Convert(b, c, Convert(a, b, v)) == Convert(a, c, v)
  {
    var w := Convert(a, b, v);
    assert w / b.factor == v / a.factor;
  }

  /** The ratios along a chain of units multiply. */
  lemma RatioChain(a: Unit, b: Unit, c: Unit)
    requires a.factor > 0.0 && b.factor > 0.0 && c.factor > 0.0
    ensures Ratio(a, b) * Ratio(b, c) == Ratio(a, c)
  {
    ConvertIsScaling(a, b, 1.0);
    ConvertIsScaling(b, c, Ratio(a, b));
    ConvertIsScaling(a, c, 1.0);
    Compose(a, b, c, 1.0);
  }
}
