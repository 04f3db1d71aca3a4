/** Exact decimal arithmetic as PHP's bcmath extension performs it: the exact
    result of an operation is cut to a fixed number of fractional digits by
    truncation toward zero (bcmath never rounds). `Floor` is PHP's `floor`. */
module Decimal {

  /** 10 to the power n. */
  function Pow10(n: nat): (p: nat)
    ensures p >= 1
    ensures n > 0 ==> p >= 10
  {
    if n == 0 then 1 else 10 * Pow10(n - 1)
  }

  /** y is a whole number. */
  predicate IsWhole(y: real) {
    y.Floor as real == y
  }

  /** x has at most `digits` fractional decimal digits. */
  predicate AtScale(x: real, digits: nat) {
    var p := Pow10(digits) as real;
    (x * p).Floor as real == x * p
  }

  /** The bcmath result of an exact value x computed at scale `digits`:
      x truncated toward zero to `digits` fractional digits. */
  function TruncTo(x: real, digits: nat): (r: real)
    ensures 0.0 <= x ==> 0.0 <= r <= x && x - r < 1.0 / Pow10(digits) as real
    ensures x <= 0.0 ==> x <= r <= 0.0 && r - x < 1.0 / Pow10(digits) as real
    ensures AtScale(r, digits)
  {
    if x >= 0.0 then
      TruncNonNeg(x, digits)
    else
      var t := TruncNonNeg(-x, digits);
      NegatedAtScale(t, digits);
      -t
  }

  /** Truncation of a non-negative value to `digits` fractional digits. */
  function TruncNonNeg(x: real, digits: nat): (r: real)
    requires x >= 0.0
    ensures 0.0 <= r <= x && x - r < 1.0 / Pow10(digits) as real
    ensures AtScale(r, digits)
  {
    var k := (x * Pow10(digits) as real).Floor;
    ScaleBack(x, Pow10(digits) as real, k as real);
    IntOverScale(k, digits);
    k as real / Pow10(digits) as real
  }

  /** A whole number of units of the `digits`-th digit has at most `digits`
      fractional digits. */
  lemma IntOverScale(k: int, digits: nat)
    ensures AtScale(k as real / Pow10(digits) as real, digits)
  {
    var p := Pow10(digits) as real;
    assert (k as real / p) * p == k as real;
  }

  /** Dividing the bracket k <= x * p < k + 1 by p. */
  lemma ScaleBack(x: real, p: real, k: real)
    requires x >= 0.0 && p >= 1.0
    requires k <= x * p < k + 1.0 && IsWhole(k)
    ensures 0.0 <= k / p <= x && x - k / p < 1.0 / p
  {
    assert (k / p) * p == k;
    assert 0.0 <= k by {
      assert 0.0 <= x * p;
    }
    DivMono(0.0, k, p);
    DivMono(k, x * p, p);
    assert (x * p) / p == x;
    DivStrict(x * p - k, 1.0, p);
    assert (x * p - k) / p == x - k / p;
  }

  /** Division by a positive number keeps order. */
  lemma DivMono(a: real, b: real, p: real)
    requires a <= b && p > 0.0
    ensures a / p <= b / p
  {
    assert b / p - a / p == (b - a) / p;
  }

  /** Division by a positive number keeps strict order. */
  lemma DivStrict(a: real, b: real, p: real)
    requires a < b && p > 0.0
    ensures a / p < b / p
  {
    assert b / p - a / p == (b - a) / p;
  }

  /** Negating a value with `digits` fractional digits keeps it at that scale. */
  lemma NegatedAtScale(t: real, digits: nat)
    requires AtScale(t, digits)
    ensures AtScale(-t, digits)
  {
    NegatedWhole(t, Pow10(digits) as real);
  }

  /** If t * p is a whole number then so is (-t) * p. */
  lemma NegatedWhole(t: real, p: real)
    requires (t * p).Floor as real == t * p
    ensures ((-t) * p).Floor == -(t * p).Floor
    ensures ((-t) * p).Floor as real == (-t) * p
  {
    var k := (t * p).Floor;
    assert (-t) * p == -(t * p);
    assert (-t) * p == (-k) as real;
  }

  /** Truncating a value that already has at most `digits` fractional digits
      leaves it as it is. */
  lemma TruncExact(x: real, digits: nat)
    requires AtScale(x, digits)
    ensures TruncTo(x, digits) == x
  {
    if x >= 0.0 {
      NonNegExact(x, digits);
    } else {
      NegatedAtScale(x, digits);
      NonNegExact(-x, digits);
    }
  }

  /** The non-negative case of `TruncExact`. */
  lemma NonNegExact(x: real, digits: nat)
    requires x >= 0.0 && AtScale(x, digits)
    ensures TruncNonNeg(x, digits) == x
  {
    ExactScaleBack(x, Pow10(digits) as real);
  }

  /** When x * p is whole, cutting it to a whole number and scaling back gives x. */
  lemma ExactScaleBack(x: real, p: real)
    requires p >= 1.0
    requires (x * p).Floor as real == x * p
    ensures (x * p).Floor as real / p == x
  {
    assert (x * p) / p == x;
  }

  /** The difference of two values with at most `digits` fractional digits has
      at most `digits` fractional digits. */
  lemma SubAtScale(x: real, y: real, digits: nat)
    requires AtScale(x, digits) && AtScale(y, digits)
    ensures AtScale(x - y, digits)
  {
    UnitsExact(x, digits);
    UnitsExact(y, digits);
    DivSub(Units(x, digits) as real, Units(y, digits) as real, Pow10(digits) as real);
    IntOverScale(Units(x, digits) - Units(y, digits), digits);
  }

  /** The whole number of units of the `digits`-th digit in x, rounded down. */
  function Units(x: real, digits: nat): int {
    (x * Pow10(digits) as real).Floor
  }

  /** A value at scale `digits` is its units over the scale. */
  lemma UnitsExact(x: real, digits: nat)
    requires AtScale(x, digits)
    ensures x == Units(x, digits) as real / Pow10(digits) as real
  {
    WholeScaleBack(x, Pow10(digits) as real, Units(x, digits));
  }

  /** When x * p is the whole number k, k / p is x. */
  lemma WholeScaleBack(x: real, p: real, k: int)
    requires p >= 1.0
    requires k as real == x * p
    ensures k as real / p == x
  {
    assert (x * p) / p == x;
  }

  /** Division by a positive number distributes over a difference. */
  lemma DivSub(a: real, b: real, p: real)
    requires p > 0.0
    ensures a / p - b / p == (a - b) / p
  {
  }

  /** PHP `floor`: the greatest whole number not above x. */
  function Floor(x: real): (r: real)
    ensures r <= x < r + 1.0
    ensures IsWhole(r)
  {
    x.Floor as real
  }
}
