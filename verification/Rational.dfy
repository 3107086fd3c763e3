/** Exact rationals (`big.Rat`, modelled as `real`) and their conversions to integers. */
module Rational {

  /** A product as a named term, so that facts about products combine linearly. */
  function Times(x: real, y: real): real {
    x * y
  }

  /** `big.Int.Sqrt`: the floor of the square root. */
  function IntSqrt(n: nat): (r: nat)
    ensures r * r <= n < (r + 1) * (r + 1)
  {
    if n == 0 then 0
    else
      var r := IntSqrt(n - 1);
      if (r + 1) * (r + 1) <= n then r + 1 else r
  }

  /** `RatIntQuo`: numerator over denominator, truncated toward zero. */
  function RatIntQuo(r: real): (i: int)
    ensures 0.0 <= r ==> i as real <= r < i as real + 1.0
    ensures r <= 0.0 ==> i as real - 1.0 < r <= i as real
  {
    if r >= 0.0 then r.Floor else -(-r).Floor
  }

  /** `ApproxRatSquareRoot`: the integer square root of the truncated argument. Go panics when it is negative. */
  function ApproxRatSquareRoot(x: real): (s: nat)
    requires 0.0 <= x
  {
    IntSqrt(RatIntQuo(x))
  }

  /** Truncating before taking the root loses nothing: the result is the floor of the exact root. */
  lemma ApproxRatSquareRootIsFloorRoot(x: real)
    requires 0.0 <= x
    ensures var s := ApproxRatSquareRoot(x) as real; s * s <= x < (s + 1.0) * (s + 1.0)
  {
    var n := RatIntQuo(x);
    var s := IntSqrt(n);
    IntegerBounds(x, n, s * s, (s + 1) * (s + 1));
    ProductAsReal(s, s);
    ProductAsReal(s + 1, s + 1);
  }

  lemma ProductAsReal(x: int, y: int)
    ensures (x * y) as real == x as real * y as real
  {
  }

  lemma IntegerBounds(x: real, n: int, low: int, high: int)
    requires n as real <= x < n as real + 1.0 && low <= n < high
    ensures low as real <= x < high as real
  {
  }

  // ---------------------------------------------------------------- ordered-field steps

  lemma SquareMonotone(x: real, y: real)
    requires 0.0 <= x <= y
    ensures x * x <= y * y
  {
    assert x * x <= x * y <= y * y;
  }

  lemma SquareNonNegative(x: real)
    ensures 0.0 <= x * x
  {
    if 0.0 <= x { SquareMonotone(0.0, x); } else { SquareMonotone(0.0, -x); }
  }

  lemma QuotientScales(n: real, d: real)
    requires d != 0.0
    ensures d * (n / d) == n
  {
  }

  lemma ScaleMonotone(k: real, x: real, y: real)
    requires 0.0 <= k && x <= y
    ensures Times(k, x) <= Times(k, y)
  {
  }

  lemma StrictScale(k: real, x: real, y: real)
    requires 0.0 < k && x < y
    ensures Times(k, x) < Times(k, y)
  {
  }

  lemma StepScale(k: real, x: real, y: real)
    requires 0.0 < k && x < y + 1.0
    ensures Times(k, x) < Times(k, y) + k
  {
    StrictScale(k, x, y + 1.0);
  }

  lemma SignFromScaled(k: real, x: real)
    requires 0.0 < k
    ensures k * x <= 0.0 <==> x <= 0.0
    ensures k * x == 0.0 <==> x == 0.0
  {
  }

  lemma ProductNonNegative(x: real, y: real)
    requires 0.0 <= x && 0.0 <= y
    ensures 0.0 <= x * y
  {
  }

  lemma CrossMultiply(a: real, b: real, c: real, d: real)
    requires b != 0.0 && d != 0.0 && a / b == c / d
    ensures a * d == c * b
  {
    var q := a / b;
    QuotientScales(a, b);
    QuotientScales(c, d);
    assert a * d == (b * q) * d == (d * q) * b;
  }

  lemma QuotientNonNegative(n: real, d: real)
    requires 0.0 <= n && 0.0 < d
    ensures 0.0 <= n / d
  {
  }

  lemma CancelReal(k: real, x: real, y: real)
    requires 0.0 < k && k * x <= k * y
    ensures x <= y
  {
    if y < x { StrictScale(k, y, x); assert false; }
  }
}
