/**
 The SDK's fixed-point decimals: non-negative integers scaled by 10^18. Products and quotients are brought
 back to 18 digits by rounding half to even; a quotient is first truncated at 36 digits.
 */
module Decimal {

  const ONE: nat := 1_000_000_000_000_000_000
  const HALF: nat := 500_000_000_000_000_000

  /** `chopPrecisionAndRound`. */
  function Chop(n: nat): (q: nat)
    ensures q * ONE <= n + HALF && n <= q * ONE + HALF
    ensures q * ONE == n + HALF || n == q * ONE + HALF ==> q % 2 == 0
  {
    var quo, rem := n / ONE, n % ONE;
    if rem < HALF then quo
    else if rem > HALF then quo + 1
    else if quo % 2 == 0 then quo
    else quo + 1
  }

  function FromInt(n: nat): nat { n * ONE }

  function Mul(a: nat, b: nat): nat { Chop(a * b) }

  function Quo(a: nat, b: nat): nat
    requires 0 < b
  {
    Chop(a * ONE * ONE / b)
  }

  function RoundInt(a: nat): nat { Chop(a) }

  function TruncateInt(a: nat): nat { a / ONE }

  lemma ChopExact(k: nat)
    ensures Chop(k * ONE) == k
  {
  }

  /** The least number that is rounded above `k`: half a unit more, and for even `k` a trifle. */
  function RoundsAbove(k: nat): nat {
    k * ONE + HALF + 1 - k % 2
  }

  lemma ChopAboveIff(n: nat, k: nat)
    ensures k < Chop(n) <==> RoundsAbove(k) <= n
  {
  }

  lemma ChopMonotone(m: nat, n: nat)
    requires m <= n
    ensures Chop(m) <= Chop(n)
  {
  }

  lemma ProductMonotone(k: nat, x: int, y: int)
    requires x <= y
    ensures k * x <= k * y
  {
  }

  lemma ProductOneMore(n: nat, k: nat)
    ensures (n + 1) * k == n * k + k
  {
  }

  lemma DivMonotone(m: nat, n: nat, d: nat)
    requires 0 < d && m <= n
    ensures m / d <= n / d
  {
    var p, q := m / d, n / d;
    assert d * p <= m && n < d * q + d;
    if q + 1 <= p { ProductMonotone(d, q + 1, p); assert false; }
  }

  lemma DivAntitone(n: nat, d: nat, e: nat)
    requires 0 < d <= e
    ensures n / e <= n / d
  {
    var p, q := n / e, n / d;
    assert e * p <= n && n < d * q + d;
    ProductMonotone(p, d, e);
    if q + 1 <= p { ProductMonotone(d, q + 1, p); assert false; }
  }

  lemma DivExact(k: nat, d: nat)
    requires 0 < d
    ensures k * d / d == k
  {
    var q := k * d / d;
    assert d * q <= k * d < d * q + d;
    if q + 1 <= k { ProductMonotone(d, q + 1, k); assert false; }
    if k + 1 <= q { ProductMonotone(d, k + 1, q); assert false; }
  }

  lemma DivStep(t: int, l: int)
    requires 0 <= t && 1 <= l
    ensures if t % l == l - 1 then (t + 1) / l == t / l + 1 && (t + 1) % l == 0
            else (t + 1) / l == t / l && (t + 1) % l == t % l + 1
  {
    var q, r := t / l, t % l;
    assert t == l * q + r;
    if r == l - 1 {
      assert t + 1 == l * (q + 1) + 0;
      DivUnique(t + 1, l, q + 1, 0);
    } else {
      DivUnique(t + 1, l, q, r + 1);
    }
  }

  lemma DivUnique(x: int, l: int, q: int, r: int)
    requires 1 <= l && x == l * q + r && 0 <= r < l
    ensures x / l == q && x % l == r
  {
    var q', r' := x / l, x % l;
    assert x == l * q' + r' && 0 <= r' < l;
    assert l * (q - q') == r' - r;
    if q - q' >= 1 { MulAtLeast(l, q - q'); assert false; }
    if q' - q >= 1 { MulAtLeast(l, q' - q); assert false; }
  }

  lemma MulAtLeast(l: int, k: int)
    requires 1 <= l && 1 <= k
    ensures l <= l * k && l * -k == -(l * k)
  {
  }

  lemma MulMonotone(a: nat, b: nat, c: nat)
    requires b <= c
    ensures Mul(a, b) <= Mul(a, c) && Mul(b, a) <= Mul(c, a)
  {
    ProductMonotone(a, b, c);
    ChopMonotone(a * b, a * c);
  }

  /** Scaling by at most one never raises the value, and scaling by one keeps it. */
  lemma MulAtMost(a: nat, rate: nat)
    requires rate <= ONE
    ensures Mul(a, rate) <= a && Mul(rate, a) <= a && Mul(a, ONE) == a
  {
    ChopExact(a);
    MulMonotone(a, rate, ONE);
  }

  lemma QuoMonotone(a: nat, b: nat, d: nat)
    requires 0 < d && a <= b
    ensures Quo(a, d) <= Quo(b, d)
  {
    DivMonotone(a * ONE * ONE, b * ONE * ONE, d);
    ChopMonotone(a * ONE * ONE / d, b * ONE * ONE / d);
  }

  lemma QuoAntitone(a: nat, d: nat, e: nat)
    requires 0 < d <= e
    ensures Quo(a, e) <= Quo(a, d)
  {
    DivAntitone(a * ONE * ONE, d, e);
    ChopMonotone(a * ONE * ONE / e, a * ONE * ONE / d);
  }

  /** Dividing by one is exact, so dividing by at least one never raises the value. */
  lemma QuoByOne(a: nat)
    ensures Quo(a, ONE) == a
  {
    DivExact(a * ONE, ONE);
    ChopExact(a);
  }

  lemma QuoAtMost(a: nat, d: nat)
    requires ONE <= d
    ensures Quo(a, d) <= a
  {
    QuoByOne(a);
    QuoAntitone(a, ONE, d);
  }

  lemma QuoBySelf(a: nat)
    requires 0 < a
    ensures Quo(a, a) == ONE
  {
    DivExact(ONE * ONE, a);
    assert a * ONE * ONE == ONE * ONE * a;
    ChopExact(ONE);
  }

  lemma QuoAtLeastOne(a: nat, d: nat)
    requires 0 < d <= a
    ensures ONE <= Quo(a, d)
  {
    QuoBySelf(d);
    QuoMonotone(d, a, d);
  }

  lemma DivAtLeastIff(n: nat, d: nat, k: nat)
    requires 0 < d
    ensures k <= n / d <==> k * d <= n
  {
    var q := n / d;
    assert d * q <= n < d * q + d;
    if k <= q { ProductMonotone(d, k, q); } else { ProductMonotone(d, q + 1, k); }
  }

  /** When a rounded quotient exceeds a value, by cross multiplication. */
  lemma QuoAboveIff(a: nat, b: nat, k: nat)
    requires 0 < b
    ensures k < Quo(a, b) <==> RoundsAbove(k) * b <= a * ONE * ONE
  {
    ChopAboveIff(a * ONE * ONE / b, k);
    DivAtLeastIff(a * ONE * ONE, b, RoundsAbove(k));
  }

  /** A quotient is off by at most one unit of the last digit. */
  lemma QuoAccurate(a: nat, b: nat)
    requires 0 < b
    ensures Quo(a, b) * b - b <= a * ONE <= Quo(a, b) * b + b
  {
    var t := a * ONE * ONE / b;
    var q := Chop(t);
    assert b * t <= a * ONE * ONE < b * t + b;
    ProductMonotone(b, q * ONE, t + HALF);
    ProductMonotone(b, t, q * ONE + HALF);
    ScaledSum(b, q, t);
  }

  lemma ScaledSum(b: int, q: int, t: int)
    ensures b * (q * ONE) == (q * b) * ONE
    ensures b * (q * ONE + HALF) == (q * b) * ONE + b * HALF
    ensures b * (t + HALF) == b * t + b * HALF
  {
  }

  predicate Near(x: int, y: int, slack: int) {
    -slack <= x - y <= slack
  }

  lemma ProductNear(k: int, x: int, y: int, slack: int)
    requires 0 <= k && Near(x, y, slack)
    ensures Near(k * x, k * y, k * slack)
  {
    ProductMonotone(k, x, y + slack);
    ProductMonotone(k, y - slack, x);
    assert k * (y + slack) == k * y + k * slack && k * (y - slack) == k * y - k * slack;
  }
}
