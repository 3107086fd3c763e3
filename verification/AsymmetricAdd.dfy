/**
 How much of a one-sided deposit must be swapped so that the rest can be added in proportion.

 Both solvers in `calculations.go` evaluate a closed-form quadratic root, with the square root
 replaced by an integer one. `Quadratic` is the balance equation that the closed form solves.
 */
module AsymmetricAdd {
  import opened Rational

  // ---------------------------------------------------------------- quadratics with a floored root

  /** The balance polynomial `a*s^2 + b*s - c`; its positive root is the exact swap amount. */
  function Quadratic(a: real, b: real, c: real, s: real): real {
    a * s * s + b * s - c
  }

  function Discriminant(a: real, b: real, c: real): real {
    b * b + 4.0 * a * c
  }

  function Abs(x: real): (r: real) {
    if x < 0.0 then -x else x
  }

  /** What both solvers compute from the floored root, once their coefficients are named. */
  function FlooredRoot(a: real, b: real, root: real): (s: int)
    requires 1.0 <= a
  {
    RatIntQuo(Abs((root - b) / (2.0 * a)))
  }

  ghost predicate IsFloorRoot(root: real, d: real) {
    0.0 <= root && root * root <= d < (root + 1.0) * (root + 1.0)
  }

  lemma FloorRootOf(d: real) returns (root: real)
    requires 0.0 <= d
    ensures root == ApproxRatSquareRoot(d) as real && IsFloorRoot(root, d)
  {
    ApproxRatSquareRootIsFloorRoot(d);
    root := ApproxRatSquareRoot(d) as real;
  }

  lemma CompleteTheSquare(a: real, b: real, c: real, s: real)
    ensures 4.0 * a * Quadratic(a, b, c, s)
         == (2.0 * a * s + b) * (2.0 * a * s + b) - Discriminant(a, b, c)
  {
  }

  lemma DiscriminantDominates(a: real, b: real, c: real)
    requires 0.0 <= a && 0.0 <= c
    ensures b * b <= Discriminant(a, b, c)
  {
    assert 0.0 <= a * c;
  }

  lemma SquareBetween(lo: real, x: real, hi: real, d: real)
    requires lo <= x <= hi && lo * lo <= d && hi * hi <= d
    ensures x * x <= d
  {
    if 0.0 <= x { SquareMonotone(x, hi); } else {
      SquareMonotone(-x, -lo);
      assert (-x) * (-x) == x * x && (-lo) * (-lo) == lo * lo;
    }
  }

  /**
   With `root` the floor root of `d`, a point whose completed square lies in `[b, root]` is not above the exact root.
   */
  lemma BelowRoot(a: real, b: real, c: real, root: real, s: real)
    requires 0.0 < a && 0.0 <= c && 0.0 <= s
    requires root * root <= Discriminant(a, b, c)
    requires 2.0 * a * s + b <= root || s == 0.0
    ensures Quadratic(a, b, c, s) <= 0.0
  {
    var d := Discriminant(a, b, c);
    DiscriminantDominates(a, b, c);
    CompleteTheSquare(a, b, c, s);
    var low := 2.0 * a * s + b;
    assert low * low <= d by {
      if s != 0.0 {
        ScaleMonotone(2.0 * a, 0.0, s);
        SquareBetween(b, low, root, d);
      }
    }
    SignFromScaled(4.0 * a, Quadratic(a, b, c, s));
  }

  lemma AboveRoot(a: real, b: real, c: real, root: real, s: real)
    requires 0.0 < a && 0.0 <= root
    requires Discriminant(a, b, c) < (root + 1.0) * (root + 1.0)
    requires root + 1.0 <= 2.0 * a * s + b
    ensures 0.0 < Quadratic(a, b, c, s)
  {
    CompleteTheSquare(a, b, c, s);
    SquareMonotone(root + 1.0, 2.0 * a * s + b);
    SignFromScaled(4.0 * a, Quadratic(a, b, c, s));
  }

  /** Truncating a quotient `q = n / d` loses less than one step. */
  lemma FloorStep(d: real, n: real, q: real)
    requires 0.0 < d && 0.0 <= n && d * q == n
    ensures var s := RatIntQuo(Abs(q)) as real; 0.0 <= s && d * s <= n < d * s + d
  {
    assert 0.0 <= q by { SignFromScaled(d, q); if q < 0.0 { StrictScale(d, q, 0.0); assert false; } }
    var s := RatIntQuo(Abs(q)) as real;
    ScaleMonotone(d, s, q);
    StepScale(d, q, s);
  }

  lemma TinyStep(d: real, n: real, q: real)
    requires 2.0 <= d && -1.0 < n < 0.0 && d * q == n
    ensures RatIntQuo(Abs(q)) == 0
  {
    assert -1.0 < q by { if q <= -1.0 { ScaleMonotone(d, q, -1.0); assert false; } }
    assert q < 0.0 by { if 0.0 <= q { ScaleMonotone(d, 0.0, q); assert false; } }
  }

  lemma FloorRootNear(b: real, d: real, root: real)
    requires 0.0 <= root && b * b <= d < (root + 1.0) * (root + 1.0)
    ensures b < root + 1.0
  {
    if root + 1.0 <= b { SquareMonotone(root + 1.0, b); assert false; }
  }

  lemma DiscriminantNonNegative(a: real, b: real, c: real)
    requires 0.0 <= a && 0.0 <= c
    ensures 0.0 <= Discriminant(a, b, c)
  {
    DiscriminantDominates(a, b, c);
    SquareNonNegative(b);
  }

  /** The truncated quotient `s`, placed on the parabola's axis: at most the floor root, and one step passes it. */
  lemma TruncationBrackets(a: real, b: real, root: real, q: real)
    requires 1.0 <= a && 2.0 * a * q == root - b && b < root + 1.0
    ensures var s := RatIntQuo(Abs(q)) as real;
      && 0.0 <= s
      && (2.0 * a * s + b <= root || s == 0.0)
      && root + 1.0 <= 2.0 * a * (s + 1.5) + b
  {
    if root < b {
      TinyStep(2.0 * a, root - b, q);
    } else {
      FloorStep(2.0 * a, root - b, q);
    }
  }

  lemma QuotientBrackets(a: real, b: real, c: real, root: real, q: real)
    requires 1.0 <= a && 0.0 <= c && 2.0 * a * q == root - b && IsFloorRoot(root, Discriminant(a, b, c))
    ensures 0 <= RatIntQuo(Abs(q))
    ensures Quadratic(a, b, c, RatIntQuo(Abs(q)) as real) <= 0.0 < Quadratic(a, b, c, RatIntQuo(Abs(q)) as real + 1.5)
  {
    DiscriminantDominates(a, b, c);
    FloorRootNear(b, Discriminant(a, b, c), root);
    TruncationBrackets(a, b, root, q);
    var s := RatIntQuo(Abs(q)) as real;
    BelowRoot(a, b, c, root, s);
    AboveRoot(a, b, c, root, s + 1.5);
  }

  /** Replacing the root by its floor moves the answer down, and by less than 3/2. */
  lemma FlooredRootBrackets(a: real, b: real, c: real, root: real)
    requires 1.0 <= a && 0.0 <= c && IsFloorRoot(root, Discriminant(a, b, c))
    ensures 0 <= FlooredRoot(a, b, root)
    ensures Quadratic(a, b, c, FlooredRoot(a, b, root) as real) <= 0.0
    ensures 0.0 < Quadratic(a, b, c, FlooredRoot(a, b, root) as real + 1.5)
  {
    QuotientScales(root - b, 2.0 * a);
    QuotientBrackets(a, b, c, root, (root - b) / (2.0 * a));
  }

  /** A point where the polynomial is non-negative lies at or above every point where it is non-positive. */
  lemma RootBelow(a: real, b: real, c: real, s: real, bound: real)
    requires 0.0 <= a && 0.0 < c && 0.0 <= s && 0.0 <= bound
    requires Quadratic(a, b, c, s) <= 0.0 <= Quadratic(a, b, c, bound)
    ensures s <= bound
  {
    var gs, gb := Quadratic(a, b, c, s), Quadratic(a, b, c, bound);
    ProductNonNegative(a, bound);
    ProductNonNegative(a * bound, s);
    ProductNonNegative(gb, s);
    ProductNonNegative(-gs, bound);
    CrossedQuadratics(a, b, c, s, bound);
    SignFromScaled(a * bound * s + c, s - bound);
  }

  lemma CrossedQuadratics(a: real, b: real, c: real, s: real, t: real)
    ensures Quadratic(a, b, c, t) * s + (-Quadratic(a, b, c, s)) * t == -((a * t * s + c) * (s - t))
  {
  }

  /** Both solvers: the truncated answer is the largest deposit part, up to 3/2, that does not overshoot. */
  ghost predicate Brackets(a: real, b: real, c: real, s: nat) {
    Quadratic(a, b, c, s as real) <= 0.0 < Quadratic(a, b, c, s as real + 1.5)
  }

  /** Any exact solution of the balance equation lies in `[s, s + 3/2)`. */
  lemma ExactRootInBracket(a: real, b: real, c: real, s: nat, t: real)
    requires 0.0 <= a && 0.0 < c && Brackets(a, b, c, s) && 0.0 <= t && Quadratic(a, b, c, t) == 0.0
    ensures s as real <= t < s as real + 1.5
  {
    RootBelow(a, b, c, s as real, t);
    RootBelow(a, b, c, t, s as real + 1.5);
  }

  // ---------------------------------------------------------------- swapping external for native

  /** `z_`: the square-root argument, in the source's own terms. */
  function ExternalRadicand(Y: real, X: real, y: real, x: real, f: real, r: real): real {
    var c_ := Y * (-1.0 * (x + X));
    var d_ := f * f * x * Y;
    var e_ := f * f * X * Y;
    var f_ := 2.0 * f * r * x * Y;
    var g_ := 4.0 * f * r * X * y;
    var h_ := 2.0 * f * r * X * Y;
    var i_ := 4.0 * f * X * y;
    var j_ := 4.0 * f * X * Y;
    var k_ := r * r * x * Y;
    var l_ := r * r * X * Y;
    var m_ := 4.0 * r * X * y;
    var n_ := 4.0 * r * X * Y;
    var o_ := 4.0 * X * y;
    var p_ := 4.0 * X * Y;
    c_ * (g_ + h_ + i_ + j_ - d_ - e_ - f_ - k_ - l_ - m_ - n_ - o_ - p_)
  }

  /** `ab_`: the numerator of the root formula, from the square root. */
  function ExternalNumerator(aa_: real, Y: real, X: real, y: real, x: real, f: real, r: real): real {
    var q_ := f * x * Y;
    var r_ := f * X * Y;
    var s_ := r * x * Y;
    var t_ := 2.0 * r * X * y;
    var u_ := r * X * Y;
    var v_ := 2.0 * X * y;
    var w_ := 2.0 * X * Y;
    aa_ + q_ + r_ + s_ - t_ - u_ - v_ - w_
  }

  /** `CalculateExternalSwapAmountAsymmetricRat`. */
  function ExternalSwapAmountRat(Y: real, X: real, y: real, x: real, f: real, r: real): real
    requires 0.0 <= ExternalRadicand(Y, X, y, x, f, r)
    requires 2.0 * (r + 1.0) * (y + Y) != 0.0
  {
    var aa_ := ApproxRatSquareRoot(ExternalRadicand(Y, X, y, x, f, r)) as real;
    Abs(ExternalNumerator(aa_, Y, X, y, x, f, r) / (2.0 * (r + 1.0) * (y + Y)))
  }

  /** The coefficients of `(x - s)(s + X)(1 + r)(y + Y) = (x + X)(y(s + X)(1 + r) + s*Y*(1 - f))`, sign reversed. */
  function ExternalA(Y: real, y: real, r: real): real { (1.0 + r) * (y + Y) }

  function ExternalB(Y: real, X: real, y: real, x: real, f: real, r: real): real {
    2.0 * (X * y) * (1.0 + r) + X * Y * (2.0 + r - f) - x * Y * (f + r)
  }

  function ExternalC(Y: real, X: real, y: real, x: real, r: real): real { X * ((1.0 + r) * (x * Y - X * y)) }

  lemma ExternalFactors(xY: real, XY: real, Xy: real, k: real, g: real)
    ensures (xY + XY) * (xY * (k - g) * (k - g) + XY * (k + g) * (k + g) + 4.0 * Xy * k * g)
         == (2.0 * Xy * k + XY * (k + g) - xY * (k - g)) * (2.0 * Xy * k + XY * (k + g) - xY * (k - g))
          + 4.0 * (k * (Xy + XY)) * (k * (xY - Xy))
  {
  }

  /** The thirteen terms under the root are one product of non-negative factors. */
  lemma ExternalRadicandFactored(Y: real, X: real, y: real, x: real, f: real, r: real)
    ensures ExternalRadicand(Y, X, y, x, f, r)
         == (x * Y + X * Y) * (x * Y * (f + r) * (f + r) + X * Y * (2.0 + r - f) * (2.0 + r - f)
                               + 4.0 * (X * y) * (1.0 + r) * (1.0 - f))
  {
  }

  /** The question the source leaves open: the square root is never taken of a negative number. */
  lemma ExternalRadicandNonNegative(Y: real, X: real, y: real, x: real, f: real, r: real)
    requires 0.0 <= Y && 0.0 <= X && 0.0 <= y && 0.0 <= x && f <= 1.0 && -1.0 <= r
    ensures 0.0 <= ExternalRadicand(Y, X, y, x, f, r)
  {
    ExternalRadicandFactored(Y, X, y, x, f, r);
    ProductNonNegative(x, Y);
    ProductNonNegative(X, Y);
    ProductNonNegative(X, y);
    FactoredNonNegative(x * Y, X * Y, X * y, f + r, 2.0 + r - f, 1.0 + r, 1.0 - f);
  }

  lemma FactoredNonNegative(xY: real, XY: real, Xy: real, u: real, v: real, k: real, g: real)
    requires 0.0 <= xY && 0.0 <= XY && 0.0 <= Xy && 0.0 <= k && 0.0 <= g
    ensures 0.0 <= (xY + XY) * (xY * u * u + XY * v * v + 4.0 * Xy * k * g)
  {
    assert 0.0 <= xY * u * u by { SquareNonNegative(u); ProductNonNegative(xY, u * u); }
    assert 0.0 <= XY * v * v by { SquareNonNegative(v); ProductNonNegative(XY, v * v); }
    assert 0.0 <= 4.0 * Xy * k * g by { ProductNonNegative(k, g); ProductNonNegative(Xy, k * g); }
    ProductNonNegative(xY + XY, xY * u * u + XY * v * v + 4.0 * Xy * k * g);
  }

  lemma ExternalRadicandIsDiscriminant(Y: real, X: real, y: real, x: real, f: real, r: real)
    ensures ExternalRadicand(Y, X, y, x, f, r)
         == Discriminant(ExternalA(Y, y, r), ExternalB(Y, X, y, x, f, r), ExternalC(Y, X, y, x, r))
  {
    ExternalRadicandFactored(Y, X, y, x, f, r);
    ExternalFactors(x * Y, X * Y, X * y, 1.0 + r, 1.0 - f);
    var a, c := ExternalA(Y, y, r), ExternalC(Y, X, y, x, r);
    assert 4.0 * ((1.0 + r) * (X * y + X * Y)) * ((1.0 + r) * (x * Y - X * y)) == 4.0 * a * c;
  }

  /**
   `CalculateExternalSwapAmountAsymmetric`: how much of `a` to swap for native. Total on every pool with native in it.
   */
  function ExternalSwapAmount(R: nat, A: nat, r: nat, a: nat, f: real, p: real): (s: nat)
    requires 0 < R && 0.0 <= f <= 1.0 && 0.0 <= p
  {
    ExternalRadicandNonNegative(R as real, A as real, r as real, a as real, f, p);
    ExternalDivisorPositive(R as real, r as real, p);
    RatIntQuo(ExternalSwapAmountRat(R as real, A as real, r as real, a as real, f, p))
  }

  lemma ExternalDivisorPositive(Y: real, y: real, r: real)
    requires 1.0 <= Y && 0.0 <= y && 0.0 <= r
    ensures 1.0 <= ExternalA(Y, y, r) && 2.0 * (r + 1.0) * (y + Y) == 2.0 * ExternalA(Y, y, r)
  {
    assert 0.0 <= r * (y + Y);
  }

  lemma ExternalNumeratorIs(root: real, Y: real, X: real, y: real, x: real, f: real, r: real)
    ensures ExternalNumerator(root, Y, X, y, x, f, r) == root - ExternalB(Y, X, y, x, f, r)
  {
  }

  /** The solver's answer is the floored root of the documented equation. */
  lemma ExternalIsFlooredRoot(R: nat, A: nat, r: nat, a: nat, f: real, p: real, root: real)
    requires 0 < R && 0.0 <= f <= 1.0 && 0.0 <= p
    requires 0.0 <= ExternalRadicand(R as real, A as real, r as real, a as real, f, p)
    requires root == ApproxRatSquareRoot(ExternalRadicand(R as real, A as real, r as real, a as real, f, p)) as real
    ensures var k2 := ExternalA(R as real, r as real, p);
      var k1 := ExternalB(R as real, A as real, r as real, a as real, f, p);
      1.0 <= k2 && ExternalSwapAmount(R, A, r, a, f, p) == FlooredRoot(k2, k1, root)
  {
    ExternalDivisorPositive(R as real, r as real, p);
    ExternalNumeratorIs(root, R as real, A as real, r as real, a as real, f, p);
  }

  lemma ExternalRoot(R: nat, A: nat, r: nat, a: nat, f: real, p: real) returns (root: real)
    requires 0 < R && 0.0 <= f <= 1.0 && 0.0 <= p
    ensures var k2, k0 := ExternalA(R as real, r as real, p), ExternalC(R as real, A as real, r as real, a as real, p);
      var k1 := ExternalB(R as real, A as real, r as real, a as real, f, p);
      && 1.0 <= k2 && ExternalSwapAmount(R, A, r, a, f, p) == FlooredRoot(k2, k1, root)
      && IsFloorRoot(root, Discriminant(k2, k1, k0))
  {
    ExternalRadicandNonNegative(R as real, A as real, r as real, a as real, f, p);
    var d := ExternalRadicand(R as real, A as real, r as real, a as real, f, p);
    root := FloorRootOf(d);
    ExternalIsFlooredRoot(R, A, r, a, f, p, root);
    ExternalRadicandIsDiscriminant(R as real, A as real, r as real, a as real, f, p);
  }

  /** The native proceeds of swapping `s` external, before truncation: `s*Y/(s + X) * (1 - f)/(1 + r)`. */
  function ExternalProceeds(Y: real, X: real, s: real, f: real, r: real): real
    requires 0.0 < s + X && 0.0 <= r
  {
    s * Y / (s + X) * (1.0 - f) / (1.0 + r)
  }

  /** The documented condition: after the swap the added assets are in the ratio of the whole pool. */
  ghost predicate ExternalBalanced(Y: real, X: real, y: real, x: real, f: real, r: real, s: real) {
    && 0.0 <= s && 0.0 < s + X && 0.0 <= r && 0.0 < y + Y
    && var added := y + ExternalProceeds(Y, X, s, f, r);
       added != 0.0 && (x + X) / (y + Y) == (x - s) / added
  }

  ghost predicate ExternalSolution(R: nat, A: nat, r: nat, a: nat, f: real, p: real, s: real) {
    ExternalBalanced(R as real, A as real, r as real, a as real, f, p, s)
  }

  /** The balance polynomial, regrouped as "share claimed minus share paid for". */
  lemma ExternalPolynomial(Y: real, X: real, y: real, x: real, f: real, r: real, s: real, k: real)
    requires k == (s + X) * (1.0 + r)
    ensures Quadratic(ExternalA(Y, y, r), ExternalB(Y, X, y, x, f, r), ExternalC(Y, X, y, x, r), s)
         == ScaledBalance(k, X, x, Y, y, s, s * Y * (1.0 - f))
  {
  }

  lemma ExternalProceedsScaled(Y: real, X: real, s: real, f: real, r: real)
    requires 0.0 < s + X && 0.0 <= r
    ensures ExternalProceeds(Y, X, s, f, r) * (s + X) * (1.0 + r) == s * Y * (1.0 - f)
  {
    var q1 := s * Y / (s + X);
    QuotientScales(s * Y, s + X);
    QuotientScales(q1 * (1.0 - f), 1.0 + r);
    var g := ExternalProceeds(Y, X, s, f, r);
    assert (1.0 + r) * g == q1 * (1.0 - f);
    assert (s + X) * q1 == s * Y;
    calc {
      g * (s + X) * (1.0 + r);
      ((1.0 + r) * g) * (s + X);
      (q1 * (1.0 - f)) * (s + X);
      ((s + X) * q1) * (1.0 - f);
      s * Y * (1.0 - f);
    }
  }

  /**
   With `s` of a deposit of `x` swapped for `g` of the other asset: what the other asset then comes to, at the final
   depth of the first, less what the rest of the deposit is worth at the final depth of the second.
   */
  function Gap(X: real, x: real, Y: real, y: real, s: real, g: real): real {
    (x + X) * (y + g) - (x - s) * (y + Y)
  }

  /** The gap with its denominator `k` cleared: `scaled` is `k` times the proceeds. */
  function ScaledBalance(k: real, X: real, x: real, Y: real, y: real, s: real, scaled: real): real {
    (x + X) * (k * y + scaled) - (x - s) * (y + Y) * k
  }

  /**
   Swapping `s` overshoots by the native value that the remaining deposit, priced at the final ratio, falls short of.
   */
  function ExternalGap(Y: real, X: real, y: real, x: real, f: real, r: real, s: real): real
    requires 0.0 < s + X && 0.0 <= r
  {
    Gap(X, x, Y, y, s, ExternalProceeds(Y, X, s, f, r))
  }

  lemma ExternalPolynomialIsScaledGap(Y: real, X: real, y: real, x: real, f: real, r: real, s: real)
    requires 0.0 < s + X && 0.0 <= r
    ensures Quadratic(ExternalA(Y, y, r), ExternalB(Y, X, y, x, f, r), ExternalC(Y, X, y, x, r), s)
         == Times((s + X) * (1.0 + r), ExternalGap(Y, X, y, x, f, r, s))
  {
    var k, g := (s + X) * (1.0 + r), ExternalProceeds(Y, X, s, f, r);
    ExternalPolynomial(Y, X, y, x, f, r, s, k);
    ExternalProceedsScaled(Y, X, s, f, r);
    ScaledGap(k, X, x, Y, y, s, g, s * Y * (1.0 - f));
  }

  lemma ScaledGap(k: real, X: real, x: real, Y: real, y: real, s: real, g: real, scaled: real)
    requires k * g == scaled
    ensures Times(k, Gap(X, x, Y, y, s, g)) == ScaledBalance(k, X, x, Y, y, s, scaled)
  {
  }

  lemma ExternalGapSign(Y: real, X: real, y: real, x: real, f: real, r: real, s: real)
    requires 0.0 < s + X && 0.0 <= r
    ensures var q := Quadratic(ExternalA(Y, y, r), ExternalB(Y, X, y, x, f, r), ExternalC(Y, X, y, x, r), s);
      var gap := ExternalGap(Y, X, y, x, f, r, s);
      (q <= 0.0 <==> gap <= 0.0) && (q == 0.0 <==> gap == 0.0)
  {
    ExternalPolynomialIsScaledGap(Y, X, y, x, f, r, s);
    StrictScale(s + X, 0.0, 1.0 + r);
    SignAgrees(Quadratic(ExternalA(Y, y, r), ExternalB(Y, X, y, x, f, r), ExternalC(Y, X, y, x, r), s),
      (s + X) * (1.0 + r), ExternalGap(Y, X, y, x, f, r, s));
  }

  lemma SignAgrees(q: real, k: real, gap: real)
    requires 0.0 < k && q == Times(k, gap)
    ensures (q <= 0.0 <==> gap <= 0.0) && (q == 0.0 <==> gap == 0.0)
  {
    SignFromScaled(k, gap);
  }

  lemma ExternalBalancedHasNoGap(Y: real, X: real, y: real, x: real, f: real, r: real, s: real)
    requires ExternalBalanced(Y, X, y, x, f, r, s)
    ensures ExternalGap(Y, X, y, x, f, r, s) == 0.0
  {
    CrossMultiply(x + X, y + Y, x - s, y + ExternalProceeds(Y, X, s, f, r));
  }

  /**
   The external-side add. For every pool and deposit that needs more native: the swap amount fits in
   the deposit, does not overshoot the documented balance, and 3/2 more would; so every exact solution
   of the documented equation lies in `[s, s + 3/2)`.
   */
  lemma ExternalSwapAmountCorrect(R: nat, A: nat, r: nat, a: nat, f: real, p: real)
    requires 0 < R && 0 < A && 0 < a && r * A < R * a && 0.0 <= f <= 1.0 && 0.0 <= p
    ensures var s := ExternalSwapAmount(R, A, r, a, f, p);
      && s <= a
      && ExternalGap(R as real, A as real, r as real, a as real, f, p, s as real) <= 0.0
      && 0.0 < ExternalGap(R as real, A as real, r as real, a as real, f, p, s as real + 1.5)
      && forall t: real | ExternalSolution(R, A, r, a, f, p, t) :: s as real <= t < s as real + 1.5
  {
    var Y, X, y, x := R as real, A as real, r as real, a as real;
    var k2, k1, k0 := ExternalA(Y, y, p), ExternalB(Y, X, y, x, f, p), ExternalC(Y, X, y, x, p);
    var s := ExternalSwapAmount(R, A, r, a, f, p);
    var root := ExternalRoot(R, A, r, a, f, p);
    ExternalConstantPositive(R, A, r, a, p);
    FlooredRootBrackets(k2, k1, k0, root);
    ExternalGapSign(Y, X, y, x, f, p, s as real);
    ExternalGapSign(Y, X, y, x, f, p, s as real + 1.5);
    ExternalGapAtDeposit(Y, X, y, x, f, p);
    ExternalGapSign(Y, X, y, x, f, p, x);
    RootBelow(k2, k1, k0, s as real, x);
    forall t: real | ExternalSolution(R, A, r, a, f, p, t)
      ensures s as real <= t < s as real + 1.5
    {
      ExternalBalancedHasNoGap(Y, X, y, x, f, p, t);
      ExternalGapSign(Y, X, y, x, f, p, t);
      ExactRootInBracket(k2, k1, k0, s, t);
    }
  }

  lemma ExternalConstantPositive(R: nat, A: nat, r: nat, a: nat, p: real)
    requires 0 < A && r * A < R * a && 0.0 <= p
    ensures 0.0 < ExternalC(R as real, A as real, r as real, a as real, p)
  {
    var d := a as real * R as real - A as real * r as real;
    assert (R * a) as real == a as real * R as real && (r * A) as real == A as real * r as real;
    assert 0.0 < (1.0 + p) * d by { assert 0.0 <= p * d; }
  }

  lemma ExternalGapAtDeposit(Y: real, X: real, y: real, x: real, f: real, r: real)
    requires 0.0 <= Y && 0.0 < X && 0.0 <= y && 0.0 <= x && f <= 1.0 && 0.0 <= r
    ensures 0.0 <= ExternalGap(Y, X, y, x, f, r, x)
  {
    var g := ExternalProceeds(Y, X, x, f, r);
    assert 0.0 <= g by {
      ProductNonNegative(x, Y);
      QuotientNonNegative(x * Y, x + X);
      ProductNonNegative(x * Y / (x + X), 1.0 - f);
      QuotientNonNegative(x * Y / (x + X) * (1.0 - f), 1.0 + r);
    }
    ProductNonNegative(x + X, y + g);
  }

  // ---------------------------------------------------------------- swapping native for external

  /** `w_`, in the source's own terms. */
  function NativeW(Y: real, X: real, y: real, x: real, f: real, r: real): real {
    var a_ := f * r * X * y;
    var b_ := f * r * X * Y;
    var c_ := f * X * y;
    var d_ := f * X * Y;
    var e_ := r * X * y;
    var f_ := r * X * Y;
    var g_ := 2.0 * x * Y;
    var h_ := 2.0 * X * Y;
    e_ + f_ + g_ + h_ - a_ - b_ - c_ - d_
  }

  /** `y_`: the square-root argument. */
  function NativeRadicand(Y: real, X: real, y: real, x: real, f: real, r: real): real {
    var w_ := NativeW(Y, X, y, x, f, r);
    var i_ := x + X;
    var j_ := x * Y * Y;
    var k_ := X * y * Y;
    w_ * w_ - 4.0 * i_ * (j_ - k_)
  }

  /** `CalculateNativeSwapAmountAsymmetricRat`. */
  function NativeSwapAmountRat(Y: real, X: real, y: real, x: real, f: real, r: real): real
    requires 0.0 <= NativeRadicand(Y, X, y, x, f, r)
    requires 2.0 * (x + X) != 0.0
  {
    var z_ := ApproxRatSquareRoot(NativeRadicand(Y, X, y, x, f, r)) as real;
    Abs(NativeNumerator(z_, Y, X, y, x, f, r) / (2.0 * (x + X)))
  }

  /** `aa_`: the numerator of the root formula, from the square root. */
  function NativeNumerator(z_: real, Y: real, X: real, y: real, x: real, f: real, r: real): real {
    var n_ := f * r * X * y;
    var o_ := f * r * X * Y;
    var p_ := f * X * y;
    var q_ := f * X * Y;
    var r_ := r * X * y;
    var s_ := r * X * Y;
    var t_ := 2.0 * x * Y;
    var u_ := 2.0 * X * Y;
    z_ + n_ + o_ + p_ + q_ - r_ - s_ - t_ - u_
  }

  lemma NativeNumeratorIs(root: real, Y: real, X: real, y: real, x: real, f: real, r: real)
    ensures NativeNumerator(root, Y, X, y, x, f, r) == root - NativeW(Y, X, y, x, f, r)
  {
  }

  function NativeA(X: real, x: real): real { x + X }

  function NativeC(Y: real, X: real, y: real, x: real): real { Y * (X * y - x * Y) }

  lemma NativeRadicandIsDiscriminant(Y: real, X: real, y: real, x: real, f: real, r: real)
    ensures NativeRadicand(Y, X, y, x, f, r)
         == Discriminant(NativeA(X, x), NativeW(Y, X, y, x, f, r), NativeC(Y, X, y, x))
  {
    assert x * Y * Y - X * y * Y == -NativeC(Y, X, y, x);
  }

  /** The question the source leaves open, for the native side: more native than the ratio allows is all it takes. */
  lemma NativeRadicandNonNegative(Y: real, X: real, y: real, x: real, f: real, r: real)
    requires 0.0 <= Y && 0.0 <= X && 0.0 <= x && x * Y <= X * y
    ensures 0.0 <= NativeRadicand(Y, X, y, x, f, r)
  {
    NativeRadicandIsDiscriminant(Y, X, y, x, f, r);
    ProductNonNegative(Y, X * y - x * Y);
    DiscriminantNonNegative(NativeA(X, x), NativeW(Y, X, y, x, f, r), NativeC(Y, X, y, x));
  }

  lemma CrossOrder(R: nat, A: nat, r: nat, a: nat)
    requires R * a <= r * A
    ensures a as real * R as real <= A as real * r as real
    ensures R * a < r * A ==> a as real * R as real < A as real * r as real
  {
    assert (R * a) as real == a as real * R as real && (r * A) as real == A as real * r as real;
  }

  /** `CalculateNativeSwapAmountAsymmetric`: how much of `r` to swap for external. */
  function NativeSwapAmount(R: nat, A: nat, r: nat, a: nat, f: real, p: real): (s: nat)
    requires 0 < A && R * a <= r * A
  {
    CrossOrder(R, A, r, a);
    NativeRadicandNonNegative(R as real, A as real, r as real, a as real, f, p);
    RatIntQuo(NativeSwapAmountRat(R as real, A as real, r as real, a as real, f, p))
  }

  lemma NativeIsFlooredRoot(R: nat, A: nat, r: nat, a: nat, f: real, p: real, root: real)
    requires 0 < A && R * a <= r * A
    requires 0.0 <= NativeRadicand(R as real, A as real, r as real, a as real, f, p)
    requires root == ApproxRatSquareRoot(NativeRadicand(R as real, A as real, r as real, a as real, f, p)) as real
    ensures NativeSwapAmount(R, A, r, a, f, p)
         == FlooredRoot(NativeA(A as real, a as real), NativeW(R as real, A as real, r as real, a as real, f, p), root)
  {
    NativeNumeratorIs(root, R as real, A as real, r as real, a as real, f, p);
  }

  lemma NativeRoot(R: nat, A: nat, r: nat, a: nat, f: real, p: real) returns (root: real)
    requires 0 < A && R * a <= r * A
    ensures var k2, k1 := NativeA(A as real, a as real), NativeW(R as real, A as real, r as real, a as real, f, p);
      && 1.0 <= k2 && NativeSwapAmount(R, A, r, a, f, p) == FlooredRoot(k2, k1, root)
      && IsFloorRoot(root, Discriminant(k2, k1, NativeC(R as real, A as real, r as real, a as real)))
  {
    CrossOrder(R, A, r, a);
    NativeRadicandNonNegative(R as real, A as real, r as real, a as real, f, p);
    root := FloorRootOf(NativeRadicand(R as real, A as real, r as real, a as real, f, p));
    NativeIsFlooredRoot(R, A, r, a, f, p, root);
    NativeRadicandIsDiscriminant(R as real, A as real, r as real, a as real, f, p);
  }

  /** The external proceeds of swapping `s` native, before truncation: `s*X/(s + Y) * (1 + r)*(1 - f)`. */
  function NativeProceeds(Y: real, X: real, s: real, f: real, r: real): real
    requires 0.0 < s + Y
  {
    s * X / (s + Y) * (1.0 + r) * (1.0 - f)
  }

  ghost predicate NativeBalanced(Y: real, X: real, y: real, x: real, f: real, r: real, s: real) {
    && 0.0 <= s && 0.0 < s + Y && 0.0 < x + X
    && var added := x + NativeProceeds(Y, X, s, f, r);
       added != 0.0 && (y + Y) / (x + X) == (y - s) / added
  }

  ghost predicate NativeSolution(R: nat, A: nat, r: nat, a: nat, f: real, p: real, s: real) {
    NativeBalanced(R as real, A as real, r as real, a as real, f, p, s)
  }

  function NativeGap(Y: real, X: real, y: real, x: real, f: real, r: real, s: real): real
    requires 0.0 < s + Y
  {
    Gap(Y, y, X, x, s, NativeProceeds(Y, X, s, f, r))
  }

  lemma NativePolynomial(Y: real, X: real, y: real, x: real, f: real, r: real, s: real)
    ensures Quadratic(NativeA(X, x), NativeW(Y, X, y, x, f, r), NativeC(Y, X, y, x), s)
         == ScaledBalance(s + Y, Y, y, X, x, s, s * X * (1.0 + r) * (1.0 - f))
  {
  }

  lemma NativeProceedsScaled(Y: real, X: real, s: real, f: real, r: real)
    requires 0.0 < s + Y
    ensures (s + Y) * NativeProceeds(Y, X, s, f, r) == s * X * (1.0 + r) * (1.0 - f)
  {
    var q := s * X / (s + Y);
    QuotientScales(s * X, s + Y);
    calc {
      (s + Y) * NativeProceeds(Y, X, s, f, r);
      ((s + Y) * q) * (1.0 + r) * (1.0 - f);
      s * X * (1.0 + r) * (1.0 - f);
    }
  }

  lemma NativeGapSign(Y: real, X: real, y: real, x: real, f: real, r: real, s: real)
    requires 0.0 < s + Y
    ensures var q := Quadratic(NativeA(X, x), NativeW(Y, X, y, x, f, r), NativeC(Y, X, y, x), s);
      var gap := NativeGap(Y, X, y, x, f, r, s);
      (q <= 0.0 <==> gap <= 0.0) && (q == 0.0 <==> gap == 0.0)
  {
    NativePolynomialIsScaledGap(Y, X, y, x, f, r, s);
    SignAgrees(Quadratic(NativeA(X, x), NativeW(Y, X, y, x, f, r), NativeC(Y, X, y, x), s), s + Y, NativeGap(Y, X, y,
      x, f, r, s));
  }

  lemma NativePolynomialIsScaledGap(Y: real, X: real, y: real, x: real, f: real, r: real, s: real)
    requires 0.0 < s + Y
    ensures Quadratic(NativeA(X, x), NativeW(Y, X, y, x, f, r), NativeC(Y, X, y, x), s)
         == Times(s + Y, NativeGap(Y, X, y, x, f, r, s))
  {
    NativePolynomial(Y, X, y, x, f, r, s);
    NativeProceedsScaled(Y, X, s, f, r);
    ScaledGap(s + Y, Y, y, X, x, s, NativeProceeds(Y, X, s, f, r), s * X * (1.0 + r) * (1.0 - f));
  }

  lemma NativeBalancedHasNoGap(Y: real, X: real, y: real, x: real, f: real, r: real, s: real)
    requires NativeBalanced(Y, X, y, x, f, r, s)
    ensures NativeGap(Y, X, y, x, f, r, s) == 0.0
  {
    CrossMultiply(y + Y, x + X, y - s, x + NativeProceeds(Y, X, s, f, r));
  }

  lemma NativeGapAtDeposit(Y: real, X: real, y: real, x: real, f: real, r: real)
    requires 0.0 < Y && 0.0 <= X && 0.0 <= y && 0.0 <= x && f <= 1.0 && 0.0 <= r
    ensures 0.0 <= NativeGap(Y, X, y, x, f, r, y)
  {
    var g := NativeProceeds(Y, X, y, f, r);
    assert 0.0 <= g by {
      ProductNonNegative(y, X);
      QuotientNonNegative(y * X, y + Y);
      ProductNonNegative(y * X / (y + Y), 1.0 + r);
      ProductNonNegative(y * X / (y + Y) * (1.0 + r), 1.0 - f);
    }
    ProductNonNegative(y + Y, x + g);
  }

  lemma NativeConstantPositive(R: nat, A: nat, r: nat, a: nat)
    requires 0 < R && R * a < r * A
    ensures 0.0 < NativeC(R as real, A as real, r as real, a as real)
  {
    CrossOrder(R, A, r, a);
  }

  /** The native-side add: the same guarantee for the other quadratic. */
  lemma NativeSwapAmountCorrect(R: nat, A: nat, r: nat, a: nat, f: real, p: real)
    requires 0 < R && 0 < A && R * a < r * A && 0.0 <= f <= 1.0 && 0.0 <= p
    ensures var s := NativeSwapAmount(R, A, r, a, f, p);
      && s <= r
      && NativeGap(R as real, A as real, r as real, a as real, f, p, s as real) <= 0.0
      && 0.0 < NativeGap(R as real, A as real, r as real, a as real, f, p, s as real + 1.5)
      && forall t: real | NativeSolution(R, A, r, a, f, p, t) :: s as real <= t < s as real + 1.5
  {
    var Y, X, y, x := R as real, A as real, r as real, a as real;
    var k2, k1, k0 := NativeA(X, x), NativeW(Y, X, y, x, f, p), NativeC(Y, X, y, x);
    var s := NativeSwapAmount(R, A, r, a, f, p);
    var root := NativeRoot(R, A, r, a, f, p);
    NativeConstantPositive(R, A, r, a);
    FlooredRootBrackets(k2, k1, k0, root);
    NativeGapSign(Y, X, y, x, f, p, s as real);
    NativeGapSign(Y, X, y, x, f, p, s as real + 1.5);
    NativeGapAtDeposit(Y, X, y, x, f, p);
    NativeGapSign(Y, X, y, x, f, p, y);
    RootBelow(k2, k1, k0, s as real, y);
    forall t: real | NativeSolution(R, A, r, a, f, p, t)
      ensures s as real <= t < s as real + 1.5
    {
      NativeBalancedHasNoGap(Y, X, y, x, f, p, t);
      NativeGapSign(Y, X, y, x, f, p, t);
      ExactRootInBracket(k2, k1, k0, s, t);
    }
  }
}
