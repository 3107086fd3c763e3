/** Pool units issued for a liquidity add, and what the added and the existing units are worth afterwards. */
module PoolUnits {
  import opened Decimal
  import opened Rational
  import opened AsymmetricAdd
  import Swap

  datatype SymmetryState = ErrorEmptyPool | ErrorNothingAdded | NeedMoreY | Symmetric | NeedMoreX

  datatype SwapStatus = SellNative | BuyNative | NoSwap

  datatype UnitsResult =
    | Issued(poolUnits: nat, lpUnits: nat, status: SwapStatus, swapAmount: nat)
    | InvalidAmount

  /** `GetLiquidityAddSymmetryState`: compares the deposit's ratio `y/x` with the pool's `Y/X`. */
  function GetLiquidityAddSymmetryState(X: nat, x: nat, Y: nat, y: nat): SymmetryState {
    if X == 0 || Y == 0 then ErrorEmptyPool
    else if x == 0 && y == 0 then ErrorNothingAdded
    else if x == 0 then NeedMoreX
    else
      var YoverX, yOverx := Y as real / X as real, y as real / x as real;
      if YoverX < yOverx then NeedMoreX
      else if YoverX == yOverx then Symmetric
      else NeedMoreY
  }

  lemma FractionOrder(a: nat, b: nat, c: nat, d: nat)
    requires 0 < b && 0 < d
    ensures a as real / b as real < c as real / d as real <==> a * d < c * b
    ensures a as real / b as real == c as real / d as real <==> a * d == c * b
  {
    var p, q := a as real / b as real, c as real / d as real;
    QuotientScales(a as real, b as real);
    QuotientScales(c as real, d as real);
    var k := b as real * d as real;
    assert (a * d) as real == k * p && (c * b) as real == k * q;
    if p < q { StrictScale(k, p, q); }
    if q < p { StrictScale(k, q, p); }
  }

  /** The classifier decides by exact cross multiplication, and its three ratio outcomes exclude each other. */
  lemma SymmetryStateByCrossProduct(X: nat, x: nat, Y: nat, y: nat)
    requires 0 < X && 0 < Y && (x != 0 || y != 0)
    ensures var state := GetLiquidityAddSymmetryState(X, x, Y, y);
      && (state == NeedMoreX <==> Y * x < y * X)
      && (state == Symmetric <==> Y * x == y * X)
      && (state == NeedMoreY <==> Y * x > y * X)
  {
    if x != 0 { FractionOrder(Y, X, y, x); } else { assert 0 < y * X; }
  }

  /** `CalculatePoolUnitsSymmetric`: total and new units. */
  function CalculatePoolUnitsSymmetric(X: nat, x: nat, P: nat): (units: (nat, nat))
    requires 0 < X
  {
    var providerUnits := x * P / X;
    (P + providerUnits, providerUnits)
  }

  ghost predicate BothFeesValid(sellFee: real, buyFee: real, p: real) {
    Swap.ValidRates(p, sellFee) && Swap.ValidRates(p, buyFee)
  }

  lemma SwapAmountFits(R: nat, A: nat, r: nat, a: nat, sellFee: real, buyFee: real, p: real)
    requires BothFeesValid(sellFee, buyFee, p) && 0 < R && 0 < A && (a != 0 || r != 0)
    ensures var state := GetLiquidityAddSymmetryState(A, a, R, r);
      && (state == NeedMoreY ==> ExternalSwapAmount(R, A, r, a, buyFee, p) <= a)
      && (state == NeedMoreX ==> R * a <= r * A && NativeSwapAmount(R, A, r, a, sellFee, p) <= r)
  {
    SymmetryStateByCrossProduct(A, a, R, r);
    if R * a > r * A {
      FactorsPositive(R, a);
      ExternalSwapAmountCorrect(R, A, r, a, buyFee, p);
    } else if R * a < r * A {
      NativeSwapAmountCorrect(R, A, r, a, sellFee, p);
    }
  }

  /**
   `CalculatePoolUnits`. That this function is total is a theorem: no square root of a negative number,
   no subtraction below zero and no division by zero, for every pool and every deposit.
   */
  function CalculatePoolUnits(P: nat, R: nat, A: nat, r: nat, a: nat, sellFee: real, buyFee: real,
                              p: real): (res: UnitsResult)
    requires BothFeesValid(sellFee, buyFee, p)
    ensures res.InvalidAmount? <==> (R == 0 || A == 0) && (r == 0 || a == 0)
    ensures res.Issued? ==> (res.poolUnits == P + res.lpUnits <==> (R != 0 && A != 0) || P == 0)
  {
    match GetLiquidityAddSymmetryState(A, a, R, r)
    case ErrorEmptyPool =>
      if a == 0 || r == 0 then InvalidAmount else Issued(r, r, NoSwap, 0)
    case ErrorNothingAdded => Issued(P, 0, NoSwap, 0)
    case NeedMoreY =>
      SwapAmountFits(R, A, r, a, sellFee, buyFee, p);
      var swapAmount := ExternalSwapAmount(R, A, r, a, buyFee, p);
      var aCorrected := a - swapAmount;
      var units := CalculatePoolUnitsSymmetric(A + swapAmount, aCorrected, P);
      Issued(units.0, units.1, BuyNative, swapAmount)
    case Symmetric =>
      var units := CalculatePoolUnitsSymmetric(R, r, P);
      Issued(units.0, units.1, NoSwap, 0)
    case NeedMoreX =>
      SwapAmountFits(R, A, r, a, sellFee, buyFee, p);
      var swapAmount := NativeSwapAmount(R, A, r, a, sellFee, p);
      var rCorrected := r - swapAmount;
      var units := CalculatePoolUnitsSymmetric(R + swapAmount, rCorrected, P);
      Issued(units.0, units.1, SellNative, swapAmount)
  }

  /** A proportional add gets the whole units its part of either depth is worth, and swaps nothing. */
  lemma ProportionalAddIssues(P: nat, R: nat, A: nat, r: nat, a: nat, sellFee: real, buyFee: real, p: real)
    requires BothFeesValid(sellFee, buyFee, p) && 0 < R && 0 < A && (r != 0 || a != 0) && R * a == r * A
    ensures var res := CalculatePoolUnits(P, R, A, r, a, sellFee, buyFee, p);
      && res.Issued? && res.status == NoSwap && res.swapAmount == 0 && res.poolUnits == P + res.lpUnits
      && res.lpUnits * R <= r * P < (res.lpUnits + 1) * R
      && res.lpUnits * A <= a * P < (res.lpUnits + 1) * A
  {
    SymmetryStateByCrossProduct(A, a, R, r);
    var l := CalculatePoolUnitsSymmetric(R, r, P).1;
    IssuedWithinDeposit(R, r, P);
    SameShare(l, P, R, A, r, a);
  }

  /** What holds of one side of a proportional deposit holds of the other. */
  lemma SameShare(l: nat, P: nat, R: nat, A: nat, r: nat, a: nat)
    requires 0 < R && 0 < A && R * a == r * A && l * R <= r * P < (l + 1) * R
    ensures l * A <= a * P < (l + 1) * A
  {
    Crossed(l, P, R, A, r, a);
    Crossed(l + 1, P, R, A, r, a);
    ProductMonotone(A, l * R, r * P);
    CancelFactor(R, l * A, a * P);
    if (l + 1) * A <= a * P {
      ProductMonotone(R, (l + 1) * A, a * P);
      CancelFactor(A, (l + 1) * R, r * P);
    }
  }

  lemma Crossed(l: nat, P: nat, R: nat, A: nat, r: nat, a: nat)
    requires R * a == r * A
    ensures A * (l * R) == R * (l * A) && A * (r * P) == R * (a * P)
  {
    calc {
      A * (r * P);
      (r * A) * P;
      (R * a) * P;
      R * (a * P);
    }
  }

  // ---------------------------------------------------------------- what the units are worth

  /** The part of `depth` that `units` out of `poolUnits` stand for. */
  function Claim(units: nat, poolUnits: nat, depth: nat): real
    requires 0 < poolUnits
  {
    units as real * depth as real / poolUnits as real
  }

  /** Units issued by the symmetric formula never claim more than was kept of the deposit. */
  lemma IssuedWithinDeposit(X: nat, x: nat, P: nat)
    requires 0 < X
    ensures CalculatePoolUnitsSymmetric(X, x, P).1 * X <= x * P < (CalculatePoolUnitsSymmetric(X, x, P).1 + 1) * X
  {
    var q := x * P / X;
    assert q * X <= x * P < q * X + X == (q + 1) * X;
  }

  lemma FractionAtMost(n: real, d: real, bound: real)
    requires 0.0 < d && n <= bound * d
    ensures n / d <= bound
  {
    var q := n / d;
    QuotientScales(n, d);
    if bound < q { StrictScale(d, bound, q); assert false; }
  }

  lemma ClaimAtMost(units: nat, poolUnits: nat, depth: nat, bound: nat)
    requires 0 < poolUnits && units * depth <= bound * poolUnits
    ensures Claim(units, poolUnits, depth) <= bound as real
  {
    assert (units * depth) as real <= (bound * poolUnits) as real;
    FractionAtMost(units as real * depth as real, poolUnits as real, bound as real);
  }

  lemma ClaimAbove(units: nat, poolUnits: nat, depth: nat, bound: nat)
    requires 0 < poolUnits && bound * poolUnits < units * depth
    ensures bound as real < Claim(units, poolUnits, depth)
  {
    var n, d := units as real * depth as real, poolUnits as real;
    ProductAsReal(bound, poolUnits);
    ProductAsReal(units, depth);
    QuotientScales(n, d);
    if n / d <= bound as real { ScaleMonotone(d, n / d, bound as real); assert false; }
  }

  lemma FractionGrows(n1: real, d1: real, n2: real, d2: real)
    requires 0.0 < d1 && 0.0 < d2 && n1 * d2 <= n2 * d1
    ensures n1 / d1 <= n2 / d2
  {
    var q := n2 / d2;
    QuotientScales(n2, d2);
    assert n1 * d2 <= (q * d1) * d2;
    if q * d1 < n1 { StrictScale(d2, q * d1, n1); assert false; }
    FractionAtMost(n1, d1, q);
  }

  /** A holder's claim does not fall when units grow by `l` and depth by `d` with `l*X <= d*P`. */
  lemma ClaimKept(u: nat, P: nat, X: nat, l: nat, d: nat)
    requires 0 < P && l * X <= d * P
    ensures Claim(u, P, X) <= Claim(u, P + l, X + d)
  {
    assert X * (P + l) <= (X + d) * P;
    ProductMonotone(u, X * (P + l), (X + d) * P);
    var n1, n2 := u as real * X as real, u as real * (X + d) as real;
    assert n1 * (P + l) as real == (u * (X * (P + l))) as real;
    assert n2 * P as real == (u * ((X + d) * P)) as real;
    FractionGrows(n1, P as real, n2, (P + l) as real);
  }

  /** A proportional add leaves every holder's claim on either asset at least where it was. */
  lemma SymmetricAddNeverDilutes(u: nat, P: nat, R: nat, A: nat, r: nat, a: nat)
    requires 0 < P && 0 < R && 0 < A && R * a == r * A
    ensures var l := CalculatePoolUnitsSymmetric(R, r, P).1;
      Claim(u, P, R) <= Claim(u, P + l, R + r) && Claim(u, P, A) <= Claim(u, P + l, A + a)
  {
    var l := CalculatePoolUnitsSymmetric(R, r, P).1;
    IssuedWithinDeposit(R, r, P);
    ClaimKept(u, P, R, l, r);
    SameRatioShare(l, P, R, A, r, a);
    ClaimKept(u, P, A, l, a);
  }

  lemma SameRatioShare(l: nat, P: nat, R: nat, A: nat, r: nat, a: nat)
    requires 0 < R && R * a == r * A && l * R <= r * P
    ensures l * A <= a * P
  {
    ProductMonotone(A, l * R, r * P);
    assert R * (l * A) == A * (l * R);
    assert A * (r * P) == (r * A) * P == (R * a) * P == R * (a * P);
    CancelFactor(R, l * A, a * P);
  }

  lemma CancelFactor(k: nat, x: int, y: int)
    requires 0 < k && k * x <= k * y
    ensures x <= y
  {
    if y + 1 <= x { ProductMonotone(k, y + 1, x); assert false; }
  }

  lemma FactorsPositive(x: nat, y: nat)
    requires 0 < x * y
    ensures 0 < x && 0 < y
  {
  }

  lemma SwappedShare(l: nat, P: nat, X: nat, x: nat, s: nat)
    requires s <= x && l * (X + s) <= (x - s) * P
    ensures l * (X + x) <= (x - s) * (P + l) && l * X <= x * P
  {
    assert l * (X + x) == l * (X + s) + (x - s) * l;
    assert l * X + l * s == l * (X + s);
    assert (x - s) * P + s * P == x * P;
    assert 0 <= l * s && 0 <= s * P;
  }

  /** One unit more would have been worth more than was kept. */
  lemma NearlyAllIssued(l: nat, P: nat, X: nat, x: nat, s: nat)
    requires s <= x && (x - s) * P < (l + 1) * (X + s)
    ensures (x - s) * (P + l) < (l + 1) * (X + x)
  {
    var k, n := x - s, l + 1;
    assert n * (X + x) == n * (X + s) + k * l + k;
    assert k * (P + l) == k * P + k * l;
  }

  /**
   Units for a deposit of `x` into depth `X`, of which `s` was swapped: the newcomer's claim on that asset
   is at most what was kept of the deposit and less than one unit's worth below it, and no holder's claim falls.
   */
  lemma SwappedSideClaims(u: nat, P: nat, X: nat, x: nat, s: nat)
    requires 0 < P && 0 < X && s <= x
    ensures var l := CalculatePoolUnitsSymmetric(X + s, x - s, P).1;
      && l * (X + x) <= (x - s) * (P + l) < (l + 1) * (X + x)
      && Claim(l, P + l, X + x) <= (x - s) as real < Claim(l + 1, P + l, X + x)
      && Claim(u, P, X) <= Claim(u, P + l, X + x)
  {
    var l := CalculatePoolUnitsSymmetric(X + s, x - s, P).1;
    IssuedWithinDeposit(X + s, x - s, P);
    SwappedShare(l, P, X, x, s);
    NearlyAllIssued(l, P, X, x, s);
    ClaimAtMost(l, P + l, X + x, x - s);
    ClaimAbove(l + 1, P + l, X + x, x - s);
    ClaimKept(u, P, X, l, x);
  }

  /**
   The other side of a swapped add. `kept` of the deposit at total depth `X` earns a claim on total depth `Y`
   of at most `kept * Y / X`; if swapping 3/2 more would overshoot, that is below what the swap would have
   paid, plus 3/2 at the final ratio.
   */
  lemma OtherSideClaim(l: nat, units: nat, X: nat, Y: nat, kept: nat, paid: real)
    requires 0 < units && 0 < X && l * X <= kept * units
    requires (kept as real - 1.5) * Y as real < X as real * paid
    ensures Claim(l, units, Y) < paid + 1.5 * (Y as real / X as real)
  {
    var x, y, k := X as real, Y as real, kept as real;
    var c, q := Claim(l, units, Y), y / x;
    assert c <= k * q by {
      assert (l * X) as real <= (kept * units) as real;
      QuotientScales(y, x);
      var n := units as real;
      assert l as real * x <= k * n;
      assert y == x * q && 0.0 <= q by { QuotientNonNegative(y, x); }
      ScaleMonotone(q, l as real * x, k * n);
      assert l as real * y == q * (l as real * x);
      FractionAtMost(l as real * y, n, k * q);
    }
    assert k * q < paid + 1.5 * q by {
      QuotientScales(y, x);
      assert (k - 1.5) * y == x * ((k - 1.5) * q);
      if paid <= (k - 1.5) * q { ScaleMonotone(x, paid, (k - 1.5) * q); assert false; }
    }
  }

  /**
   And from below: if swapping nothing more would not overshoot, one unit more would have earned all the swap pays.
   */
  lemma OtherSideClaimBelow(l: nat, units: nat, X: nat, Y: nat, kept: nat, paid: real)
    requires 0 < units && 0 < X && 0 < Y && kept * units < (l + 1) * X
    requires X as real * paid <= kept as real * Y as real
    ensures paid < Claim(l + 1, units, Y)
  {
    var x, y, n, m, k := X as real, Y as real, units as real, (l + 1) as real, kept as real;
    ProductAsReal(kept, units);
    ProductAsReal(l + 1, X);
    var c := m * y / n;
    QuotientScales(m * y, n);
    PaidBelow(x, y, n, m, k, c, paid);
  }

  lemma PaidBelow(x: real, y: real, n: real, m: real, k: real, c: real, paid: real)
    requires 0.0 < x && 0.0 < y && 0.0 < n && k * n < m * x && x * paid <= k * y && n * c == m * y
    ensures paid < c
  {
    if c <= paid {
      StrictScale(x, 0.0, n);
      ScaleMonotone(x * n, c, paid);
      assert (x * n) * c == x * (m * y);
      ScaleMonotone(n, x * paid, k * y);
      StrictScale(y, k * n, m * x);
      assert false;
    }
  }

  /**
   What an unbalanced add earns. `s` of a deposit of `x` into depth `X` counts as swapped; `low` is what the other asset
   would come to by swapping `s`, and `high` by swapping 3/2 more. The newcomer's claims are at most what was kept and
   below `high` plus 3/2 at the final ratio; with one unit more they would exceed what was kept and `low`. No holder's
   claim on the asset brought in excess falls.
   */
  lemma HeavyClaims(u: nat, P: nat, X: nat, x: nat, Y: nat, y: nat, s: nat, low: real, high: real)
    requires 0 < P && 0 < X && 0 < Y && s <= x
    requires Times((X + x) as real, low) <= Times((x - s) as real, (Y + y) as real)
    requires Times((x - s) as real - 1.5, (Y + y) as real) < Times((X + x) as real, high)
    ensures Earned(u, P, X, x, Y, y, s, CalculatePoolUnitsSymmetric(X + s, x - s, P).1, low, high)
  {
    var l := CalculatePoolUnitsSymmetric(X + s, x - s, P).1;
    SwappedSideClaims(u, P, X, x, s);
    OtherSideClaim(l, P + l, X + x, Y + y, x - s, high);
    OtherSideClaimBelow(l, P + l, X + x, Y + y, x - s, low);
  }

  lemma NoGap(X: nat, x: nat, Y: nat, y: nat, s: nat, g: real)
    requires s <= x && Gap(X as real, x as real, Y as real, y as real, s as real, g) <= 0.0
    ensures Times((X + x) as real, y as real + g) <= Times((x - s) as real, (Y + y) as real)
  {
    assert (x - s) as real == x as real - s as real && (X + x) as real == x as real + X as real;
    assert (Y + y) as real == y as real + Y as real;
  }

  lemma GapLeft(X: nat, x: nat, Y: nat, y: nat, s: nat, g: real)
    requires s <= x && 0.0 < Gap(X as real, x as real, Y as real, y as real, s as real + 1.5, g)
    ensures Times((x - s) as real - 1.5, (Y + y) as real) < Times((X + x) as real, y as real + g)
  {
    assert (x - s) as real - 1.5 == x as real - (s as real + 1.5) && (X + x) as real == x as real + X as real;
    assert (Y + y) as real == y as real + Y as real;
  }

  ghost predicate Earned(u: nat, P: nat, X: nat, x: nat, Y: nat, y: nat, s: nat, l: nat, low: real, high: real)
    requires 0 < P && 0 < X && s <= x
  {
    && Claim(l, P + l, X + x) <= (x - s) as real < Claim(l + 1, P + l, X + x)
    && Claim(u, P, X) <= Claim(u, P + l, X + x)
    && low < Claim(l + 1, P + l, Y + y)
    && Claim(l, P + l, Y + y) < high + 1.5 * ((Y + y) as real / (X + x) as real)
  }

  /** An external-heavy add is worth an ordinary swap of what it counts as swapped, no less and no more. */
  lemma ExternalAddIsWorthASwap(u: nat, P: nat, R: nat, A: nat, r: nat, a: nat, sellFee: real, buyFee: real, p: real)
    requires BothFeesValid(sellFee, buyFee, p) && 0 < P && 0 < R && 0 < A && r * A < R * a
    ensures var res := CalculatePoolUnits(P, R, A, r, a, sellFee, buyFee, p);
      && res.Issued? && res.status == BuyNative && res.swapAmount <= a && res.poolUnits == P + res.lpUnits
      && var s := res.swapAmount as real;
         Earned(u, P, A, a, R, r, res.swapAmount, res.lpUnits,
                r as real + ExternalProceeds(R as real, A as real, s, buyFee, p),
                r as real + ExternalProceeds(R as real, A as real, s + 1.5, buyFee, p))
  {
    ExternalHeavyAdd(P, R, A, r, a, sellFee, buyFee, p);
    var s := ExternalSwapAmount(R, A, r, a, buyFee, p);
    ExternalBracket(R, A, r, a, buyFee, p);
    var low := ExternalProceeds(R as real, A as real, s as real, buyFee, p);
    var high := ExternalProceeds(R as real, A as real, s as real + 1.5, buyFee, p);
    ExternalLow(R, A, r, a, buyFee, p, s, low);
    ExternalHigh(R, A, r, a, buyFee, p, s, high);
    HeavyClaims(u, P, A, a, R, r, s, r as real + low, r as real + high);
  }

  lemma ExternalBracket(R: nat, A: nat, r: nat, a: nat, f: real, p: real)
    requires 0 < R && 0 < A && r * A < R * a && 0.0 <= f <= 1.0 && 0.0 <= p
    ensures var s := ExternalSwapAmount(R, A, r, a, f, p);
      && s <= a
      && ExternalGap(R as real, A as real, r as real, a as real, f, p, s as real) <= 0.0
      && 0.0 < ExternalGap(R as real, A as real, r as real, a as real, f, p, s as real + 1.5)
  {
    FactorsPositive(R, a);
    ExternalSwapAmountCorrect(R, A, r, a, f, p);
  }

  lemma ExternalHeavyAdd(P: nat, R: nat, A: nat, r: nat, a: nat, sellFee: real, buyFee: real, p: real)
    requires BothFeesValid(sellFee, buyFee, p) && 0 < P && 0 < R && 0 < A && r * A < R * a
    ensures var s := ExternalSwapAmount(R, A, r, a, buyFee, p);
      s <= a && CalculatePoolUnits(P, R, A, r, a, sellFee, buyFee, p)
                == (var (units, l) := CalculatePoolUnitsSymmetric(A + s, a - s, P); Issued(units, l, BuyNative, s))
  {
    FactorsPositive(R, a);
    SymmetryStateByCrossProduct(A, a, R, r);
    ExternalSwapAmountCorrect(R, A, r, a, buyFee, p);
  }

  lemma ExternalLow(R: nat, A: nat, r: nat, a: nat, f: real, p: real, s: nat, low: real)
    requires 0 < R && 0 < A && s <= a && 0.0 <= p && low == ExternalProceeds(R as real, A as real, s as real, f, p)
    requires ExternalGap(R as real, A as real, r as real, a as real, f, p, s as real) <= 0.0
    ensures Times((A + a) as real, r as real + low) <= Times((a - s) as real, (R + r) as real)
  {
    NoGap(A, a, R, r, s, low);
  }

  lemma ExternalHigh(R: nat, A: nat, r: nat, a: nat, f: real, p: real, s: nat, high: real)
    requires 0 < R && 0 < A && s <= a && 0.0 <= p
    requires high == ExternalProceeds(R as real, A as real, s as real + 1.5, f, p)
    requires 0.0 < ExternalGap(R as real, A as real, r as real, a as real, f, p, s as real + 1.5)
    ensures Times((a - s) as real - 1.5, (R + r) as real) < Times((A + a) as real, r as real + high)
  {
    GapLeft(A, a, R, r, s, high);
  }

  /** The same for a native-heavy add. */
  lemma NativeAddIsWorthASwap(u: nat, P: nat, R: nat, A: nat, r: nat, a: nat, sellFee: real, buyFee: real, p: real)
    requires BothFeesValid(sellFee, buyFee, p) && 0 < P && 0 < R && 0 < A && R * a < r * A
    ensures var res := CalculatePoolUnits(P, R, A, r, a, sellFee, buyFee, p);
      && res.Issued? && res.status == SellNative && res.swapAmount <= r && res.poolUnits == P + res.lpUnits
      && var s := res.swapAmount as real;
         Earned(u, P, R, r, A, a, res.swapAmount, res.lpUnits,
                a as real + NativeProceeds(R as real, A as real, s, sellFee, p),
                a as real + NativeProceeds(R as real, A as real, s + 1.5, sellFee, p))
  {
    NativeHeavyAdd(P, R, A, r, a, sellFee, buyFee, p);
    var s := NativeSwapAmount(R, A, r, a, sellFee, p);
    NativeBracket(R, A, r, a, sellFee, p);
    var low := NativeProceeds(R as real, A as real, s as real, sellFee, p);
    var high := NativeProceeds(R as real, A as real, s as real + 1.5, sellFee, p);
    NativeLow(R, A, r, a, sellFee, p, s, low);
    NativeHigh(R, A, r, a, sellFee, p, s, high);
    HeavyClaims(u, P, R, r, A, a, s, a as real + low, a as real + high);
  }

  lemma NativeBracket(R: nat, A: nat, r: nat, a: nat, f: real, p: real)
    requires 0 < R && 0 < A && R * a < r * A && 0.0 <= f <= 1.0 && 0.0 <= p
    ensures var s := NativeSwapAmount(R, A, r, a, f, p);
      && s <= r
      && NativeGap(R as real, A as real, r as real, a as real, f, p, s as real) <= 0.0
      && 0.0 < NativeGap(R as real, A as real, r as real, a as real, f, p, s as real + 1.5)
  {
    FactorsPositive(r, A);
    NativeSwapAmountCorrect(R, A, r, a, f, p);
  }

  lemma NativeHeavyAdd(P: nat, R: nat, A: nat, r: nat, a: nat, sellFee: real, buyFee: real, p: real)
    requires BothFeesValid(sellFee, buyFee, p) && 0 < P && 0 < R && 0 < A && R * a < r * A
    ensures var s := NativeSwapAmount(R, A, r, a, sellFee, p);
      s <= r && CalculatePoolUnits(P, R, A, r, a, sellFee, buyFee, p)
                == (var (units, l) := CalculatePoolUnitsSymmetric(R + s, r - s, P); Issued(units, l, SellNative, s))
  {
    FactorsPositive(r, A);
    SymmetryStateByCrossProduct(A, a, R, r);
    NativeSwapAmountCorrect(R, A, r, a, sellFee, p);
  }

  lemma NativeLow(R: nat, A: nat, r: nat, a: nat, f: real, p: real, s: nat, low: real)
    requires 0 < R && 0 < A && s <= r && 0.0 <= p && low == NativeProceeds(R as real, A as real, s as real, f, p)
    requires NativeGap(R as real, A as real, r as real, a as real, f, p, s as real) <= 0.0
    ensures Times((R + r) as real, a as real + low) <= Times((r - s) as real, (A + a) as real)
  {
    NoGap(R, r, A, a, s, low);
  }

  lemma NativeHigh(R: nat, A: nat, r: nat, a: nat, f: real, p: real, s: nat, high: real)
    requires 0 < R && 0 < A && s <= r && 0.0 <= p && high == NativeProceeds(R as real, A as real, s as real + 1.5, f, p)
    requires 0.0 < NativeGap(R as real, A as real, r as real, a as real, f, p, s as real + 1.5)
    ensures Times((r - s) as real - 1.5, (A + a) as real) < Times((R + r) as real, a as real + high)
  {
    GapLeft(R, r, A, a, s, high);
  }
}
