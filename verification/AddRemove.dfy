/**
 The law that unit issuing is documented to obey: adding liquidity and removing it again is no better than keeping the
 coins, and no better than a swap. Rounding bends it by dust, and how far is stated exactly.
 */
module AddRemove {
  import opened Rational
  import opened Decimal
  import opened AsymmetricAdd
  import opened PoolUnits
  import opened Withdrawal

  // ---------------------------------------------------------------- what the added units pay back

  lemma CancelUnits(paid: int, kept: int, slack: int, P: nat)
    requires 0 < P && paid * P <= kept * P + P * slack
    ensures paid <= kept + slack
  {
    assert P * (kept + slack) == kept * P + P * slack;
    CancelFactor(P, paid, kept + slack);
  }

  lemma KeptBounds(paid: nat, owed: nat, kept: nat, slack: nat, P: nat, one: nat)
    requires 0 < P && owed <= kept * P && Near(paid * P, owed * one, P * slack)
    ensures paid <= kept * one + slack
  {
    ProductMonotone(one, owed, kept * P);
    assert kept * P * one == kept * one * P;
    CancelUnits(paid, kept * one, slack, P);
  }

  /** Units worth at most `kept` of a depth pay back at most that, half a token, and `depth + 2` parts in 10^18. */
  lemma PaysAtMostKept(depth: nat, P: nat, l: nat, kept: nat)
    requires 1 <= l <= P && l * depth <= kept * P
    ensures 0 < Quo(FromInt(P), FromInt(l))
    ensures RoundInt(Share(depth, P, FromInt(l))) * ONE <= kept * ONE + HALF + depth + 2
  {
    RoundedShare(depth, P, l);
    KeptBounds(RoundInt(Share(depth, P, FromInt(l))) * ONE, l * depth, kept, HALF + depth + 2, P, ONE);
  }

  // ---------------------------------------------------------------- when more is paid back than was kept

  /** The least value that two roundings in a row, each from 18 more digits, carry above `kept`. */
  function Excess(kept: nat): nat {
    RoundsAbove(RoundsAbove(kept) - 1)
  }

  /** The pool's units over the removed ones, as the withdrawal rounds them. */
  function UnitsQuotient(P: nat, l: nat): nat
    requires 0 < l
  {
    Quo(FromInt(P), FromInt(l))
  }

  /**
   More than `kept` is paid exactly when the rounded quotient lies at or below `depth / (kept + 1/2)`, up to the ties.
   */
  lemma PaysMoreIff(depth: nat, P: nat, l: nat, kept: nat)
    requires 1 <= l <= P
    ensures 0 < UnitsQuotient(P, l)
    ensures kept < RoundInt(Share(depth, P, FromInt(l)))
        <==> Excess(kept) * UnitsQuotient(P, l) <= FromInt(depth) * ONE * ONE
  {
    ShareWithinDepth(depth, P, FromInt(l));
    ChopAboveIff(Share(depth, P, FromInt(l)), kept);
    QuoAboveIff(FromInt(depth), UnitsQuotient(P, l), RoundsAbove(kept) - 1);
  }

  /** The quotient was exact or rounded up. */
  predicate NotRoundedDown(P: nat, l: nat)
    requires 0 < l
  {
    P * ONE <= UnitsQuotient(P, l) * l
  }

  /** Then units worth at most `kept` pay back at most that, whatever the depth. */
  lemma NoExcessUnlessRoundedDown(depth: nat, P: nat, l: nat, kept: nat)
    requires 1 <= l <= P && l * depth <= kept * P && NotRoundedDown(P, l)
    ensures 0 < UnitsQuotient(P, l)
    ensures RoundInt(Share(depth, P, FromInt(l))) <= kept
  {
    PaysMoreIff(depth, P, l, kept);
    ExcessOutOfReach(depth, P, l, kept, UnitsQuotient(P, l));
  }

  lemma ExcessOutOfReach(depth: nat, P: nat, l: nat, kept: nat, q: nat)
    requires 1 <= l && l * depth <= kept * P && P * ONE <= q * l && 0 < q
    ensures depth * ONE * ONE * ONE < Excess(kept) * q
  {
    var K := ONE * ONE;
    ProductMonotone(kept, P * ONE, q * l);
    ScaledOrder(l, depth, kept, P, q);
    CancelFactor(l, depth * ONE, kept * q);
    assert depth * ONE * ONE * ONE <= (kept * q) * K;
    assert kept * K + 1 <= Excess(kept);
    ProductMonotone(q, kept * K + 1, Excess(kept));
    assert q * (kept * K + 1) == (kept * q) * K + q;
  }

  lemma ScaledOrder(l: nat, depth: nat, kept: nat, P: nat, q: nat)
    requires l * depth <= kept * P && kept * (P * ONE) <= kept * (q * l)
    ensures l * (depth * ONE) <= l * (kept * q)
  {
    assert l * (depth * ONE) == (l * depth) * ONE && kept * (P * ONE) == (kept * P) * ONE;
    assert kept * (q * l) == l * (kept * q);
  }

  // ---------------------------------------------------------------- payment and claim

  /** The rounding of a withdrawal by units: half a token and `depth + 2` parts in 10^18. */
  function Rounding(depth: nat): real {
    0.5 + (depth + 2) as real / ONE as real
  }

  /** What is paid back differs from the exact claim by the rounding alone. */
  lemma PaysNearClaim(depth: nat, P: nat, l: nat)
    requires 1 <= l <= P
    ensures 0 < UnitsQuotient(P, l)
    ensures var paid := RoundInt(Share(depth, P, FromInt(l))) as real;
      Claim(l, P, depth) - Rounding(depth) <= paid <= Claim(l, P, depth) + Rounding(depth)
  {
    RoundedShare(depth, P, l);
    NearClaim(RoundInt(Share(depth, P, FromInt(l))), P, l, depth);
  }

  lemma NearClaim(paid: nat, P: nat, l: nat, depth: nat)
    requires 0 < P && Near(paid * ONE * P, l * depth * ONE, P * (HALF + depth + 2))
    ensures Claim(l, P, depth) - Rounding(depth) <= paid as real <= Claim(l, P, depth) + Rounding(depth)
  {
    var n, p, k := l as real * depth as real, P as real, ONE as real;
    QuotientScales(n, p);
    QuotientScales((depth + 2) as real, k);
    InReals(paid, P, l, depth);
    ScaledBound(paid as real, p, k, n / p, (depth + 2) as real / k, n);
  }

  lemma InReals(paid: nat, P: nat, l: nat, depth: nat)
    requires Near(paid * ONE * P, l * depth * ONE, P * (HALF + depth + 2))
    ensures var slack := P as real * (0.5 * ONE as real + (depth + 2) as real);
      ONE as real * (l as real * depth as real) - slack
      <= P as real * ONE as real * paid as real
      <= ONE as real * (l as real * depth as real) + slack
  {
    ProductAsReal(paid, P);
    ProductAsReal(l, depth);
    ProductAsReal(P, HALF + depth + 2);
    assert paid * ONE * P == ONE * (paid * P) && l * depth * ONE == ONE * (l * depth);
  }

  lemma ScaledBound(paid: real, p: real, k: real, c: real, e: real, n: real)
    requires 0.0 < p && 0.0 < k && p * c == n
    requires k * n - p * (0.5 * k + k * e) <= p * k * paid <= k * n + p * (0.5 * k + k * e)
    ensures c - (0.5 + e) <= paid <= c + (0.5 + e)
  {
    assert k * n + p * (0.5 * k + k * e) == (p * k) * (c + (0.5 + e));
    assert k * n - p * (0.5 * k + k * e) == (p * k) * (c - (0.5 + e));
    StrictScale(p, 0.0, k);
    CancelReal(p * k, paid, c + (0.5 + e));
    CancelReal(p * k, c - (0.5 + e), paid);
  }

  // ---------------------------------------------------------------- add, then remove what was issued

  /** The units a provider with `held` units gets for an add, all removed again at once. */
  function Returned(R: nat, A: nat, r: nat, a: nat, held: nat, units: UnitsResult): Withdrawn
    requires units.Issued?
  {
    CalculateWithdrawalFromUnits(units.poolUnits, R + r, A + a, held + units.lpUnits, units.lpUnits)
  }

  /** What was issued is worth at most what was kept of each asset that the add did not fall short of. */
  lemma IssuedWithinKept(P: nat, R: nat, A: nat, r: nat, a: nat, sellFee: real, buyFee: real, p: real)
    requires BothFeesValid(sellFee, buyFee, p) && 0 < P && 0 < R && 0 < A && (r != 0 || a != 0)
    ensures var res := CalculatePoolUnits(P, R, A, r, a, sellFee, buyFee, p);
      && res.Issued? && res.poolUnits == P + res.lpUnits
      && (R * a <= r * A ==> res.swapAmount <= r && res.lpUnits * (R + r) <= (r - res.swapAmount) * res.poolUnits)
      && (r * A <= R * a ==> res.swapAmount <= a && res.lpUnits * (A + a) <= (a - res.swapAmount) * res.poolUnits)
  {
    SymmetryStateByCrossProduct(A, a, R, r);
    if R * a == r * A {
      SymmetricKept(P, R, A, r, a);
    } else if R * a < r * A {
      NativeHeavyAdd(P, R, A, r, a, sellFee, buyFee, p);
      SwappedSideClaims(0, P, R, r, NativeSwapAmount(R, A, r, a, sellFee, p));
    } else {
      ExternalHeavyAdd(P, R, A, r, a, sellFee, buyFee, p);
      SwappedSideClaims(0, P, A, a, ExternalSwapAmount(R, A, r, a, buyFee, p));
    }
  }

  lemma SymmetricKept(P: nat, R: nat, A: nat, r: nat, a: nat)
    requires 0 < P && 0 < R && 0 < A && R * a == r * A
    ensures var l := CalculatePoolUnitsSymmetric(R, r, P).1;
      l * (R + r) <= r * (P + l) && l * (A + a) <= a * (P + l)
  {
    var l := CalculatePoolUnitsSymmetric(R, r, P).1;
    IssuedWithinDeposit(R, r, P);
    SameRatioShare(l, P, R, A, r, a);
    assert l * (R + r) == l * R + r * l && r * (P + l) == r * P + r * l;
    assert l * (A + a) == l * A + a * l && a * (P + l) == a * P + a * l;
  }

  /**
   Adding and removing again pays back, of each asset the add did not fall short of, at most what was not swapped, half
   a token, and `depth + 2` parts in 10^18.
   */
  lemma AddThenRemoveReturnsKept(P: nat, R: nat, A: nat, r: nat, a: nat, held: nat, sellFee: real, buyFee: real,
                                 p: real)
    requires BothFeesValid(sellFee, buyFee, p) && 0 < P && 0 < R && 0 < A && (r != 0 || a != 0) && held <= P
    requires 0 < CalculatePoolUnits(P, R, A, r, a, sellFee, buyFee, p).lpUnits
    ensures var res := CalculatePoolUnits(P, R, A, r, a, sellFee, buyFee, p);
      var out := Returned(R, A, r, a, held, res);
      && out.Withdrawn?
      && (R * a <= r * A ==> out.native * ONE <= (r - res.swapAmount) * ONE + HALF + (R + r) + 2)
      && (r * A <= R * a ==> out.external * ONE <= (a - res.swapAmount) * ONE + HALF + (A + a) + 2)
  {
    var res := CalculatePoolUnits(P, R, A, r, a, sellFee, buyFee, p);
    IssuedWithinKept(P, R, A, r, a, sellFee, buyFee, p);
    UnitsWithdrawalSafe(res.poolUnits, R + r, A + a, held + res.lpUnits, res.lpUnits);
    if R * a <= r * A { PaysAtMostKept(R + r, res.poolUnits, res.lpUnits, r - res.swapAmount); }
    if r * A <= R * a { PaysAtMostKept(A + a, res.poolUnits, res.lpUnits, a - res.swapAmount); }
  }

  ghost predicate MoreOfBoth(out: Withdrawn, r: nat, a: nat) {
    out.Withdrawn? && out.native > r && out.external > a
  }

  /**
   The documented law is that one never gets more of both assets back than one put in. For every add that earned units,
   it is broken exactly when the rounded quotient of the units is small enough for both depths.
   */
  lemma MoreOfBothIff(P: nat, R: nat, A: nat, r: nat, a: nat, held: nat, sellFee: real, buyFee: real, p: real)
    requires BothFeesValid(sellFee, buyFee, p) && 0 < P && 0 < R && 0 < A && (r != 0 || a != 0) && held <= P
    requires 0 < CalculatePoolUnits(P, R, A, r, a, sellFee, buyFee, p).lpUnits
    ensures var res := CalculatePoolUnits(P, R, A, r, a, sellFee, buyFee, p);
      var q := UnitsQuotient(res.poolUnits, res.lpUnits);
      MoreOfBoth(Returned(R, A, r, a, held, res), r, a)
      <==> Excess(r) * q <= FromInt(R + r) * ONE * ONE && Excess(a) * q <= FromInt(A + a) * ONE * ONE
  {
    var res := CalculatePoolUnits(P, R, A, r, a, sellFee, buyFee, p);
    IssuedWithinKept(P, R, A, r, a, sellFee, buyFee, p);
    PaysMoreIff(R + r, res.poolUnits, res.lpUnits, r);
    PaysMoreIff(A + a, res.poolUnits, res.lpUnits, a);
  }

  lemma KeptUnlessRoundedDown(R: nat, A: nat, r: nat, a: nat, held: nat, res: UnitsResult)
    requires res.Issued? && 1 <= res.lpUnits && held + res.lpUnits <= res.poolUnits
    requires NotRoundedDown(res.poolUnits, res.lpUnits)
    ensures var out := Returned(R, A, r, a, held, res);
      && out.Withdrawn?
      && (res.swapAmount <= r && res.lpUnits * (R + r) <= (r - res.swapAmount) * res.poolUnits
          ==> out.native <= r - res.swapAmount)
      && (res.swapAmount <= a && res.lpUnits * (A + a) <= (a - res.swapAmount) * res.poolUnits
          ==> out.external <= a - res.swapAmount)
  {
    UnitsWithdrawalSafe(res.poolUnits, R + r, A + a, held + res.lpUnits, res.lpUnits);
    if res.swapAmount <= r && res.lpUnits * (R + r) <= (r - res.swapAmount) * res.poolUnits {
      NoExcessUnlessRoundedDown(R + r, res.poolUnits, res.lpUnits, r - res.swapAmount);
    }
    if res.swapAmount <= a && res.lpUnits * (A + a) <= (a - res.swapAmount) * res.poolUnits {
      NoExcessUnlessRoundedDown(A + a, res.poolUnits, res.lpUnits, a - res.swapAmount);
    }
  }

  /**
   So the law holds at every depth when that quotient was not rounded down, and then nobody gets back more than was
   not swapped; and, however it was rounded, while the depth of the asset brought in excess stays below half of 10^18,
   plus 10^18 for every token swapped.
   */
  lemma NeverMoreOfBoth(P: nat, R: nat, A: nat, r: nat, a: nat, held: nat, sellFee: real, buyFee: real, p: real)
    requires BothFeesValid(sellFee, buyFee, p) && 0 < P && 0 < R && 0 < A && (r != 0 || a != 0) && held <= P
    requires 0 < CalculatePoolUnits(P, R, A, r, a, sellFee, buyFee, p).lpUnits
    ensures var res := CalculatePoolUnits(P, R, A, r, a, sellFee, buyFee, p);
      var out := Returned(R, A, r, a, held, res);
      NotRoundedDown(res.poolUnits, res.lpUnits) ==>
        && out.Withdrawn? && !MoreOfBoth(out, r, a)
        && (R * a <= r * A ==> out.native <= r - res.swapAmount)
        && (r * A <= R * a ==> out.external <= a - res.swapAmount)
    ensures var res := CalculatePoolUnits(P, R, A, r, a, sellFee, buyFee, p);
      (if R * a <= r * A then R + r else A + a) + 2 < HALF + res.swapAmount * ONE
      ==> !MoreOfBoth(Returned(R, A, r, a, held, res), r, a)
  {
    var res := CalculatePoolUnits(P, R, A, r, a, sellFee, buyFee, p);
    IssuedWithinKept(P, R, A, r, a, sellFee, buyFee, p);
    AddThenRemoveReturnsKept(P, R, A, r, a, held, sellFee, buyFee, p);
    if NotRoundedDown(res.poolUnits, res.lpUnits) { KeptUnlessRoundedDown(R, A, r, a, held, res); }
  }

  /**
   Rounded down, the roundings can add up: eight tokens of 18 decimals on each side, six added, and one unit more of
   each back.
   */
  lemma DustCanBeGained(sellFee: real, buyFee: real, p: real)
    requires BothFeesValid(sellFee, buyFee, p)
    ensures var R, r := 8 * ONE, 6 * ONE;
      var res := CalculatePoolUnits(R, R, R, r, r, sellFee, buyFee, p);
      res.Issued? && Returned(R, R, r, r, 0, res) == Withdrawn(r + 1, r + 1, 0)
  {
    var R, r := 8 * ONE, 6 * ONE;
    SymmetryStateByCrossProduct(R, r, R, r);
    assert CalculatePoolUnits(R, R, R, r, r, sellFee, buyFee, p) == Issued(14 * ONE, r, NoSwap, 0);
    assert Quo(FromInt(14 * ONE), FromInt(r)) == 2_333_333_333_333_333_333;
  }

  /**
   Paid back `heavy` of the asset brought in excess and `other` of the one that fell short: what was not swapped, and
   what swapping would have paid, to within the worth of one unit from below, and the rounding of the withdrawal. `low`
   and `high` are the other asset after swapping `s`, and 3/2 more.
   */
  ghost predicate Worth(heavy: nat, other: nat, units: nat, X: nat, x: nat, Y: nat, y: nat, s: nat, low: real,
                        high: real)
    requires 0 < units && 0 < X && s <= x
  {
    && (x - s) as real - (X + x) as real / units as real - Rounding(X + x) < heavy as real
    && heavy as real <= (x - s) as real + Rounding(X + x)
    && low - (Y + y) as real / units as real - Rounding(Y + y) < other as real
    && other as real < high + 1.5 * ((Y + y) as real / (X + x) as real) + Rounding(Y + y)
  }

  lemma ClaimOneMore(l: nat, units: nat, depth: nat)
    requires 0 < units
    ensures Claim(l + 1, units, depth) == Claim(l, units, depth) + depth as real / units as real
  {
    var n, d := units as real, depth as real;
    assert (l + 1) as real * d == l as real * d + d;
    QuotientScales(l as real * d, n);
    QuotientScales(d, n);
    QuotientScales((l + 1) as real * d, n);
    SameQuotient(n, (l + 1) as real * d / n, l as real * d / n + d / n);
  }

  lemma SameQuotient(n: real, x: real, y: real)
    requires 0.0 < n && n * x == n * y
    ensures x == y
  {
    CancelReal(n, x, y);
    CancelReal(n, y, x);
  }

  /** Units that earned a swap's worth pay it back. */
  lemma EarnedIsWorth(P: nat, X: nat, x: nat, Y: nat, y: nat, s: nat, l: nat, low: real, high: real)
    requires 0 < P && 0 < X && s <= x && 1 <= l && Earned(0, P, X, x, Y, y, s, l, low, high)
    ensures 0 < UnitsQuotient(P + l, l)
    ensures Worth(RoundInt(Share(X + x, P + l, FromInt(l))), RoundInt(Share(Y + y, P + l, FromInt(l))),
                  P + l, X, x, Y, y, s, low, high)
  {
    PaysNearClaim(X + x, P + l, l);
    PaysNearClaim(Y + y, P + l, l);
    ClaimOneMore(l, P + l, X + x);
    ClaimOneMore(l, P + l, Y + y);
  }

  /**
   The equivalence with swapping: adding and removing again gives what keeping the coins and swapping the same amount
   would have, from both sides. First for an add with too much native.
   */
  lemma NativeAddThenRemoveIsASwap(P: nat, R: nat, A: nat, r: nat, a: nat, held: nat, sellFee: real, buyFee: real,
                                   p: real)
    requires BothFeesValid(sellFee, buyFee, p) && 0 < P && 0 < R && 0 < A && R * a < r * A && held <= P
    requires 0 < CalculatePoolUnits(P, R, A, r, a, sellFee, buyFee, p).lpUnits
    ensures var res := CalculatePoolUnits(P, R, A, r, a, sellFee, buyFee, p);
      var out, s := Returned(R, A, r, a, held, res), res.swapAmount as real;
      && out.Withdrawn? && 0 < res.poolUnits && res.swapAmount <= r
      && Worth(out.native, out.external, res.poolUnits, R, r, A, a, res.swapAmount,
               a as real + NativeProceeds(R as real, A as real, s, sellFee, p),
               a as real + NativeProceeds(R as real, A as real, s + 1.5, sellFee, p))
  {
    var res := CalculatePoolUnits(P, R, A, r, a, sellFee, buyFee, p);
    NativeAddIsWorthASwap(0, P, R, A, r, a, sellFee, buyFee, p);
    var s := res.swapAmount as real;
    EarnedIsWorth(P, R, r, A, a, res.swapAmount, res.lpUnits,
                  a as real + NativeProceeds(R as real, A as real, s, sellFee, p),
                  a as real + NativeProceeds(R as real, A as real, s + 1.5, sellFee, p));
  }

  /** And for an add with too much external. */
  lemma ExternalAddThenRemoveIsASwap(P: nat, R: nat, A: nat, r: nat, a: nat, held: nat, sellFee: real, buyFee: real,
                                     p: real)
    requires BothFeesValid(sellFee, buyFee, p) && 0 < P && 0 < R && 0 < A && r * A < R * a && held <= P
    requires 0 < CalculatePoolUnits(P, R, A, r, a, sellFee, buyFee, p).lpUnits
    ensures var res := CalculatePoolUnits(P, R, A, r, a, sellFee, buyFee, p);
      var out, s := Returned(R, A, r, a, held, res), res.swapAmount as real;
      && out.Withdrawn? && 0 < res.poolUnits && res.swapAmount <= a
      && Worth(out.external, out.native, res.poolUnits, A, a, R, r, res.swapAmount,
               r as real + ExternalProceeds(R as real, A as real, s, buyFee, p),
               r as real + ExternalProceeds(R as real, A as real, s + 1.5, buyFee, p))
  {
    var res := CalculatePoolUnits(P, R, A, r, a, sellFee, buyFee, p);
    ExternalAddIsWorthASwap(0, P, R, A, r, a, sellFee, buyFee, p);
    var s := res.swapAmount as real;
    EarnedIsWorth(P, A, a, R, r, res.swapAmount, res.lpUnits,
                  r as real + ExternalProceeds(R as real, A as real, s, buyFee, p),
                  r as real + ExternalProceeds(R as real, A as real, s + 1.5, buyFee, p));
  }
}
