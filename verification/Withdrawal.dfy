/** How much a liquidity provider receives for burning units, by basis points or by a number of units. */
module Withdrawal {
  import opened Decimal

  const MAX_W_BASIS: nat := 10_000

  datatype Withdrawn =
    | Withdrawn(native: nat, external: nat, unitsLeft: nat)
    | Panic // a division by zero, which aborts the transaction

  /** The units claimed by `w` basis points, as a decimal: `lpUnits / (10000 / w)`. */
  function UnitsToClaim(lpUnits: nat, w: nat): nat
    requires 1 <= w <= MAX_W_BASIS
  {
    QuoAtLeastOne(FromInt(MAX_W_BASIS), FromInt(w));
    Quo(FromInt(lpUnits), Quo(FromInt(MAX_W_BASIS), FromInt(w)))
  }

  /** `depth / (poolUnits / units)`, the source's order of operations. */
  function Share(depth: nat, poolUnits: nat, units: nat): nat
    requires 0 < units && 0 < Quo(FromInt(poolUnits), units)
  {
    Quo(FromInt(depth), Quo(FromInt(poolUnits), units))
  }

  /** `CalculateWithdrawal` for a symmetric removal, the only kind the message handler accepts. */
  function CalculateWithdrawal(poolUnits: nat, nativeDepth: nat, externalDepth: nat, lpUnits: nat,
                               w: nat): (res: Withdrawn)
    requires 1 <= w <= MAX_W_BASIS
  {
    var unitsToClaim := UnitsToClaim(lpUnits, w);
    ClaimWithinUnits(lpUnits, w);
    if unitsToClaim == 0 || Quo(FromInt(poolUnits), unitsToClaim) == 0 then Panic
    else
      Withdrawn(
        TruncateInt(Share(nativeDepth, poolUnits, unitsToClaim)),
        TruncateInt(Share(externalDepth, poolUnits, unitsToClaim)),
        TruncateInt(FromInt(lpUnits) - unitsToClaim))
  }

  /** `CalculateWithdrawalFromUnits`. The caller has checked `withdrawUnits` against the provider's units. */
  function CalculateWithdrawalFromUnits(poolUnits: nat, nativeDepth: nat, externalDepth: nat, lpUnits: nat,
                                        withdrawUnits: nat): (res: Withdrawn)
    requires withdrawUnits <= lpUnits
  {
    if withdrawUnits == 0 || Quo(FromInt(poolUnits), FromInt(withdrawUnits)) == 0 then Panic
    else
      Withdrawn(
        RoundInt(Share(nativeDepth, poolUnits, FromInt(withdrawUnits))),
        RoundInt(Share(externalDepth, poolUnits, FromInt(withdrawUnits))),
        RoundInt(FromInt(lpUnits) - FromInt(withdrawUnits)))
  }

  lemma ClaimWithinUnits(lpUnits: nat, w: nat)
    requires 1 <= w <= MAX_W_BASIS
    ensures UnitsToClaim(lpUnits, w) <= FromInt(lpUnits)
    ensures UnitsToClaim(lpUnits, MAX_W_BASIS) == FromInt(lpUnits)
  {
    QuoAtLeastOne(FromInt(MAX_W_BASIS), FromInt(w));
    QuoAtMost(FromInt(lpUnits), Quo(FromInt(MAX_W_BASIS), FromInt(w)));
    QuoBySelf(FromInt(MAX_W_BASIS));
    QuoByOne(FromInt(lpUnits));
  }

  lemma UnitsLeftExact(lpUnits: nat, withdrawUnits: nat)
    requires withdrawUnits <= lpUnits
    ensures RoundInt(FromInt(lpUnits) - FromInt(withdrawUnits)) == lpUnits - withdrawUnits
  {
    assert FromInt(lpUnits) - FromInt(withdrawUnits) == (lpUnits - withdrawUnits) * ONE;
    ChopExact(lpUnits - withdrawUnits);
  }

  lemma ClaimMonotone(lpUnits: nat, v: nat, w: nat)
    requires 1 <= v <= w <= MAX_W_BASIS
    ensures UnitsToClaim(lpUnits, v) <= UnitsToClaim(lpUnits, w)
  {
    QuoAtLeastOne(FromInt(MAX_W_BASIS), FromInt(w));
    QuoAntitone(FromInt(MAX_W_BASIS), FromInt(v), FromInt(w));
    QuoAntitone(FromInt(lpUnits), Quo(FromInt(MAX_W_BASIS), FromInt(w)), Quo(FromInt(MAX_W_BASIS), FromInt(v)));
  }

  /** The smallest request, one basis point of one unit, still claims something. */
  lemma ClaimPositive(lpUnits: nat, w: nat)
    requires 1 <= w <= MAX_W_BASIS && 1 <= lpUnits
    ensures 0 < UnitsToClaim(lpUnits, w)
  {
    ClaimMonotone(lpUnits, 1, w);
    QuoByOne(FromInt(MAX_W_BASIS));
    QuoMonotone(FromInt(1), FromInt(lpUnits), FromInt(MAX_W_BASIS));
    assert Quo(FromInt(1), FromInt(MAX_W_BASIS)) == ONE / MAX_W_BASIS;
  }

  lemma ShareWithinDepth(depth: nat, poolUnits: nat, units: nat)
    requires 0 < units <= FromInt(poolUnits)
    ensures ONE <= Quo(FromInt(poolUnits), units) && Share(depth, poolUnits, units) <= FromInt(depth)
  {
    QuoAtLeastOne(FromInt(poolUnits), units);
    QuoAtMost(FromInt(depth), Quo(FromInt(poolUnits), units));
  }

  lemma ShareMonotone(depth: nat, poolUnits: nat, u: nat, v: nat)
    requires 0 < u <= v <= FromInt(poolUnits)
    ensures ONE <= Quo(FromInt(poolUnits), v) && ONE <= Quo(FromInt(poolUnits), u)
    ensures Share(depth, poolUnits, u) <= Share(depth, poolUnits, v)
  {
    QuoAtLeastOne(FromInt(poolUnits), u);
    QuoAtLeastOne(FromInt(poolUnits), v);
    QuoAntitone(FromInt(poolUnits), u, v);
    QuoAntitone(FromInt(depth), Quo(FromInt(poolUnits), v), Quo(FromInt(poolUnits), u));
  }

  /**
   A basis-point withdrawal by a provider who owns part of the pool: no divisor is zero, neither payment
   exceeds the depth, the units burned are the claimed ones rounded up, and asking for everything burns everything.
   */
  lemma WithdrawalSafe(poolUnits: nat, nativeDepth: nat, externalDepth: nat, lpUnits: nat, w: nat)
    requires 1 <= w <= MAX_W_BASIS && 1 <= lpUnits <= poolUnits
    ensures var res := CalculateWithdrawal(poolUnits, nativeDepth, externalDepth, lpUnits, w);
      && res.Withdrawn?
      && res.native <= nativeDepth && res.external <= externalDepth && res.unitsLeft <= lpUnits
      && UnitsToClaim(lpUnits, w) <= FromInt(lpUnits - res.unitsLeft) < UnitsToClaim(lpUnits, w) + ONE
      && (w == MAX_W_BASIS ==> res.unitsLeft == 0)
  {
    ClaimPositive(lpUnits, w);
    ClaimWithinUnits(lpUnits, w);
    ShareWithinDepth(nativeDepth, poolUnits, UnitsToClaim(lpUnits, w));
    ShareWithinDepth(externalDepth, poolUnits, UnitsToClaim(lpUnits, w));
  }

  /** More basis points never pay less of either asset. */
  lemma WithdrawalMonotone(poolUnits: nat, nativeDepth: nat, externalDepth: nat, lpUnits: nat, v: nat, w: nat)
    requires 1 <= v <= w <= MAX_W_BASIS && 1 <= lpUnits <= poolUnits
    ensures var less := CalculateWithdrawal(poolUnits, nativeDepth, externalDepth, lpUnits, v);
      var more := CalculateWithdrawal(poolUnits, nativeDepth, externalDepth, lpUnits, w);
      && less.Withdrawn? && more.Withdrawn?
      && less.native <= more.native && less.external <= more.external && more.unitsLeft <= less.unitsLeft
  {
    WithdrawalSafe(poolUnits, nativeDepth, externalDepth, lpUnits, v);
    WithdrawalSafe(poolUnits, nativeDepth, externalDepth, lpUnits, w);
    ClaimPositive(lpUnits, v);
    ClaimWithinUnits(lpUnits, w);
    ClaimMonotone(lpUnits, v, w);
    ShareMonotone(nativeDepth, poolUnits, UnitsToClaim(lpUnits, v), UnitsToClaim(lpUnits, w));
    ShareMonotone(externalDepth, poolUnits, UnitsToClaim(lpUnits, v), UnitsToClaim(lpUnits, w));
  }

  /** The same for a withdrawal by units: payments within the depths, and exactly the requested units are burned. */
  lemma UnitsWithdrawalSafe(poolUnits: nat, nativeDepth: nat, externalDepth: nat, lpUnits: nat, withdrawUnits: nat)
    requires 1 <= withdrawUnits <= lpUnits <= poolUnits
    ensures var res := CalculateWithdrawalFromUnits(poolUnits, nativeDepth, externalDepth, lpUnits, withdrawUnits);
      && res.Withdrawn?
      && res.native <= nativeDepth && res.external <= externalDepth && res.unitsLeft == lpUnits - withdrawUnits
  {
    ShareWithinDepth(nativeDepth, poolUnits, FromInt(withdrawUnits));
    ShareWithinDepth(externalDepth, poolUnits, FromInt(withdrawUnits));
    var native := Share(nativeDepth, poolUnits, FromInt(withdrawUnits));
    var external := Share(externalDepth, poolUnits, FromInt(withdrawUnits));
    ChopMonotone(native, FromInt(nativeDepth));
    ChopMonotone(external, FromInt(externalDepth));
    ChopExact(nativeDepth);
    ChopExact(externalDepth);
    UnitsLeftExact(lpUnits, withdrawUnits);
  }

  // ---------------------------------------------------------------- what a withdrawal is worth

  lemma ErrorTerms(u: int, s: int, q: int, P: int, depth: int, e1: int, e2: int)
    requires P * (ONE * ONE) == u * q + e1 && s * q == depth * (ONE * ONE) + e2
    ensures (s * P - u * depth) * (ONE * ONE) == u * e2 + s * e1
  {
    var K := ONE * ONE;
    assert s * (P * K) == s * (u * q + e1) == u * (s * q) + s * e1;
    assert u * (s * q) == u * (depth * K) + u * e2;
  }

  lemma ErrorsWithin(u: nat, s: nat, q: nat, P: nat, depth: nat, e1: int, e2: int)
    requires Near(e1, 0, u) && Near(e2, 0, q) && u * q <= P * (ONE * ONE) + u && s <= depth * ONE && u <= P * ONE
    ensures Near(u * e2 + s * e1, 0, P * (depth + 2) * (ONE * ONE))
  {
    ProductNear(u, e2, 0, q);
    ProductNear(s, e1, 0, u);
    ProductMonotone(u, s, depth * ONE);
    ProductMonotone(depth * ONE, u, P * ONE);
    assert (depth * ONE) * (P * ONE) == P * depth * (ONE * ONE);
    assert P * (depth + 2) * (ONE * ONE) == P * depth * (ONE * ONE) + 2 * P * (ONE * ONE);
  }

  lemma CancelScale(x: int, y: int, slack: int)
    requires Near((x - y) * (ONE * ONE), 0, slack * (ONE * ONE))
    ensures Near(x, y, slack)
  {
  }

  /**
   The two chained rounded divisions pay the exact share `depth * units / poolUnits` to within `depth + 2` parts in
   10^18.
   */
  lemma ShareIsFair(depth: nat, poolUnits: nat, units: nat)
    requires 0 < units <= FromInt(poolUnits)
    ensures 0 < Quo(FromInt(poolUnits), units)
    ensures Near(Share(depth, poolUnits, units) * poolUnits, units * depth, poolUnits * (depth + 2))
  {
    ShareWithinDepth(depth, poolUnits, units);
    var q, s := Quo(FromInt(poolUnits), units), Share(depth, poolUnits, units);
    QuoAccurate(FromInt(poolUnits), units);
    QuoAccurate(FromInt(depth), q);
    var e1, e2 := poolUnits * (ONE * ONE) - units * q, s * q - depth * (ONE * ONE);
    ErrorTerms(units, s, q, poolUnits, depth, e1, e2);
    ErrorsWithin(units, s, q, poolUnits, depth, e1, e2);
    CancelScale(s * poolUnits, units * depth, poolUnits * (depth + 2));
  }

  /** Rounding a share to whole tokens. */
  lemma RoundedShare(depth: nat, poolUnits: nat, n: nat)
    requires 1 <= n <= poolUnits
    ensures 0 < Quo(FromInt(poolUnits), FromInt(n))
    ensures Near(RoundInt(Share(depth, poolUnits, FromInt(n))) * ONE * poolUnits, n * depth * ONE,
        poolUnits * (HALF + depth + 2))
  {
    ShareIsFair(depth, poolUnits, FromInt(n));
    var s := Share(depth, poolUnits, FromInt(n));
    ProductNear(poolUnits, RoundInt(s) * ONE, s, HALF);
    Regroup(RoundInt(s), s, poolUnits, n, depth);
  }

  lemma Regroup(r: int, s: int, P: int, n: int, depth: int)
    ensures P * (r * ONE) == r * ONE * P && P * s == s * P
    ensures n * ONE * depth == n * depth * ONE && P * (HALF + depth + 2) == P * HALF + P * (depth + 2)
  {
  }

  /**
   A withdrawal by units pays, of each asset, the provider's part of the depth rounded to the nearest token, give or
   take `depth + 2` parts in 10^18.
   */
  lemma UnitsWithdrawalIsFair(poolUnits: nat, nativeDepth: nat, externalDepth: nat, lpUnits: nat, n: nat)
    requires 1 <= n <= lpUnits <= poolUnits
    ensures var res := CalculateWithdrawalFromUnits(poolUnits, nativeDepth, externalDepth, lpUnits, n);
      && res.Withdrawn?
      && Near(res.native * ONE * poolUnits, n * nativeDepth * ONE, poolUnits * (HALF + nativeDepth + 2))
      && Near(res.external * ONE * poolUnits, n * externalDepth * ONE, poolUnits * (HALF + externalDepth + 2))
  {
    RoundedShare(nativeDepth, poolUnits, n);
    RoundedShare(externalDepth, poolUnits, n);
  }

  /** The units claimed are `w` ten-thousandths of the provider's, to within `lpUnits + 2` parts in 10^18. */
  lemma ClaimIsFair(lpUnits: nat, w: nat)
    requires 1 <= w <= MAX_W_BASIS
    ensures Near(UnitsToClaim(lpUnits, w) * MAX_W_BASIS, w * ONE * lpUnits, MAX_W_BASIS * (lpUnits + 2))
  {
    ShareIsFair(lpUnits, MAX_W_BASIS, FromInt(w));
  }

  lemma SlackTerms(u: int, P: nat, depth: nat, l: nat)
    requires 1 <= P && l <= P
    ensures depth * (u * MAX_W_BASIS) == MAX_W_BASIS * (u * depth)
    ensures depth * (MAX_W_BASIS * (l + 2)) <= 3 * MAX_W_BASIS * (P * depth)
    ensures MAX_W_BASIS * (P * (4 * depth + 2)) == MAX_W_BASIS * (P * (depth + 2)) + 3 * MAX_W_BASIS * (P * depth)
  {
    ProductMonotone(depth, l + 2, 3 * P);
    assert depth * (3 * P) == 3 * (P * depth);
  }

  lemma ComposeErrors(s: int, u: int, P: nat, depth: nat, l: nat, claimed: int)
    requires 1 <= P && l <= P
    requires Near(s * P, u * depth, P * (depth + 2)) && Near(u * MAX_W_BASIS, claimed, MAX_W_BASIS * (l + 2))
    ensures Near(MAX_W_BASIS * (s * P), depth * claimed, MAX_W_BASIS * (P * (4 * depth + 2)))
  {
    ProductNear(depth, u * MAX_W_BASIS, claimed, MAX_W_BASIS * (l + 2));
    SlackTerms(u, P, depth, l);
  }

  /** `paid` tokens against the exact `w * lpUnits * depth / (10000 * poolUnits)`, all scaled to integers. */
  predicate PaysShare(paid: nat, poolUnits: nat, depth: nat, lpUnits: nat, w: nat) {
    var exact, slack := depth * (w * ONE * lpUnits), MAX_W_BASIS * (poolUnits * (4 * depth + 2));
    exact - slack - MAX_W_BASIS * (poolUnits * ONE) <= MAX_W_BASIS * (poolUnits * (paid * ONE)) <= exact + slack
  }

  lemma Truncated(s: nat, P: nat)
    ensures P * (TruncateInt(s) * ONE) <= s * P <= P * (TruncateInt(s) * ONE) + P * ONE
  {
    var t := TruncateInt(s) * ONE;
    ProductMonotone(P, t, s);
    ProductMonotone(P, s, t + ONE);
    assert P * (t + ONE) == P * t + P * ONE;
  }

  lemma TruncatedShare(depth: nat, poolUnits: nat, lpUnits: nat, w: nat)
    requires 1 <= w <= MAX_W_BASIS && 1 <= lpUnits <= poolUnits
    ensures 0 < UnitsToClaim(lpUnits, w) && 0 < Quo(FromInt(poolUnits), UnitsToClaim(lpUnits, w))
    ensures PaysShare(TruncateInt(Share(depth, poolUnits, UnitsToClaim(lpUnits, w))), poolUnits, depth, lpUnits, w)
  {
    var u := UnitsToClaim(lpUnits, w);
    ClaimPositive(lpUnits, w);
    ClaimWithinUnits(lpUnits, w);
    ProductMonotone(ONE, lpUnits, poolUnits);
    ShareIsFair(depth, poolUnits, u);
    ClaimIsFair(lpUnits, w);
    var s := Share(depth, poolUnits, u);
    ComposeErrors(s, u, poolUnits, depth, lpUnits, w * ONE * lpUnits);
    Truncated(s, poolUnits);
  }

  /**
   A basis-point withdrawal pays, of each asset, `w` ten-thousandths of the provider's part of the depth, truncated to
   whole tokens, give or take four times the depth plus two parts in 10^18.
   */
  lemma WithdrawalIsFair(poolUnits: nat, nativeDepth: nat, externalDepth: nat, lpUnits: nat, w: nat)
    requires 1 <= w <= MAX_W_BASIS && 1 <= lpUnits <= poolUnits
    ensures var res := CalculateWithdrawal(poolUnits, nativeDepth, externalDepth, lpUnits, w);
      && res.Withdrawn?
      && PaysShare(res.native, poolUnits, nativeDepth, lpUnits, w)
      && PaysShare(res.external, poolUnits, externalDepth, lpUnits, w)
  {
    TruncatedShare(nativeDepth, poolUnits, lpUnits, w);
    TruncatedShare(externalDepth, poolUnits, lpUnits, w);
  }

  // ---------------------------------------------------------------- when a part burns everything

  /** `10000 / w`, as the withdrawal rounds it, came out too small. */
  predicate BasisRoundedDown(w: nat)
    requires 1 <= w <= MAX_W_BASIS
  {
    Quo(FromInt(MAX_W_BASIS), FromInt(w)) * w < FromInt(MAX_W_BASIS)
  }

  /** Asking for `w` basis points leaves less than one unit, or just one unit and the rounding takes it. */
  predicate BurnsAll(lpUnits: nat, w: nat)
    requires 1 <= w <= MAX_W_BASIS
  {
    lpUnits * (MAX_W_BASIS - w) < MAX_W_BASIS || (lpUnits * (MAX_W_BASIS - w) == MAX_W_BASIS && BasisRoundedDown(w))
  }

  lemma LessThanOneLeft(l: nat, w: nat, claim: int, d: nat)
    requires 1 <= l && 1 <= w < MAX_W_BASIS && d == l * (MAX_W_BASIS - w) && d != MAX_W_BASIS
    requires Near(claim * MAX_W_BASIS, w * ONE * l, MAX_W_BASIS * (l + 2))
    ensures (l - 1) * ONE < claim <==> d < MAX_W_BASIS
  {
    assert l <= d by { ProductMonotone(l, 1, MAX_W_BASIS - w); }
    assert w * ONE * l == ONE * (MAX_W_BASIS * l - d);
  }

  lemma ExactlyOneLeft(l: nat, w: nat, den: nat)
    requires 1 <= w < MAX_W_BASIS && l * (MAX_W_BASIS - w) == MAX_W_BASIS
    requires den == Quo(FromInt(MAX_W_BASIS), FromInt(w))
    ensures 2 <= l && 0 < den
    ensures (l - 1) * ONE < Quo(FromInt(l), den) <==> den * w < FromInt(MAX_W_BASIS)
  {
    assert l != 0 && l != 1;
    QuoAtLeastOne(FromInt(MAX_W_BASIS), FromInt(w));
    QuoAboveIff(FromInt(l), den, (l - 1) * ONE);
    DenominatorBound(l, w, den);
    RemainderDecides(l, w, den);
  }

  lemma DenominatorBound(l: nat, w: nat, den: nat)
    requires 1 <= w < MAX_W_BASIS && l * (MAX_W_BASIS - w) == MAX_W_BASIS && 2 <= l
    requires den == Quo(FromInt(MAX_W_BASIS), FromInt(w))
    ensures if l == 2 then w == 5000 && den == 2 * ONE else 5 * den <= 8 * ONE
  {
    if l == 2 {
      assert w == 5000;
    } else {
      ProductMonotone(MAX_W_BASIS - w, 3, l);
      QuoAntitone(FromInt(MAX_W_BASIS), FromInt(6666), FromInt(w));
      assert Quo(FromInt(MAX_W_BASIS), FromInt(6666)) <= 1_600_000_000_000_000_000;
    }
  }

  lemma RemainderDecides(l: nat, w: nat, den: nat)
    requires 2 <= l && l * (MAX_W_BASIS - w) == MAX_W_BASIS && w <= MAX_W_BASIS && 0 < den
    requires if l == 2 then den == 2 * ONE else 5 * den <= 8 * ONE
    ensures RoundsAbove((l - 1) * ONE) * den <= FromInt(l) * ONE * ONE <==> den * w < FromInt(MAX_W_BASIS)
  {
    var m := (l - 1) * den;
    assert ((l - 1) * ONE) % 2 == 0 by { assert (l - 1) * ONE == 2 * ((l - 1) * HALF); }
    assert RoundsAbove((l - 1) * ONE) * den == m * (ONE * ONE) + (HALF + 1) * den;
    assert l * w == MAX_W_BASIS * (l - 1);
    ScaledByUnits(l, w, den, m);
    if l == 2 { assert m == 2 * ONE; }
  }

  lemma ScaledByUnits(l: nat, w: nat, den: nat, m: int)
    requires 1 <= l && l * w == MAX_W_BASIS * (l - 1) && m == (l - 1) * den
    ensures den * w < MAX_W_BASIS * ONE <==> m < l * ONE
  {
    assert l * (den * w) == den * (l * w) == MAX_W_BASIS * m;
    assert l * (MAX_W_BASIS * ONE) == MAX_W_BASIS * (l * ONE);
    if den * w < MAX_W_BASIS * ONE {
      ProductMonotone(l, den * w + 1, MAX_W_BASIS * ONE);
      assert l * (den * w + 1) == l * (den * w) + l;
    } else {
      ProductMonotone(l, MAX_W_BASIS * ONE, den * w);
    }
  }

  /** A basis-point withdrawal leaves the provider no units exactly when `BurnsAll` says so. */
  lemma LeavesNothingIff(poolUnits: nat, nativeDepth: nat, externalDepth: nat, lpUnits: nat, w: nat)
    requires 1 <= w <= MAX_W_BASIS && 1 <= lpUnits <= poolUnits
    ensures var res := CalculateWithdrawal(poolUnits, nativeDepth, externalDepth, lpUnits, w);
      res.Withdrawn? && (res.unitsLeft == 0 <==> BurnsAll(lpUnits, w))
  {
    WithdrawalSafe(poolUnits, nativeDepth, externalDepth, lpUnits, w);
    ClaimWithinUnits(lpUnits, w);
    NothingLeftIff(lpUnits, UnitsToClaim(lpUnits, w));
    ClaimsLastUnitIff(lpUnits, w);
  }

  lemma ClaimsLastUnitIff(l: nat, w: nat)
    requires 1 <= w <= MAX_W_BASIS && 1 <= l
    ensures (l - 1) * ONE < UnitsToClaim(l, w) <==> BurnsAll(l, w)
  {
    if w == MAX_W_BASIS {
      ClaimWithinUnits(l, w);
    } else if l * (MAX_W_BASIS - w) == MAX_W_BASIS {
      ExactlyOneLeft(l, w, Quo(FromInt(MAX_W_BASIS), FromInt(w)));
    } else {
      ClaimIsFair(l, w);
      LessThanOneLeft(l, w, UnitsToClaim(l, w), l * (MAX_W_BASIS - w));
    }
  }

  lemma NothingLeftIff(l: nat, claim: nat)
    requires 1 <= l && claim <= FromInt(l)
    ensures TruncateInt(FromInt(l) - claim) == 0 <==> (l - 1) * ONE < claim
  {
  }

  /** Three quarters of four units are all of them. */
  lemma ThreeQuartersOfFour(poolUnits: nat, nativeDepth: nat, externalDepth: nat, w: nat)
    requires 4 <= poolUnits && w == 7500
    ensures var res := CalculateWithdrawal(poolUnits, nativeDepth, externalDepth, 4, w);
      res.Withdrawn? && res.unitsLeft == 0
  {
    LeavesNothingIff(poolUnits, nativeDepth, externalDepth, 4, w);
    assert Quo(FromInt(MAX_W_BASIS), FromInt(7500)) == 1_333_333_333_333_333_333;
  }

  /** A withdrawal of every unit of the pool, by units or by 10000 basis points, pays out the whole depth. */
  lemma WholePoolPaysDepth(depth: nat, poolUnits: nat)
    requires 1 <= poolUnits
    ensures 0 < Quo(FromInt(poolUnits), FromInt(poolUnits))
    ensures Share(depth, poolUnits, FromInt(poolUnits)) == FromInt(depth)
    ensures RoundInt(FromInt(depth)) == depth == TruncateInt(FromInt(depth))
  {
    QuoBySelf(FromInt(poolUnits));
    QuoByOne(FromInt(depth));
    ChopExact(depth);
  }

  lemma AllUnitsPayAll(poolUnits: nat, nativeDepth: nat, externalDepth: nat)
    requires 1 <= poolUnits
    ensures CalculateWithdrawalFromUnits(poolUnits, nativeDepth, externalDepth, poolUnits, poolUnits)
         == Withdrawn(nativeDepth, externalDepth, 0)
    ensures CalculateWithdrawal(poolUnits, nativeDepth, externalDepth, poolUnits, MAX_W_BASIS)
         == Withdrawn(nativeDepth, externalDepth, 0)
  {
    ClaimWithinUnits(poolUnits, MAX_W_BASIS);
    WholePoolPaysDepth(nativeDepth, poolUnits);
    WholePoolPaysDepth(externalDepth, poolUnits);
    UnitsLeftExact(poolUnits, poolUnits);
  }
}
