/** Constant-product swaps, shifted by the ratio-shifting ("PMTP") running rate and charged a fee. */
module Swap {
  import opened Rational
  import opened Pools

  datatype SwapOutcome =
    | Swapped(result: nat, fee: nat, pool: Pool)
    | NotEnoughAssetTokens

  ghost predicate ValidRates(p: real, f: real) {
    0.0 <= p && 0.0 <= f <= 1.0
  }

  function CalcRawXYK(x: nat, X: nat, Y: nat): real
    requires 0 < X + x
  {
    (x as real * Y as real) / (X as real + x as real)
  }

  lemma RawNonNegative(x: nat, X: nat, Y: nat)
    requires 0 < X + x
    ensures 0.0 <= CalcRawXYK(x, X, Y)
  {
    ProductNonNegative(x as real, Y as real);
    QuotientNonNegative(x as real * Y as real, X as real + x as real);
  }

  /** The output before fees: divided by `1 + p` when buying native, multiplied by it when selling. */
  function Adjusted(toFury: bool, X: nat, x: nat, Y: nat, p: real): real
    requires 0 < X + x && 0.0 <= p
  {
    if toFury then CalcRawXYK(x, X, Y) / (1.0 + p) else CalcRawXYK(x, X, Y) * (1.0 + p)
  }

  lemma AdjustedNonNegative(toFury: bool, X: nat, x: nat, Y: nat, p: real, f: real)
    requires 0 < X + x && ValidRates(p, f)
    ensures 0.0 <= Adjusted(toFury, X, x, Y, p) * f <= Adjusted(toFury, X, x, Y, p)
  {
    var raw := CalcRawXYK(x, X, Y);
    RawNonNegative(x, X, Y);
    if toFury {
      QuotientNonNegative(raw, 1.0 + p);
    } else {
      ProductNonNegative(raw, 1.0 + p);
    }
    ProductNonNegative(Adjusted(toFury, X, x, Y, p), f);
    ProductNonNegative(Adjusted(toFury, X, x, Y, p), 1.0 - f);
  }

  lemma TruncationOrder(x: real, y: real)
    requires 0.0 <= x <= y
    ensures 0 <= RatIntQuo(x) <= RatIntQuo(y)
  {
  }

  /** A curve value truncated and split into what is paid and the truncated fee. */
  function NetAndFee(adjusted: real, f: real): (res: (nat, nat))
    requires 0.0 <= adjusted * f <= adjusted
    ensures res.0 + res.1 == RatIntQuo(adjusted) && res.1 == RatIntQuo(adjusted * f)
  {
    TruncationOrder(adjusted * f, adjusted);
    var percentFee := RatIntQuo(adjusted * f);
    (RatIntQuo(adjusted) - percentFee, percentFee)
  }

  /** `CalcSwapResult`: the amount paid out and the fee withheld. The fee subtraction cannot go below zero. */
  function CalcSwapResult(toFury: bool, X: nat, x: nat, Y: nat, p: real, f: real): (res: (nat, nat))
    requires ValidRates(p, f)
  {
    if X == 0 || x == 0 || Y == 0 then (0, 0)
    else
      AdjustedNonNegative(toFury, X, x, Y, p, f);
      NetAndFee(Adjusted(toFury, X, x, Y, p), f)
  }

  /** The price bound a swap is held to: `(X + x) * y` against `x * Y`, with the running rate on the native side. */
  ghost predicate WithinCurve(toFury: bool, X: nat, x: nat, Y: nat, y: nat, p: real) {
    if toFury then (X + x) as real * y as real * (1.0 + p) <= x as real * Y as real
    else (X + x) as real * y as real <= (1.0 + p) * (x as real * Y as real)
  }

  /** A value is within the curve exactly when it is at most the adjusted one. */
  lemma AdjustedReachesIff(toFury: bool, X: nat, x: nat, Y: nat, balance: nat, p: real)
    requires 0 < X + x && 0.0 <= p
    ensures balance as real <= Adjusted(toFury, X, x, Y, p) <==> WithinCurve(toFury, X, x, Y, balance, p)
  {
    var n, d := x as real * Y as real, X as real + x as real;
    QuotientScales(n, d);
    assert (X + x) as real == d;
    if toFury {
      QuotientScales(n / d, 1.0 + p);
      BoughtReaches(balance as real, n / d / (1.0 + p), n / d, d, 1.0 + p, n);
    } else {
      ScaledQuotient(d, n / d, 1.0 + p, n);
      OrderScales(d, balance as real, n / d * (1.0 + p));
    }
  }

  lemma BoughtReaches(b: real, adjusted: real, raw: real, d: real, k: real, n: real)
    requires 0.0 < d && 0.0 < k && k * adjusted == raw && d * raw == n
    ensures b <= adjusted <==> d * b * k <= n
  {
    StrictScale(d, 0.0, k);
    OrderScales(d * k, b, adjusted);
    assert (d * k) * b == d * b * k;
    assert (d * k) * adjusted == d * (k * adjusted);
  }

  lemma OrderScales(k: real, x: real, y: real)
    requires 0.0 < k
    ensures x <= y <==> k * x <= k * y
  {
    if x <= y { ScaleMonotone(k, x, y); } else { StrictScale(k, y, x); }
  }

  lemma ScaledQuotient(d: real, q: real, k: real, n: real)
    requires d * q == n
    ensures d * (q * k) == k * n
  {
  }

  /**
   What a swap pays plus its fee is the truncated curve value: the largest number of tokens within the curve. The fee is
   its own part of the exact value, truncated.
   */
  lemma SwapResultWithinCurve(toFury: bool, X: nat, x: nat, Y: nat, p: real, f: real)
    requires ValidRates(p, f)
    ensures var (y, fee) := CalcSwapResult(toFury, X, x, Y, p, f);
      && WithinCurve(toFury, X, x, Y, y, p)
      && (0 < X && 0 < x && 0 < Y ==>
            && y + fee == RatIntQuo(Adjusted(toFury, X, x, Y, p)) && fee == RatIntQuo(Adjusted(toFury, X, x, Y, p) * f)
            && WithinCurve(toFury, X, x, Y, y + fee, p) && !WithinCurve(toFury, X, x, Y, y + fee + 1, p))
  {
    var (y, fee) := CalcSwapResult(toFury, X, x, Y, p, f);
    if X == 0 || x == 0 || Y == 0 {
      ProductNonNegative(x as real, Y as real);
      ProductNonNegative(x as real * Y as real, p);
    } else {
      AdjustedNonNegative(toFury, X, x, Y, p, f);
      AdjustedReachesIff(toFury, X, x, Y, y, p);
      AdjustedReachesIff(toFury, X, x, Y, y + fee, p);
      AdjustedReachesIff(toFury, X, x, Y, y + fee + 1, p);
    }
  }

  /** `SwapOne`: refused when the payment would take the whole balance. */
  function SwapOne(toFury: bool, sent: nat, pool: Pool, p: real, f: real): (res: SwapOutcome)
    requires ValidRates(p, f)
  {
    var (X, Y) := pool.ExtractValues(toFury);
    var (Xincl, Yincl) := pool.ExtractDebt(X, Y, toFury);
    var (swapResult, fee) := CalcSwapResult(toFury, Xincl, sent, Yincl, p, f);
    if swapResult >= Y then NotEnoughAssetTokens
    else Swapped(swapResult, fee, pool.UpdateBalances(toFury, X, sent, Y, swapResult))
  }

  /** Depths on the incoming and outgoing side of a swap, debts included. */
  function Depths(toFury: bool, pool: Pool): (nat, nat) {
    var (X, Y) := pool.ExtractValues(toFury);
    pool.ExtractDebt(X, Y, toFury)
  }

  /** A swap moves exactly `sent` in and `result` out, keeps a balance to pay from, and touches nothing else. */
  lemma SwapOneMovesExactly(toFury: bool, sent: nat, pool: Pool, p: real, f: real)
    requires ValidRates(p, f) && SwapOne(toFury, sent, pool, p, f).Swapped?
    ensures var res := SwapOne(toFury, sent, pool, p, f);
      && res.pool.ExtractValues(toFury).0 == pool.ExtractValues(toFury).0 + sent
      && res.pool.ExtractValues(toFury).1 + res.result == pool.ExtractValues(toFury).1
      && 0 < res.pool.ExtractValues(toFury).1
      && Depths(toFury, res.pool) == (Depths(toFury, pool).0 + sent, Depths(toFury, pool).1 - res.result)
      && res.pool == pool.(nativeBalance := res.pool.nativeBalance, externalBalance := res.pool.externalBalance)
  {
  }

  lemma ReverseOnCurve(toFury: bool, X: nat, x: nat, Y: nat, y: nat, back: nat, p: real)
    requires 0.0 <= p && 0 < Y && y <= Y
    requires WithinCurve(toFury, X, x, Y, y, p)
    requires WithinCurve(!toFury, Y - y, y, X + x, back, p)
    ensures back <= x
  {
    var k, d := 1.0 + p, (X + x) as real;
    assert (Y - y + y) as real == Y as real;
    if toFury {
      BackAfterBuying(d, y as real, k, x as real, Y as real, back as real);
    } else {
      BackAfterSelling(d, y as real, k, x as real, Y as real, back as real);
    }
  }

  lemma BackAfterBuying(d: real, y: real, k: real, x: real, Y: real, back: real)
    requires 0.0 < Y && d * y * k <= x * Y && Y * back <= k * (y * d)
    ensures back <= x
  {
    assert k * (y * d) == d * y * k && x * Y == Y * x;
    CancelReal(Y, back, x);
  }

  lemma BackAfterSelling(d: real, y: real, k: real, x: real, Y: real, back: real)
    requires 0.0 < Y && 1.0 <= k && d * y <= k * (x * Y) && Y * back * k <= y * d
    ensures back <= x
  {
    assert y * d == d * y && Y * back * k == k * (Y * back) && x * Y == Y * x;
    CancelReal(k, Y * back, Y * x);
    CancelReal(Y, back, x);
  }

  lemma LargerInput(W: real, z: real, y: real, V: real, c: real)
    requires 0.0 < W && 0.0 <= z <= y && 0.0 <= c && 0.0 <= V && (W + z) * c <= z * V
    ensures (W + y) * c <= y * V
  {
    if z == 0.0 {
      assert (W + z) * c == W * c;
      if 0.0 < c { StrictScale(W, 0.0, c); assert false; }
      ProductNonNegative(y, V);
    } else {
      ScaleMonotone(y, (W + z) * c, z * V);
      ProductNonNegative(W, c);
      ProductNonNegative(y - z, W * c);
      assert y * ((W + z) * c) - z * ((W + y) * c) == (y - z) * (W * c);
      assert y * (z * V) == z * (y * V);
      CancelReal(z, (W + y) * c, y * V);
    }
  }

  /** What is within the curve for some input is within it for every larger one. */
  lemma CurveMonotone(toFury: bool, W: nat, z: nat, y: nat, V: nat, b: nat, p: real)
    requires 0.0 <= p && 0 < W && z <= y && WithinCurve(toFury, W, z, V, b, p)
    ensures WithinCurve(toFury, W, y, V, b, p)
  {
    var k, w := 1.0 + p, W as real;
    assert (W + z) as real == w + z as real && (W + y) as real == w + y as real;
    if toFury {
      ProductNonNegative(b as real, k);
      assert (w + z as real) * b as real * k == (w + z as real) * (b as real * k);
      LargerInput(w, z as real, y as real, V as real, b as real * k);
      assert (w + y as real) * b as real * k == (w + y as real) * (b as real * k);
    } else {
      ProductNonNegative(k, V as real);
      assert k * (z as real * V as real) == z as real * (k * V as real);
      LargerInput(w, z as real, y as real, k * V as real, b as real);
      assert k * (y as real * V as real) == y as real * (k * V as real);
    }
  }

  /**
   Swapping and then swapping the proceeds, or any part of them, back returns at most the amount first sent, in either
   direction, at any running rate and any two fees; and the way back is never refused from a pool that had a balance
   to start with.
   */
  lemma ReverseSwapNeverProfits(toFury: bool, sent: nat, pool: Pool, returned: nat, p: real, f1: real, f2: real)
    requires ValidRates(p, f1) && ValidRates(p, f2)
    requires SwapOne(toFury, sent, pool, p, f1).Swapped? && returned <= SwapOne(toFury, sent, pool, p, f1).result
    ensures var there := SwapOne(toFury, sent, pool, p, f1);
      var back := SwapOne(!toFury, returned, there.pool, p, f2);
      && (back.Swapped? ==> back.result <= sent)
      && (0 < pool.ExtractValues(toFury).0 ==> back.Swapped?)
  {
    var there := SwapOne(toFury, sent, pool, p, f1);
    SwapOneMovesExactly(toFury, sent, pool, p, f1);
    var (X, Y) := Depths(toFury, pool);
    SwapResultWithinCurve(toFury, X, sent, Y, p, f1);
    var (X', Y') := Depths(!toFury, there.pool);
    SwapResultWithinCurve(!toFury, X', returned, Y', p, f2);
    var b := CalcSwapResult(!toFury, X', returned, Y', p, f2).0;
    CurveMonotone(!toFury, X', returned, there.result, Y', b, p);
    ReverseOnCurve(toFury, X, sent, Y, there.result, b, p);
  }

  /** Buying native, or selling it while no rate is applied, never lowers the product of the depths. */
  lemma SwapKeepsDepthProduct(toFury: bool, sent: nat, pool: Pool, p: real, f: real)
    requires ValidRates(p, f) && SwapOne(toFury, sent, pool, p, f).Swapped? && (toFury || p == 0.0)
    ensures var after := Depths(toFury, SwapOne(toFury, sent, pool, p, f).pool);
      Depths(toFury, pool).0 * Depths(toFury, pool).1 <= after.0 * after.1
  {
    SwapOneMovesExactly(toFury, sent, pool, p, f);
    var (X, Y) := Depths(toFury, pool);
    var y := SwapOne(toFury, sent, pool, p, f).result;
    SwapResultWithinCurve(toFury, X, sent, Y, p, f);
    UnscaledCurve(toFury, X, sent, Y, y, p);
    ProductKept(X, sent, Y, y);
  }

  lemma UnscaledCurve(toFury: bool, X: nat, x: nat, Y: nat, y: nat, p: real)
    requires 0.0 <= p && (toFury || p == 0.0) && WithinCurve(toFury, X, x, Y, y, p)
    ensures (X + x) * y <= x * Y
  {
    var c := (X + x) as real * y as real;
    ProductNonNegative((X + x) as real, y as real);
    ProductNonNegative(c, p);
    assert c * (1.0 + p) == c + c * p;
    assert c <= x as real * Y as real;
    assert ((X + x) * y) as real == c && (x * Y) as real == x as real * Y as real;
  }

  lemma ProductKept(X: nat, x: nat, Y: nat, y: nat)
    requires y <= Y && (X + x) * y <= x * Y
    ensures X * Y <= (X + x) * (Y - y)
  {
    assert (X + x) * (Y - y) == X * Y + x * Y - (X + x) * y;
  }

  // ---------------------------------------------------------------- when a swap is refused

  /** The balance a swap pays from; debts count towards the price but cannot be paid out. */
  function Outgoing(toFury: bool, pool: Pool): nat {
    pool.ExtractValues(toFury).1
  }

  /** The curve value of a swap before truncation and fee; nothing when nothing is sent or a side is empty. */
  function CurveValue(toFury: bool, sent: nat, pool: Pool, p: real): real
    requires 0.0 <= p
  {
    var (X, Y) := Depths(toFury, pool);
    if X == 0 || sent == 0 || Y == 0 then 0.0 else Adjusted(toFury, X, sent, Y, p)
  }

  lemma RefusedWhenPaidReaches(toFury: bool, sent: nat, pool: Pool, p: real, f: real, a: real)
    requires ValidRates(p, f) && a == CurveValue(toFury, sent, pool, p)
    ensures 0.0 <= a * f <= a
    ensures SwapOne(toFury, sent, pool, p, f).NotEnoughAssetTokens? <==> Outgoing(toFury, pool) <= NetAndFee(a, f).0
  {
    var (X, Y) := Depths(toFury, pool);
    if X == 0 || sent == 0 || Y == 0 {
      assert 0.0 * f == 0.0;
    } else {
      AdjustedNonNegative(toFury, X, sent, Y, p, f);
    }
  }

  /**
   When a swap is refused, for every pool, debts included, both directions, any amount and any fee: exactly when the
   balance to pay from and the exact fee together stay below the next whole token above the curve value.
   */
  lemma RefusedIff(toFury: bool, sent: nat, pool: Pool, p: real, f: real, a: real)
    requires ValidRates(p, f) && a == CurveValue(toFury, sent, pool, p)
    ensures SwapOne(toFury, sent, pool, p, f).NotEnoughAssetTokens?
       <==> Outgoing(toFury, pool) as real + a * f < RatIntQuo(a) as real + 1.0
  {
    RefusedWhenPaidReaches(toFury, sent, pool, p, f, a);
    NetReachesIff(a, f, Outgoing(toFury, pool));
  }

  lemma NetReachesIff(a: real, f: real, balance: nat)
    requires 0.0 <= a * f <= a
    ensures balance <= NetAndFee(a, f).0 <==> balance as real + a * f < RatIntQuo(a) as real + 1.0
  {
    TruncatedDifference(a, a * f, balance);
  }

  lemma TruncatedDifference(a: real, fee: real, balance: nat)
    requires 0.0 <= fee <= a
    ensures balance <= RatIntQuo(a) - RatIntQuo(fee) <==> balance as real + fee < RatIntQuo(a) as real + 1.0
  {
  }

  /** So it is refused whenever the curve value after the fee reaches that balance, and never a whole token short. */
  lemma RefusedWithinOneToken(toFury: bool, sent: nat, pool: Pool, p: real, f: real, a: real, net: real)
    requires ValidRates(p, f) && a == CurveValue(toFury, sent, pool, p) && net == a - a * f
    ensures Outgoing(toFury, pool) as real <= net ==> SwapOne(toFury, sent, pool, p, f).NotEnoughAssetTokens?
    ensures SwapOne(toFury, sent, pool, p, f).NotEnoughAssetTokens? ==> Outgoing(toFury, pool) as real - 1.0 < net
  {
    RefusedWhenPaidReaches(toFury, sent, pool, p, f, a);
    NetReaches(a, f, Outgoing(toFury, pool));
  }

  lemma NetReaches(a: real, f: real, balance: nat)
    requires 0.0 <= a * f <= a
    ensures balance as real <= a - a * f ==> balance <= NetAndFee(a, f).0
    ensures balance <= NetAndFee(a, f).0 ==> balance as real - 1.0 < a - a * f && balance as real <= a
  {
  }

  lemma NetWithoutFee(a: real, balance: nat)
    requires 0.0 <= a * 0.0 <= a
    ensures balance <= NetAndFee(a, 0.0).0 <==> balance as real <= a
  {
    assert a * 0.0 == 0.0;
  }

  /**
   Without a fee the refusal is exact, by cross multiplication: the balance to pay from, times the incoming depth after
   the swap, against the amount sent times the outgoing depth, with the running rate on the native side.
   */
  lemma RefusedWithoutFeeIff(toFury: bool, sent: nat, pool: Pool, p: real)
    requires 0.0 <= p && 0 < Depths(toFury, pool).0
    ensures SwapOne(toFury, sent, pool, p, 0.0).NotEnoughAssetTokens?
       <==> WithinCurve(toFury, Depths(toFury, pool).0, sent, Depths(toFury, pool).1, Outgoing(toFury, pool), p)
  {
    var a := CurveValue(toFury, sent, pool, p);
    AdjustedToNothing(toFury, Depths(toFury, pool).0, sent, Depths(toFury, pool).1, p);
    RefusedWhenPaidReaches(toFury, sent, pool, p, 0.0, a);
    NetWithoutFee(a, Outgoing(toFury, pool));
    AdjustedReachesIff(toFury, Depths(toFury, pool).0, sent, Depths(toFury, pool).1, Outgoing(toFury, pool), p);
  }

  lemma AdjustedToNothing(toFury: bool, X: nat, x: nat, Y: nat, p: real)
    requires 0 < X && 0.0 <= p
    ensures x == 0 || Y == 0 ==> Adjusted(toFury, X, x, Y, p) == 0.0
  {
    if x == 0 || Y == 0 { assert x as real * Y as real == 0.0; }
  }

  /**
   The case the source has in mind, a pool that owes nothing: a swap is refused only when native is sold and the rate
   times the amount reaches the native depth, at any fee; so never before ratio shifting.
   */
  lemma DebtFreeRefusal(toFury: bool, sent: nat, pool: Pool, p: real, f: real)
    requires ValidRates(p, f) && pool.nativeLiabilities == 0 && pool.externalLiabilities == 0
    requires 0 < pool.nativeBalance && 0 < pool.externalBalance && 0 < sent
    ensures SwapOne(toFury, sent, pool, p, f).NotEnoughAssetTokens? ==> SellsOut(toFury, sent, pool, p)
    ensures SwapOne(toFury, sent, pool, p, 0.0).NotEnoughAssetTokens? <==> SellsOut(toFury, sent, pool, p)
  {
    var (X, Y) := Depths(toFury, pool);
    var a := Adjusted(toFury, X, sent, Y, p);
    RefusedWhenPaidReaches(toFury, sent, pool, p, f, a);
    NetReaches(a, f, Y);
    RefusedWithoutFeeIff(toFury, sent, pool, p);
    AdjustedReachesIff(toFury, X, sent, Y, Y, p);
    OutOfOwnReach(toFury, X, sent, Y, p);
  }

  lemma OutOfOwnReach(toFury: bool, X: nat, x: nat, Y: nat, p: real)
    requires 0.0 <= p && 0 < X && 0 < x && 0 < Y
    ensures WithinCurve(toFury, X, x, Y, Y, p) <==> !toFury && X as real <= p * x as real
  {
    ReachesOwnDepth(toFury, X as real, x as real, Y as real, p);
    assert (X + x) as real == X as real + x as real;
  }

  ghost predicate SellsOut(toFury: bool, sent: nat, pool: Pool, p: real) {
    !toFury && pool.nativeBalance as real <= p * sent as real
  }

  lemma ReachesOwnDepth(toFury: bool, X: real, x: real, Y: real, p: real)
    requires 0.0 <= p && 0.0 < X && 0.0 < x && 0.0 < Y
    ensures toFury ==> x * Y < (X + x) * Y * (1.0 + p)
    ensures !toFury ==> ((X + x) * Y <= (1.0 + p) * (x * Y) <==> X <= p * x)
  {
    if toFury {
      StrictScale(Y, x, X + x);
      ProductNonNegative((X + x) * Y, p);
      assert (X + x) * Y * (1.0 + p) == (X + x) * Y + (X + x) * Y * p;
    } else {
      assert (X + x) * Y == Y * (X + x) && (1.0 + p) * (x * Y) == Y * (x + p * x);
      OrderScales(Y, X + x, x + p * x);
    }
  }

  /** A refused swap from a pool that owes nothing, by the rate alone. */
  lemma RefusedByRate(sent: nat, pool: Pool, p: real, f: real)
    requires pool == Pool(1, 1, 1, 0, 0, 0, 0) && sent == 1 && p == 1.0 && f == 0.0
    ensures SwapOne(false, sent, pool, p, f).NotEnoughAssetTokens?
  {
    DebtFreeRefusal(false, sent, pool, p, f);
  }

  /** At rate zero and without a fee, native is sold out by a debt alone, from a certain amount on. */
  lemma RefusedByDebtIff(sent: nat, pool: Pool, p: real, X: nat, balance: nat, debt: nat)
    requires p == 0.0 && 0 < X && Depths(false, pool) == (X, balance + debt) && Outgoing(false, pool) == balance
    ensures SwapOne(false, sent, pool, p, p).NotEnoughAssetTokens? <==> X * balance <= sent * debt
  {
    RefusedWithoutFeeIff(false, sent, pool, p);
    WithinCurveByDebt(sent, X, balance, debt, p);
  }

  lemma WithinCurveByDebt(sent: nat, X: nat, balance: nat, debt: nat, p: real)
    requires p == 0.0
    ensures WithinCurve(false, X, sent, balance + debt, balance, p) <==> X * balance <= sent * debt
  {
    assert (X + sent) * balance == X * balance + sent * balance;
    assert sent * (balance + debt) == sent * balance + sent * debt;
    assert ((X + sent) * balance) as real == (X + sent) as real * balance as real;
    assert (sent * (balance + debt)) as real == sent as real * (balance + debt) as real;
  }

  /** A refused swap at rate zero: one token sold to a pool of one token each with external liabilities of one. */
  lemma RefusedByDebt(sent: nat, pool: Pool, p: real, n: nat)
    requires pool.nativeBalance == pool.externalBalance == pool.externalLiabilities == sent == n
    requires pool.nativeLiabilities == 0 && n == 1 && p == 0.0
    ensures SwapOne(false, sent, pool, p, p).NotEnoughAssetTokens?
  {
    RefusedByDebtIff(sent, pool, p, n, n, n);
  }
}
