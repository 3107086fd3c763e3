/**
 Spot prices: the ratio of a pool's depths, shifted by the running rate, brought to the assets' decimals and stored as
 an 18-digit decimal.
 */
module SpotPrice {
  import opened Options
  import opened Rational
  import opened Decimal
  import opened Pools
  import Swap

  /** 2^315, the first magnitude whose bits no longer fit in a decimal. */
  const LIMIT: int := 0x8000000000000000000000000000000000000000000000000000000000000000000000000000000

  const NATIVE_DECIMALS: nat := 18

  // ---------------------------------------------------------------- decimals and rationals

  function DecToRat(d: int): (r: real)
    ensures 0 <= d ==> 0.0 <= r
  {
    d as real / ONE as real
  }

  /** `RatToDec`: truncated at 18 digits; `None` when the result needs more than 315 bits. */
  function RatToDec(r: real): Option<int> {
    var d := RatIntQuo(r * ONE as real);
    if -LIMIT < d < LIMIT then Some(d) else None
  }

  /** A decimal survives the trip through the rationals exactly when it fits. */
  lemma RoundTrip(d: int)
    ensures RatToDec(DecToRat(d)) == if -LIMIT < d < LIMIT then Some(d) else None
  {
    var r := DecToRat(d) * ONE as real;
    assert r == d as real by { QuotientScales(d as real, ONE as real); }
    WholeQuotient(d, r);
  }

  lemma WholeQuotient(d: int, r: real)
    requires r == d as real
    ensures RatIntQuo(r) == d
  {
  }

  /** The other way round less than one unit of the last digit is lost, always towards zero. */
  lemma TruncatesTowardsZero(r: real)
    requires RatToDec(r).Some?
    ensures var d := RatToDec(r).value;
      && (0.0 <= r ==> d as real <= r * ONE as real < d as real + 1.0)
      && (r <= 0.0 ==> d as real - 1.0 < r * ONE as real <= d as real)
  {
  }

  // ---------------------------------------------------------------- decimals of the assets

  /** A token's number of decimals, a byte. */
  type Decimals = n: nat | n < 256

  function Pow10(n: nat): (p: real)
    ensures 1.0 <= p
  {
    if n == 0 then 1.0 else 10.0 * Pow10(n - 1)
  }

  function CalcDenomChangeMultiplier(decimalsX: Decimals, decimalsY: Decimals): (m: real)
    ensures 0.0 < m
  {
    if decimalsX > decimalsY then Pow10(decimalsX - decimalsY)
    else
      QuotientPositive(1.0, Pow10(decimalsY - decimalsX));
      1.0 / Pow10(decimalsY - decimalsX)
  }

  lemma QuotientPositive(n: real, d: real)
    requires 0.0 < n && 0.0 < d
    ensures 0.0 < n / d
  {
    QuotientScales(n, d);
    if n / d <= 0.0 { ScaleMonotone(d, n / d, 0.0); assert false; }
  }

  /** What makes it the power of ten. */
  lemma {:induction false} Pow10Adds(m: nat, n: nat)
    ensures Pow10(0) == 1.0 && Pow10(1) == 10.0 && Pow10(m + n) == Times(Pow10(m), Pow10(n))
  {
    if m != 0 {
      Pow10Adds(m - 1, n);
      TenTimes(Pow10(m - 1), Pow10(n));
    }
  }

  lemma TenTimes(x: real, y: real)
    ensures 10.0 * (x * y) == (10.0 * x) * y
  {
  }

  /** The multiplier is the quotient of the two powers of ten, whichever is larger. */
  lemma MultiplierIsQuotient(decimalsX: Decimals, decimalsY: Decimals)
    ensures Times(CalcDenomChangeMultiplier(decimalsX, decimalsY), Pow10(decimalsY)) == Pow10(decimalsX)
  {
    if decimalsX > decimalsY {
      var n := decimalsX - decimalsY;
      Pow10Adds(n, decimalsY);
      assert CalcDenomChangeMultiplier(decimalsX, decimalsY) == Pow10(n);
    } else {
      var n := decimalsY - decimalsX;
      Pow10Cancels(n, decimalsX);
      assert CalcDenomChangeMultiplier(decimalsX, decimalsY) == 1.0 / Pow10(n);
    }
  }

  lemma Pow10Cancels(m: nat, n: nat)
    ensures Times(1.0 / Pow10(m), Pow10(m + n)) == Pow10(n)
  {
    Pow10Adds(m, n);
    QuotientScales(1.0, Pow10(m));
    Regroup(1.0 / Pow10(m), Pow10(m), Pow10(n));
  }

  lemma Regroup(q: real, k: real, x: real)
    requires k * q == 1.0
    ensures q * (k * x) == x
  {
    assert q * (k * x) == (k * q) * x;
  }

  // ---------------------------------------------------------------- prices

  function CalcPmtpFactor(rate: nat): (f: real)
    ensures 1.0 <= f
  {
    1.0 + DecToRat(rate)
  }

  /** The price of one X in Y before it is stored: depth ratio, running rate and decimals. */
  function ExactPrice(X: nat, Y: nat, decimalsX: Decimals, decimalsY: Decimals, rate: nat, isXNative: bool): real
    requires 0 < X
  {
    var price := Y as real / X as real;
    (if isXNative then price * CalcPmtpFactor(rate) else price / CalcPmtpFactor(rate))
    * CalcDenomChangeMultiplier(decimalsX, decimalsY)
  }

  /** `CalcSpotPriceX`: no price when the pool holds no X or the price overflows. */
  function CalcSpotPriceX(X: nat, Y: nat, decimalsX: Decimals, decimalsY: Decimals, rate: nat,
                          isXNative: bool): Option<int> {
    if X == 0 then None else RatToDec(ExactPrice(X, Y, decimalsX, decimalsY, rate, isXNative))
  }

  function CalcSpotPriceNative(pool: Pool, decimals: Decimals, rate: nat): Option<int> {
    var (X, Y) := pool.ExtractDebt(pool.nativeBalance, pool.externalBalance, false);
    CalcSpotPriceX(X, Y, NATIVE_DECIMALS, decimals, rate, true)
  }

  function CalcSpotPriceExternal(pool: Pool, decimals: Decimals, rate: nat): Option<int> {
    var (X, Y) := pool.ExtractDebt(pool.externalBalance, pool.nativeBalance, true);
    CalcSpotPriceX(X, Y, decimals, NATIVE_DECIMALS, rate, false)
  }

  lemma QuotientIs(m: real, px: real, py: real)
    requires 1.0 <= py && Times(m, py) == px
    ensures m == px / py
  {
    QuotientScales(px, py);
    CancelReal(py, m, px / py);
    CancelReal(py, px / py, m);
  }

  lemma MultiplierOf(decimalsX: Decimals, decimalsY: Decimals, m: real)
    requires m == Pow10(decimalsX) / Pow10(decimalsY)
    ensures CalcDenomChangeMultiplier(decimalsX, decimalsY) == m
  {
    MultiplierIsQuotient(decimalsX, decimalsY);
    QuotientIs(CalcDenomChangeMultiplier(decimalsX, decimalsY), Pow10(decimalsX), Pow10(decimalsY));
  }

  lemma PriceByParts(X: nat, Y: nat, decimalsX: Decimals, decimalsY: Decimals, rate: nat, isXNative: bool, k: real,
                     m: real)
    requires 0 < X && CalcPmtpFactor(rate) == k && CalcDenomChangeMultiplier(decimalsX, decimalsY) == m
    ensures ExactPrice(X, Y, decimalsX, decimalsY, rate, isXNative)
         == Times(if isXNative then Y as real / X as real * k else Y as real / X as real / k, m)
  {
  }

  lemma FactorOf(rate: nat, k: real)
    requires k == 1.0 + rate as real / 1_000_000_000_000_000_000.0
    ensures CalcPmtpFactor(rate) == k && 1.0 <= k
  {
  }

  /** The exact price of native: the ratio of depths, one plus the running rate, the quotient of the powers of ten. */
  lemma NativePriceIs(X: nat, Y: nat, decimalsX: Decimals, decimalsY: Decimals, rate: nat, k: real, m: real)
    requires 0 < X && k == 1.0 + rate as real / 1_000_000_000_000_000_000.0
    requires m == Pow10(decimalsX) / Pow10(decimalsY)
    ensures ExactPrice(X, Y, decimalsX, decimalsY, rate, true) == Times(Y as real / X as real * k, m)
  {
    MultiplierOf(decimalsX, decimalsY, m);
    FactorOf(rate, k);
    PriceByParts(X, Y, decimalsX, decimalsY, rate, true, k, m);
  }

  /** And of the external asset, where the running rate divides. */
  lemma ExternalPriceIs(X: nat, Y: nat, decimalsX: Decimals, decimalsY: Decimals, rate: nat, k: real, m: real)
    requires 0 < X && k == 1.0 + rate as real / 1_000_000_000_000_000_000.0
    requires m == Pow10(decimalsX) / Pow10(decimalsY)
    ensures 1.0 <= k && ExactPrice(X, Y, decimalsX, decimalsY, rate, false) == Times(Y as real / X as real / k, m)
  {
    MultiplierOf(decimalsX, decimalsY, m);
    FactorOf(rate, k);
    PriceByParts(X, Y, decimalsX, decimalsY, rate, false, k, m);
  }

  lemma ExactPriceNonNegative(X: nat, Y: nat, decimalsX: Decimals, decimalsY: Decimals, rate: nat, isXNative: bool)
    requires 0 < X
    ensures 0.0 <= ExactPrice(X, Y, decimalsX, decimalsY, rate, isXNative)
  {
    var price, f := Y as real / X as real, CalcPmtpFactor(rate);
    QuotientNonNegative(Y as real, X as real);
    ProductNonNegative(price, f);
    QuotientNonNegative(price, f);
    ProductNonNegative(if isXNative then price * f else price / f, CalcDenomChangeMultiplier(decimalsX, decimalsY));
  }

  lemma Reciprocal(x: real, y: real)
    requires 0.0 < x && 0.0 < y
    ensures (x / y) * (y / x) == 1.0
  {
    var p, q := x / y, y / x;
    QuotientScales(x, y);
    QuotientScales(y, x);
    OneByCancelling(x, y, p, q);
  }

  lemma OneByCancelling(x: real, y: real, p: real, q: real)
    requires 0.0 < x && 0.0 < y && y * p == x && x * q == y
    ensures p * q == 1.0
  {
    assert y * (p * q) == (y * p) * q == x * q;
    CancelReal(y, p * q, 1.0);
    CancelReal(y, 1.0, p * q);
  }

  lemma ReciprocalMultipliers(d: Decimals, e: Decimals)
    ensures CalcDenomChangeMultiplier(d, e) * CalcDenomChangeMultiplier(e, d) == 1.0
  {
    if d > e { QuotientScales(1.0, Pow10(d - e)); } else { QuotientScales(1.0, Pow10(e - d)); }
  }

  lemma ProductOfReciprocals(p: real, q: real, f: real, m: real, n: real)
    requires p * q == 1.0 && 0.0 < f && m * n == 1.0
    ensures (p * f * m) * (q / f * n) == 1.0
  {
    var g := q / f;
    QuotientScales(q, f);
    assert (p * f * m) * (g * n) == (p * (f * g)) * (m * n);
  }

  /** Before truncation the two prices of a pool are exact reciprocals, at every running rate and any decimals. */
  lemma ExactPricesAreReciprocal(X: nat, Y: nat, d: Decimals, e: Decimals, rate: nat)
    requires 0 < X && 0 < Y
    ensures ExactPrice(X, Y, d, e, rate, true) * ExactPrice(Y, X, e, d, rate, false) == 1.0
  {
    Reciprocal(Y as real, X as real);
    ReciprocalMultipliers(d, e);
    ProductOfReciprocals(Y as real / X as real, X as real / Y as real, CalcPmtpFactor(rate),
      CalcDenomChangeMultiplier(d, e), CalcDenomChangeMultiplier(e, d));
  }

  lemma TruncatedProduct(n: int, e: int, a: real, b: real)
    requires 0 <= n && 0 <= e && a * b == 1.0 && 0.0 <= a
    requires n as real <= a * ONE as real && e as real <= b * ONE as real
    ensures n * e <= ONE * ONE
  {
    var k := ONE as real;
    ScaleMonotone(e as real, n as real, a * k);
    ProductNonNegative(a, k);
    ScaleMonotone(a * k, e as real, b * k);
    assert (a * k) * (b * k) == (a * b) * (k * k);
    ProductAsReal(n, e);
    ProductAsReal(ONE, ONE);
  }

  lemma StoredPrice(X: nat, Y: nat, d: Decimals, e: Decimals, rate: nat, isXNative: bool)
    requires CalcSpotPriceX(X, Y, d, e, rate, isXNative).Some?
    ensures 0 < X
    ensures var s := CalcSpotPriceX(X, Y, d, e, rate, isXNative).value;
      0 <= s && s as real <= ExactPrice(X, Y, d, e, rate, isXNative) * ONE as real < s as real + 1.0
  {
    var price := ExactPrice(X, Y, d, e, rate, isXNative);
    ExactPriceNonNegative(X, Y, d, e, rate, isXNative);
    ProductNonNegative(price, ONE as real);
    TruncatesTowardsZero(price);
  }

  /** There is no price exactly when the pool holds no X or the price needs more than 315 bits. */
  lemma PriceMissingIff(X: nat, Y: nat, d: Decimals, e: Decimals, rate: nat, isXNative: bool)
    ensures CalcSpotPriceX(X, Y, d, e, rate, isXNative).None?
       <==> X == 0 || LIMIT as real <= ExactPrice(X, Y, d, e, rate, isXNative) * ONE as real
  {
    if X != 0 {
      ExactPriceNonNegative(X, Y, d, e, rate, isXNative);
      ProductNonNegative(ExactPrice(X, Y, d, e, rate, isXNative), ONE as real);
    }
  }

  // ---------------------------------------------------------------- prices and swaps

  lemma SellingBelow(X: real, x: real, Y: real, y: real, k: real, q: real)
    requires 0.0 < X && 0.0 <= x && 0.0 <= y && (X + x) * y <= k * (x * Y) && X * q == Y
    ensures y <= x * (q * k)
  {
    ProductNonNegative(x, y);
    assert (X + x) * y == X * y + x * y;
    assert X * (x * (q * k)) == k * (x * (X * q));
    CancelReal(X, y, x * (q * k));
  }

  lemma BuyingBelow(X: real, x: real, Y: real, y: real, k: real, q: real, g: real)
    requires 0.0 < X && 0.0 < k && 0.0 <= x && 0.0 <= y && (X + x) * y * k <= x * Y && X * q == Y && k * g == q
    ensures y <= x * g
  {
    ProductNonNegative(x, y);
    ProductNonNegative(x * y, k);
    assert (X + x) * y * k == X * (k * y) + x * y * k;
    assert X * (x * q) == x * (X * q);
    CancelReal(X, k * y, x * q);
    assert k * (x * g) == x * (k * g);
    CancelReal(k, y, x * g);
  }

  lemma SameDecimals(X: nat, Y: nat, d: Decimals, rate: nat, isXNative: bool)
    requires 0 < X
    ensures ExactPrice(X, Y, d, d, rate, isXNative)
         == if isXNative then Y as real / X as real * CalcPmtpFactor(rate)
            else Y as real / X as real / CalcPmtpFactor(rate)
  {
    assert CalcDenomChangeMultiplier(d, d) == 1.0;
  }

  lemma CurveBelowSpot(toFury: bool, X: nat, x: nat, Y: nat, y: nat, rate: nat, d: Decimals)
    requires 0 < X && Swap.WithinCurve(toFury, X, x, Y, y, DecToRat(rate))
    ensures y as real <= x as real * ExactPrice(X, Y, d, d, rate, !toFury)
  {
    var q, k := Y as real / X as real, CalcPmtpFactor(rate);
    SameDecimals(X, Y, d, rate, !toFury);
    QuotientScales(Y as real, X as real);
    assert (X + x) as real == X as real + x as real;
    if toFury {
      QuotientScales(q, k);
      BuyingBelow(X as real, x as real, Y as real, y as real, k, q, q / k);
    } else {
      SellingBelow(X as real, x as real, Y as real, y as real, k, q);
    }
  }

  /** No swap, at any fee, pays better than the spot price of the asset sold. */
  lemma NoSwapBeatsSpot(toFury: bool, X: nat, x: nat, Y: nat, rate: nat, f: real, d: Decimals)
    requires 0 < X && 0.0 <= f <= 1.0
    ensures Swap.CalcSwapResult(toFury, X, x, Y, DecToRat(rate), f).0 as real
         <= x as real * ExactPrice(X, Y, d, d, rate, !toFury)
  {
    Swap.SwapResultWithinCurve(toFury, X, x, Y, DecToRat(rate), f);
    CurveBelowSpot(toFury, X, x, Y, Swap.CalcSwapResult(toFury, X, x, Y, DecToRat(rate), f).0, rate, d);
  }

  // ---------------------------------------------------------------- the stored pair

  /** What is stored for a price that could not be computed is zero. */
  function OrZero(price: Option<int>): int {
    if price.Some? then price.value else 0
  }

  datatype Prices = Prices(native: int, external: int)

  predicate Consistent(p: Prices) {
    0 <= p.native && 0 <= p.external && p.native * p.external <= ONE * ONE
  }

  function PoolPrices(pool: Pool, decimals: Decimals, rate: nat): Prices {
    Prices(OrZero(CalcSpotPriceNative(pool, decimals, rate)), OrZero(CalcSpotPriceExternal(pool, decimals, rate)))
  }

  /** What is stored of an exact price: its 18 digits, or zero when they do not fit. */
  ghost predicate IsStored(stored: int, price: real) {
    if price * ONE as real < LIMIT as real then stored as real <= price * ONE as real < stored as real + 1.0
    else stored == 0
  }

  /** The two stored prices of a pool, debts included: native in the external asset, and the other way round. */
  lemma PricesOfPool(pool: Pool, decimals: Decimals, rate: nat)
    ensures var R, A := pool.nativeBalance + pool.nativeLiabilities, pool.externalBalance + pool.externalLiabilities;
      var prices := PoolPrices(pool, decimals, rate);
      && (if R == 0 then prices.native == 0
          else IsStored(prices.native, ExactPrice(R, A, 18, decimals, rate, true)))
      && (if A == 0 then prices.external == 0
          else IsStored(prices.external, ExactPrice(A, R, decimals, 18, rate, false)))
  {
    var R, A := pool.nativeBalance + pool.nativeLiabilities, pool.externalBalance + pool.externalLiabilities;
    PriceMissingIff(R, A, 18, decimals, rate, true);
    PriceMissingIff(A, R, decimals, 18, rate, false);
    if CalcSpotPriceNative(pool, decimals, rate).Some? { StoredPrice(R, A, 18, decimals, rate, true); }
    if CalcSpotPriceExternal(pool, decimals, rate).Some? { StoredPrice(A, R, decimals, 18, rate, false); }
  }

  /**
   The stored prices of a pool multiply to at most one, for every pool, debts included, every running rate and any
   decimals, also when one of them overflows or has no depth.
   */
  lemma PricesAreConsistent(pool: Pool, decimals: Decimals, rate: nat)
    ensures Consistent(PoolPrices(pool, decimals, rate))
  {
    var (X, Y) := pool.ExtractDebt(pool.nativeBalance, pool.externalBalance, false);
    var n, e := CalcSpotPriceNative(pool, decimals, rate), CalcSpotPriceExternal(pool, decimals, rate);
    if n.Some? { StoredPrice(X, Y, NATIVE_DECIMALS, decimals, rate, true); }
    if e.Some? { StoredPrice(Y, X, decimals, NATIVE_DECIMALS, rate, false); }
    if n.Some? && e.Some? {
      var a := ExactPrice(X, Y, NATIVE_DECIMALS, decimals, rate, true);
      var b := ExactPrice(Y, X, decimals, NATIVE_DECIMALS, rate, false);
      ExactPricesAreReciprocal(X, Y, NATIVE_DECIMALS, decimals, rate);
      ExactPriceNonNegative(X, Y, NATIVE_DECIMALS, decimals, rate, true);
      TruncatedProduct(n.value, e.value, a, b);
    }
  }

  // ---------------------------------------------------------------- the price loop

  /** The stored prices of all pools, rewritten by every block's policy run. */
  class PriceKeeper {
    var prices: map<string, Prices>

    constructor ()
      ensures prices == map[]
    {
      prices := map[];
    }

    ghost predicate Valid()
      reads this
    {
      forall d | d in prices :: Consistent(prices[d])
    }

    /** `PolicyRun`: pools whose decimals are unknown keep the prices they have; all others are repriced. */
    method PolicyRun(order: seq<string>, pools: map<string, Pool>, decimals: map<string, Decimals>, rate: nat)
      requires forall d | d in order :: d in pools
      requires Valid()
      modifies this
      ensures Valid()
      ensures forall d | d in order && d in decimals ::
        d in prices && prices[d] == PoolPrices(pools[d], decimals[d], rate)
      ensures forall d | d !in order || d !in decimals :: d in prices <==> d in old(prices)
      ensures forall d | (d !in order || d !in decimals) && d in old(prices) :: prices[d] == old(prices[d])
    {
      for i := 0 to |order|
        invariant Valid()
        invariant forall d | d in order[..i] && d in decimals ::
          d in prices && prices[d] == PoolPrices(pools[d], decimals[d], rate)
        invariant forall d | d !in order[..i] || d !in decimals :: d in prices <==> d in old(prices)
        invariant forall d | (d !in order[..i] || d !in decimals) && d in old(prices) :: prices[d] == old(prices[d])
      {
        var d := order[i];
        if d !in decimals {
          continue;
        }
        var native := CalcSpotPriceNative(pools[d], decimals[d], rate);
        var external := CalcSpotPriceExternal(pools[d], decimals[d], rate);
        PricesAreConsistent(pools[d], decimals[d], rate);
        prices := prices[d := Prices(OrZero(native), OrZero(external))];
      }
      assert order[..|order|] == order;
    }
  }
}
