/** Runs that lie outside the conditions of the run theorems: each starts at genesis and is made of ordinary steps. */
module LedgerCases {
  import opened Options
  import opened Decimal
  import opened Pools
  import opened Unlocks
  import opened PoolUnits
  import opened Withdrawal
  import opened Ledger
  import opened LedgerInvariants
  import opened Payout
  import opened Rewards
  import opened LedgerDistribution
  import opened LedgerRun

  // ---------------------------------------------------------------- a pool left without units

  /** Create a pool, remove all but one unit, then ask for `w` basis points of the last one, then add again. */
  function EmptyingSteps(env: Env, a: Addr, asset: Denom, w: nat): seq<Step> {
    [Deliver(env, CreatePool(a, asset, ONE, ONE)),
     Deliver(env, RemoveLiquidityUnits(a, asset, ONE - 1)),
     Deliver(env, RemoveLiquidity(a, asset, w)),
     Deliver(env, AddLiquidity(a, asset, 1, 1))]
  }

  /** One pool, one provider, a module account that holds what the pool records, and a signer with coins left. */
  ghost predicate OnePool(l: Ledger, a: Addr, asset: Denom, native: nat, external: nat, units: nat, held: Option<nat>) {
    && 1 <= Balance(l.bank, a, FURY) && 1 <= Balance(l.bank, a, asset)
    && l.pools == map[asset := NewPool(native, external, units)]
    && l.providers == (if held.Some? then map[(asset, a) := Provider(held.value, [])] else map[])
    && Balance(l.bank, CLP, FURY) == native && Balance(l.bank, CLP, asset) == external
  }

  /** Nobody's coins moved but the signer's and the module account's. */
  ghost predicate OthersUntouched(before: Ledger, after: Ledger, a: Addr) {
    forall b, d | b != a && b != CLP :: Balance(after.bank, b, d) == Balance(before.bank, b, d)
  }

  lemma Created(l: Ledger, env: Env, a: Addr, asset: Denom, e: nat)
    requires env.Valid() && Genesis(l) && a != CLP && asset != FURY && 0 < e
    requires Balance(l.bank, a, FURY) > ONE && Balance(l.bank, a, asset) > e
    ensures HandleCreatePool(l, env, a, asset, ONE, e).Some?
    ensures var m := HandleCreatePool(l, env, a, asset, ONE, e).value;
      OnePool(m, a, asset, ONE, e, ONE, Some(ONE)) && OthersUntouched(l, m, a)
  {
  }

  /** Giving back all units but one of a new pool leaves one native token and `g` external ones. */
  ghost predicate LeavesOne(e: nat, g: nat) {
    0 < g <= e && CalculateWithdrawalFromUnits(ONE, ONE, e, ONE, ONE - 1) == Withdrawn(ONE - 1, e - g, 1)
  }

  lemma AllButOne(P: nat)
    requires P == ONE
    ensures CalculateWithdrawalFromUnits(P, P, P, P, P - 1) == Withdrawn(P - 1, P - 1, 1)
  {
    var q := Quo(FromInt(P), FromInt(P - 1));
    assert q == ONE + 1 by { assert Quo(FromInt(ONE), FromInt(ONE - 1)) == ONE + 1; }
    OneBelow(FromInt(P), q);
    UnitsLeftExact(P, P - 1);
  }

  lemma OneBelow(d: nat, q: nat)
    requires d == ONE * ONE && q == ONE + 1
    ensures RoundInt(Quo(d, q)) == ONE - 1
  {
    assert Quo(ONE * ONE, ONE + 1) == ONE * ONE - ONE + 1;
  }

  lemma LastButOneRemoved(l: Ledger, env: Env, a: Addr, asset: Denom, e: nat, g: nat)
    requires a != CLP && asset != FURY && env.params.lock == 0 && OnePool(l, a, asset, ONE, e, ONE, Some(ONE))
    requires LeavesOne(e, g)
    ensures HandleRemoveLiquidityUnits(l, env, a, asset, ONE - 1).Some?
    ensures var m := HandleRemoveLiquidityUnits(l, env, a, asset, ONE - 1).value;
      OnePool(m, a, asset, 1, g, 1, Some(1)) && OthersUntouched(l, m, a)
  {
    Paid(l, env, a, asset, Withdrawn(ONE - 1, e - g, 1), ONE, e, ONE);
  }

  lemma OneBasisPoint(w: nat)
    requires w == 1
    ensures CalculateWithdrawal(1, 1, 1, 1, w) == Withdrawn(0, 0, 0)
  {
    LeavesNothingIff(1, 1, 1, 1, w);
    QuoByOne(FromInt(MAX_W_BASIS));
    assert UnitsToClaim(1, w) == 100_000_000_000_000;
    assert Quo(FromInt(1), 100_000_000_000_000) == 10_000 * ONE;
    assert Quo(FromInt(1), 10_000 * ONE) == 100_000_000_000_000;
  }

  lemma LastRemoved(l: Ledger, env: Env, a: Addr, asset: Denom, n: nat, u: nat, w: nat)
    requires a != CLP && asset != FURY && env.params.lock == 0 && OnePool(l, a, asset, n, n, u, Some(u)) && 0 < n
    requires 1 <= w <= MAX_W_BASIS && CalculateWithdrawal(u, n, n, u, w) == Withdrawn(0, 0, 0)
    ensures HandleRemoveLiquidity(l, env, a, asset, w).Some?
    ensures OnePool(HandleRemoveLiquidity(l, env, a, asset, w).value, a, asset, n, n, 0, None)
  {
    Paid(l, env, a, asset, Withdrawn(0, 0, 0), n, n, u);
  }

  /** A removal from the only pool by its only provider. */
  lemma Paid(l: Ledger, env: Env, a: Addr, asset: Denom, out: Withdrawn, native: nat, external: nat, units: nat)
    requires a != CLP && asset != FURY && env.params.lock == 0
    requires OnePool(l, a, asset, native, external, units, Some(units))
    requires out.Withdrawn? && out.native < native && out.external < external && out.unitsLeft <= units
    ensures HandleWithdrawn(l, env, a, asset, out).Some?
    ensures var m := HandleWithdrawn(l, env, a, asset, out).value;
      && OnePool(m, a, asset, native - out.native, external - out.external, out.unitsLeft,
                 if out.unitsLeft == 0 then None else Some(out.unitsLeft))
      && OthersUntouched(l, m, a)
  {
  }

  lemma AddedToNoUnits(l: Ledger, env: Env, a: Addr, asset: Denom)
    requires env.Valid() && a != CLP && asset != FURY && OnePool(l, a, asset, 1, 1, 0, None)
    ensures HandleAddLiquidity(l, env, a, asset, 1, 1).Some?
    ensures WithoutUnits(HandleAddLiquidity(l, env, a, asset, 1, 1).value, a, asset)
  {
    SymmetryStateByCrossProduct(1, 1, 1, 1);
  }

  /** A pool with both sides and no units, and a provider recorded for it. */
  ghost predicate WithoutUnits(l: Ledger, a: Addr, asset: Denom) {
    l.pools == map[asset := NewPool(2, 2, 0)] && l.providers == map[(asset, a) := Provider(0, [])]
  }

  lemma Continued(earlier: seq<Ledger>, steps: seq<Step>, k: nat, m: Ledger) returns (states: seq<Ledger>)
    requires k < |steps| && IsRun(earlier, steps[..k]) && Next(earlier[k], steps[k], m)
    ensures IsRun(states, steps[..k + 1]) && states[k + 1] == m && states[..k + 1] == earlier
    ensures forall i | 0 <= i <= k :: states[i] == earlier[i]
  {
    states := earlier + [m];
    forall i | 0 <= i < k + 1 ensures Next(states[i], steps[..k + 1][i], states[i + 1]) {
      if i < k { assert Next(earlier[i], steps[..k][i], earlier[i + 1]); }
    }
  }

  lemma ThenCreates(l: Ledger, steps: seq<Step>, env: Env, a: Addr, asset: Denom, e: nat) returns (states: seq<Ledger>)
    requires env.Valid() && Genesis(l) && a != CLP && asset != FURY && 0 < e
    requires Balance(l.bank, a, FURY) > ONE && Balance(l.bank, a, asset) > e
    requires 0 < |steps| && steps[0] == Deliver(env, CreatePool(a, asset, ONE, e))
    ensures IsRun(states, steps[..1]) && states[0] == l && OnePool(states[1], a, asset, ONE, e, ONE, Some(ONE))
    ensures OthersUntouched(l, states[1], a)
  {
    Created(l, env, a, asset, e);
    var m := HandleCreatePool(l, env, a, asset, ONE, e).value;
    states := Continued([l], steps, 0, m);
  }

  lemma ThenRemovesUnits(earlier: seq<Ledger>, steps: seq<Step>, env: Env, a: Addr, asset: Denom, e: nat, g: nat)
    returns (states: seq<Ledger>)
    requires env.Valid() && a != CLP && asset != FURY && env.params.lock == 0 && LeavesOne(e, g)
    requires 1 < |steps| && steps[1] == Deliver(env, RemoveLiquidityUnits(a, asset, ONE - 1))
    requires IsRun(earlier, steps[..1])
    requires OnePool(earlier[1], a, asset, ONE, e, ONE, Some(ONE))
    ensures IsRun(states, steps[..2]) && states[0] == earlier[0] && OnePool(states[2], a, asset, 1, g, 1, Some(1))
    ensures OthersUntouched(earlier[1], states[2], a)
  {
    LastButOneRemoved(earlier[1], env, a, asset, e, g);
    var m := HandleRemoveLiquidityUnits(earlier[1], env, a, asset, ONE - 1).value;
    states := Continued(earlier, steps, 1, m);
  }

  /** The two messages every run here begins with: a pool is created, and all its units but one are removed. */
  lemma Begun(l: Ledger, steps: seq<Step>, env: Env, a: Addr, asset: Denom, e: nat, g: nat)
    returns (states: seq<Ledger>)
    requires env.Valid() && Genesis(l) && a != CLP && asset != FURY && env.params.lock == 0 && LeavesOne(e, g)
    requires Balance(l.bank, a, FURY) > ONE && Balance(l.bank, a, asset) > e
    requires 1 < |steps| && steps[0] == Deliver(env, CreatePool(a, asset, ONE, e))
    requires steps[1] == Deliver(env, RemoveLiquidityUnits(a, asset, ONE - 1))
    ensures IsRun(states, steps[..2]) && states[0] == l && OnePool(states[2], a, asset, 1, g, 1, Some(1))
    ensures OthersUntouched(l, states[2], a)
  {
    states := ThenCreates(l, steps, env, a, asset, e);
    states := ThenRemovesUnits(states, steps, env, a, asset, e, g);
  }

  lemma ThenRemovesLast(earlier: seq<Ledger>, steps: seq<Step>, env: Env, a: Addr, asset: Denom, n: nat, u: nat, w: nat)
    returns (states: seq<Ledger>)
    requires env.Valid() && a != CLP && asset != FURY && env.params.lock == 0 && 0 < n
    requires 1 <= w <= MAX_W_BASIS && CalculateWithdrawal(u, n, n, u, w) == Withdrawn(0, 0, 0)
    requires 2 < |steps| && steps[2] == Deliver(env, RemoveLiquidity(a, asset, w)) && IsRun(earlier, steps[..2])
    requires OnePool(earlier[2], a, asset, n, n, u, Some(u))
    ensures IsRun(states, steps[..3]) && states[0] == earlier[0] && OnePool(states[3], a, asset, n, n, 0, None)
  {
    LastRemoved(earlier[2], env, a, asset, n, u, w);
    var m := HandleRemoveLiquidity(earlier[2], env, a, asset, w).value;
    states := Continued(earlier, steps, 2, m);
  }

  lemma ThenAdds(earlier: seq<Ledger>, steps: seq<Step>, env: Env, a: Addr, asset: Denom) returns (states: seq<Ledger>)
    requires env.Valid() && a != CLP && asset != FURY
    requires 3 < |steps| && steps[3] == Deliver(env, AddLiquidity(a, asset, 1, 1)) && IsRun(earlier, steps[..3])
    requires OnePool(earlier[3], a, asset, 1, 1, 0, None)
    ensures IsRun(states, steps[..4]) && states[0] == earlier[0] && WithoutUnits(states[4], a, asset)
  {
    AddedToNoUnits(earlier[3], env, a, asset);
    var m := HandleAddLiquidity(earlier[3], env, a, asset, 1, 1).value;
    states := Continued(earlier, steps, 3, m);
  }

  /**
   Reached from genesis by one account and four messages: a pool with both sides and no units, and a provider listed for
   it. The next payout of any rate, and the next distribution that rewards the pool, divides by zero.
   */
  lemma PoolWithoutUnitsIsReachable(l: Ledger, env: Env, a: Addr, asset: Denom, w: nat) returns (states: seq<Ledger>)
    requires env.Valid() && Genesis(l) && a != CLP && asset != FURY && env.params.lock == 0 && w == 1
    requires Balance(l.bank, a, FURY) > ONE && Balance(l.bank, a, asset) > ONE
    ensures IsRun(states, EmptyingSteps(env, a, asset, w)) && states[0] == l && WithoutUnits(states[4], a, asset)
    ensures ListsOf(states[4], [asset], map[asset := [Listed(a, 0)]])
    ensures !Payable([asset], states[4].pools, map[asset := [Listed(a, 0)]])
  {
    var steps := EmptyingSteps(env, a, asset, w);
    AllButOne(ONE);
    states := Begun(l, steps, env, a, asset, ONE, 1);
    OneBasisPoint(w);
    states := ThenRemovesLast(states, steps, env, a, asset, 1, 1, w);
    states := ThenAdds(states, steps, env, a, asset);
    assert steps[..4] == steps;
    PanicsWithoutUnits(states[4], a, asset);
  }

  lemma PanicsWithoutUnits(l: Ledger, a: Addr, asset: Denom)
    requires WithoutUnits(l, a, asset)
    ensures ListsOf(l, [asset], map[asset := [Listed(a, 0)]])
    ensures !Payable([asset], l.pools, map[asset := [Listed(a, 0)]])
  {
    assert asset in [asset];
  }

  // ---------------------------------------------------------------- a reward to a pool without providers

  /** Every pool counts alike, and rewards are paid out. */
  const PAYING: Period := Period(map[], ONE, true)

  /** The first three emptying steps, then a distribution of `block`. With no provider left there is no list. */
  function UnbackingSteps(env: Env, a: Addr, asset: Denom, w: nat, block: nat): seq<Step> {
    EmptyingSteps(env, a, asset, w)[..3] + [RewardBlock([asset], map[], block, PAYING, {})]
  }

  /** The only pool gets the whole distribution. */
  lemma WholeReward(asset: Denom, pools: map<Denom, Pool>, block: nat)
    requires asset in pools && 0 < pools[asset].nativeBalance && 0 < block
    ensures RewardTuples([asset], pools, block, PAYING) == [PoolReward(asset, block)]
  {
    var native := pools[asset].nativeBalance;
    WeightedDepth(native, ONE);
    assert [asset][..0] == [] && TotalDepth([], pools, PAYING) == 0;
    assert TotalDepth([asset], pools, PAYING) == native * ONE;
    QuoBySelf(native * ONE);
    assert ONE * FromInt(block) == FromInt(block) * ONE;
    ChopExact(FromInt(block));
    var share := PoolShare(pools, block, native * ONE, PAYING);
    assert share(asset) == block;
    assert Tuples([], share, block) == ([], 0);
  }

  lemma OneRewardStep(l: Ledger, m: Ledger, asset: Denom, block: nat)
    requires asset in l.pools && m == l.(pools := WithReward(l.pools, asset, block))
    ensures RewardStep(l, m, [PoolReward(asset, block)], map[], true, {})
    ensures CreditedSum([PoolReward(asset, block)], map[], true) == block
  {
    var tuples := [PoolReward(asset, block)];
    assert tuples[..0] == [];
    assert CreditedPools(l.pools, [], map[], true) == l.pools && CreditedSum([], map[], true) == 0;
    assert CreditedPools(l.pools, tuples, map[], true) == m.pools;
    assert RewardEntries([], l.pools, map[]) == [];
    assert RewardEntries(tuples, l.pools, map[]) == [];
    assert forall b :: OwedTo([], b) == 0;
  }

  lemma RewardWithoutBacking(l: Ledger, asset: Denom, block: nat) returns (m: Ledger)
    requires asset != FURY && l.pools.Keys == {asset} && 0 < l.pools[asset].nativeBalance && 0 < block
    ensures Next(l, RewardBlock([asset], map[], block, PAYING, {}), m)
    ensures Surplus(m, FURY) == Surplus(l, FURY) - block
  {
    WholeReward(asset, l.pools, block);
    m := l.(pools := WithReward(l.pools, asset, block));
    OneRewardStep(l, m, asset, block);
    RewardSurplus(l, m, [PoolReward(asset, block)], map[], true, {});
    assert ListsOf(l, [asset], map[]);
  }

  lemma CheckThenShort(l: Ledger, a: Addr, asset: Denom, n: nat, block: nat) returns (m: Ledger)
    requires asset != FURY && 0 < n && 0 < block && OnePool(l, a, asset, n, n, 0, None)
    ensures Next(l, RewardBlock([asset], map[], block, PAYING, {}), m)
    ensures BalanceModuleAccountCheck(l) && Surplus(m, FURY) == 0 - block
  {
    NothingElseHeld(l, asset, l.pools[asset]);
    m := RewardWithoutBacking(l, asset, block);
  }

  lemma ThenRewards(earlier: seq<Ledger>, steps: seq<Step>, a: Addr, asset: Denom, n: nat, block: nat)
    returns (states: seq<Ledger>)
    requires asset != FURY && 0 < n && 0 < block && 3 < |steps| && IsRun(earlier, steps[..3])
    requires steps[3] == RewardBlock([asset], map[], block, PAYING, {}) && OnePool(earlier[3], a, asset, n, n, 0, None)
    ensures IsRun(states, steps[..4]) && states[0] == earlier[0]
    ensures BalanceModuleAccountCheck(states[3]) && Surplus(states[4], FURY) == 0 - block
  {
    var m := CheckThenShort(earlier[3], a, asset, n, block);
    states := Continued(earlier, steps, 3, m);
  }

  /**
   Reached from genesis by three messages and one block: the balance check holds, then a distribution credits the pool
   that has no providers, the coins are burned again, and the module account is short by the whole distribution.
   */
  lemma RewardCanLoseBacking(l: Ledger, env: Env, a: Addr, asset: Denom, w: nat, block: nat)
    returns (states: seq<Ledger>)
    requires env.Valid() && Genesis(l) && a != CLP && asset != FURY && env.params.lock == 0 && w == 1 && 0 < block
    requires Balance(l.bank, a, FURY) > ONE && Balance(l.bank, a, asset) > ONE
    ensures IsRun(states, UnbackingSteps(env, a, asset, w, block)) && states[0] == l
    ensures BalanceModuleAccountCheck(states[3]) && Surplus(states[4], FURY) == 0 - block
  {
    var steps := UnbackingSteps(env, a, asset, w, block);
    AllButOne(ONE);
    states := Begun(l, steps, env, a, asset, ONE, 1);
    OneBasisPoint(w);
    states := ThenRemovesLast(states, steps, env, a, asset, w, w, w);
    states := ThenRewards(states, steps, a, asset, w, block);
    assert steps[..4] == steps;
  }

  // ---------------------------------------------------------------- a payout of a whole depth

  function OnlyList(asset: Denom, a: Addr): map<Denom, seq<Listed>> {
    map[asset := [Listed(a, 1)]]
  }

  /** The first two emptying steps, then a payout at `rate`, then an add to the emptied pool. */
  function DrainingSteps(env: Env, a: Addr, asset: Denom, rate: nat, n: nat): seq<Step> {
    EmptyingSteps(env, a, asset, n)[..2]
    + [PayoutBlock([asset], OnlyList(asset, a), rate, {}), Deliver(env, AddLiquidity(a, asset, n, n))]
  }

  /** The only provider of a pool of depth one is owed all of it. */
  lemma WholeDepthOwed(asset: Denom, a: Addr, rate: nat)
    requires HALF < rate <= ONE
    ensures EntriesFor(asset, 1, rate, 1, [Listed(a, 1)]) == [Entry(a, asset, 1)]
  {
    HigherRatesCanEmpty(rate);
    QuoBySelf(FromInt(1));
    assert Mul(rate, FromInt(1)) == rate by { ChopExact(rate); }
    assert Mul(ONE, rate) == rate by { ChopExact(rate); }
    assert CalcProviderDistributionAmount(rate, 1, 1) == 1;
    assert [Listed(a, 1)][..0] == [];
    assert PoolEntries(asset, rate, 1, 1, []) == ([], 0);
  }

  lemma OneEntry(asset: Denom, a: Addr, pools: map<Denom, Pool>, rate: nat)
    requires asset in pools && pools[asset] == NewPool(1, 1, 1) && HALF < rate <= ONE
    ensures Payable([asset], pools, OnlyList(asset, a))
    ensures AllEntries([asset], pools, OnlyList(asset, a), rate) == [Entry(a, asset, 1)]
  {
    WholeDepthOwed(asset, a, rate);
    assert [asset][..0] == [] && asset in [asset];
    assert AllEntries([], pools, OnlyList(asset, a), rate) == [];
  }

  lemma PaidToOne(l: Ledger, m: Ledger, e: Entry, p: Pool)
    requires e.addr != CLP && l.pools == map[e.pool := p] && e.amount <= p.nativeBalance
    requires e.amount <= Balance(l.bank, CLP, FURY)
    requires m == l.(pools := map[e.pool := p.(nativeBalance := p.nativeBalance - e.amount)],
                     bank := Send(l.bank, CLP, e.addr, FURY, e.amount).value)
    ensures PayoutStep(l, m, [e], {})
  {
    SumsOfOne(e);
  }

  lemma Drained(l: Ledger, a: Addr, asset: Denom, rate: nat) returns (m: Ledger)
    requires a != CLP && asset != FURY && HALF < rate <= ONE && OnePool(l, a, asset, 1, 1, 1, Some(1))
    ensures Next(l, PayoutBlock([asset], OnlyList(asset, a), rate, {}), m)
    ensures OnePool(m, a, asset, 0, 1, 1, Some(1))
  {
    OneEntry(asset, a, l.pools, rate);
    m := l.(pools := map[asset := NewPool(0, 1, 1)], bank := Send(l.bank, CLP, a, FURY, 1).value);
    PaidToOne(l, m, Entry(a, asset, 1), NewPool(1, 1, 1));
    assert ListsOf(l, [asset], OnlyList(asset, a));
  }

  lemma SumsOfOne(e: Entry)
    ensures forall d :: OwedBy([e], d, {}) == if d == e.pool then e.amount else 0
    ensures forall a :: OwedTo([e], a) == if a == e.addr then e.amount else 0
    ensures OwedAll([e], {}) == e.amount
  {
    assert [e][1..] == [];
    forall d ensures OwedBy([e], d, {}) == if d == e.pool then e.amount else 0 { assert OwedBy([], d, {}) == 0; }
    forall a ensures OwedTo([e], a) == if a == e.addr then e.amount else 0 { assert OwedTo([], a) == 0; }
  }

  lemma OneProviderMatches(l: Ledger, a: Addr, asset: Denom, native: nat, external: nat, units: nat)
    requires a != CLP && asset != FURY && OnePool(l, a, asset, native, external, units, Some(units))
    ensures WellFormed(l) && UnitsMatch(l)
  {
    var none: map<ProviderKey, Provider> := map[];
    UnitsUpdate(none, (asset, a), Provider(units, []), asset);
    assert UnitsByProvider(none, asset) == map[];
    assert none[(asset, a) := Provider(units, [])] == l.providers;
    assert ProviderUnits(l, asset) == units;
  }

  lemma AddedToDrained(l: Ledger, env: Env, a: Addr, asset: Denom, n: nat)
    requires env.Valid() && a != CLP && asset != FURY && n == 1 && OnePool(l, a, asset, 0, n, n, Some(n))
    ensures HandleAddLiquidity(l, env, a, asset, n, n).Some?
    ensures UnitsMatch(l) && !AllOpen(l) && !UnitsMatch(HandleAddLiquidity(l, env, a, asset, n, n).value)
  {
    OneProviderMatches(l, a, asset, 0, n, n);
    assert !IsOpen(l.pools[asset]);
    AddKeepsUnitsIff(l, env, a, asset, n, n);
  }

  lemma AddedNext(l: Ledger, env: Env, a: Addr, asset: Denom, n: nat) returns (m: Ledger)
    requires env.Valid() && a != CLP && asset != FURY && n == 1 && OnePool(l, a, asset, 0, n, n, Some(n))
    ensures Next(l, Deliver(env, AddLiquidity(a, asset, n, n)), m)
    ensures UnitsMatch(l) && !AllOpen(l) && !UnitsMatch(m)
  {
    AddedToDrained(l, env, a, asset, n);
    m := HandleAddLiquidity(l, env, a, asset, n, n).value;
  }

  lemma ThenDrains(earlier: seq<Ledger>, steps: seq<Step>, a: Addr, asset: Denom, rate: nat)
    returns (states: seq<Ledger>)
    requires a != CLP && asset != FURY && HALF < rate <= ONE && 2 < |steps| && IsRun(earlier, steps[..2])
    requires steps[2] == PayoutBlock([asset], OnlyList(asset, a), rate, {})
    requires OnePool(earlier[2], a, asset, 1, 1, 1, Some(1))
    ensures IsRun(states, steps[..3]) && states[0] == earlier[0] && states[2] == earlier[2]
    ensures OnePool(states[3], a, asset, 0, 1, 1, Some(1))
  {
    var m := Drained(earlier[2], a, asset, rate);
    states := Continued(earlier, steps, 2, m);
  }

  lemma ThenRecounts(earlier: seq<Ledger>, steps: seq<Step>, env: Env, a: Addr, asset: Denom, n: nat)
    returns (states: seq<Ledger>)
    requires env.Valid() && a != CLP && asset != FURY && n == 1 && 3 < |steps| && IsRun(earlier, steps[..3])
    requires steps[3] == Deliver(env, AddLiquidity(a, asset, n, n)) && OnePool(earlier[3], a, asset, 0, n, n, Some(n))
    ensures IsRun(states, steps[..4]) && states[0] == earlier[0] && states[2] == earlier[2]
    ensures !AllOpen(states[3]) && UnitsMatch(states[3]) && !UnitsMatch(states[4])
  {
    var m := AddedNext(earlier[3], env, a, asset, n);
    states := Continued(earlier, steps, 3, m);
  }

  /**
   Reached from genesis at every rate above one half: a payout takes the whole native side of a pool, and the next add
   counts the pool's units afresh while its provider keeps the old ones.
   */
  lemma PayoutCanEmptyPool(l: Ledger, env: Env, a: Addr, asset: Denom, rate: nat, n: nat)
    returns (states: seq<Ledger>)
    requires env.Valid() && Genesis(l) && a != CLP && asset != FURY && env.params.lock == 0
    requires HALF < rate <= ONE && n == 1
    requires Balance(l.bank, a, FURY) > ONE && Balance(l.bank, a, asset) > ONE
    ensures IsRun(states, DrainingSteps(env, a, asset, rate, n)) && states[0] == l
    ensures OnePool(states[2], a, asset, 1, 1, 1, Some(1))
    ensures !AllOpen(states[3]) && UnitsMatch(states[3]) && !UnitsMatch(states[4])
  {
    var steps := DrainingSteps(env, a, asset, rate, n);
    AllButOne(ONE);
    states := Begun(l, steps, env, a, asset, ONE, 1);
    states := ThenDrains(states, steps, a, asset, rate);
    states := ThenRecounts(states, steps, env, a, asset, n);
    assert steps[..4] == steps;
  }

  lemma NothingElseHeld(l: Ledger, asset: Denom, p: Pool)
    requires asset != FURY && l.pools == map[asset := p]
    requires Balance(l.bank, CLP, FURY) == p.nativeBalance + p.nativeCustody
    requires Balance(l.bank, CLP, asset) == p.externalBalance + p.externalCustody
    ensures BalanceModuleAccountCheck(l)
  {
    HoldingsUpdate(map[], asset, p);
    assert map[][asset := p] == l.pools;
    assert NativeHoldings(map[]) == map[];
  }
}
