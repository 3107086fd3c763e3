/** Winding a pool up: when it succeeds, and runs from genesis in which rounding leaves coins behind or refuses it. */
module WindUp {
  import opened Options
  import opened Decimal
  import opened Pools
  import opened Unlocks
  import opened PoolUnits
  import opened Withdrawal
  import opened Sums
  import opened Ledger
  import opened LedgerInvariants
  import opened Trades
  import opened Settlement
  import opened Payout
  import opened LedgerRun
  import opened LedgerCases

  // ---------------------------------------------------------------- when it succeeds

  /** What a provider of a pool being wound up is refunded. */
  function RefundOf(p: Pool, units: nat): Withdrawn {
    CalculateWithdrawal(p.units, p.NativeDepth(), p.ExternalDepth(), units, MAX_W_BASIS)
  }

  lemma RefundedIff(p: Pool, units: nat)
    requires units <= p.units
    ensures RefundOf(p, units).Withdrawn? <==> 0 < units
  {
    if units == 0 {
      ClaimWithinUnits(0, MAX_W_BASIS);
    } else {
      WithdrawalSafe(p.units, p.NativeDepth(), p.ExternalDepth(), units, MAX_W_BASIS);
    }
  }

  /** The module account holds what the refunds are taken from, and the units left are at least the providers'. */
  ghost predicate Covers(p: Pool, asset: Denom, r: Refunding) {
    && r.native <= Balance(r.bank, CLP, FURY) && r.external <= Balance(r.bank, CLP, asset)
    && MapSum(UnitsByProvider(r.providers, asset)) <= r.units <= p.units
  }

  lemma ProviderUnitsWithin(providers: map<ProviderKey, Provider>, asset: Denom, a: Addr)
    requires (asset, a) in providers
    ensures providers[(asset, a)].units <= MapSum(UnitsByProvider(providers, asset))
  {
    MapSumMember(UnitsByProvider(providers, asset), (asset, a));
  }

  /** One refund: refused only to a provider without units, or when the running subtractions go below zero. */
  lemma RefundOneIff(p: Pool, asset: Denom, r: Refunding, a: Addr)
    requires asset != FURY && a != CLP && Covers(p, asset, r) && (asset, a) in r.providers
    ensures var out := RefundOf(p, r.providers[(asset, a)].units);
      RefundOne(p, asset, r, a).Some?
      <==> 0 < r.providers[(asset, a)].units && out.Withdrawn? && out.native <= r.native && out.external <= r.external
  {
    ProviderUnitsWithin(r.providers, asset, a);
    RefundedIff(p, r.providers[(asset, a)].units);
    var out := RefundOf(p, r.providers[(asset, a)].units);
    if out.Withdrawn? { BothSent(r.bank, CLP, a, asset, out.external, FURY, out.native); }
  }

  lemma RefundOneCovers(p: Pool, asset: Denom, r: Refunding, a: Addr)
    requires asset != FURY && a != CLP && Covers(p, asset, r) && RefundOne(p, asset, r, a).Some?
    ensures var s := RefundOne(p, asset, r, a).value;
      Covers(p, asset, s) && s.providers == r.providers - {(asset, a)}
  {
    RefundOneBalances(p, asset, r, a);
    UnitsRemove(r.providers, (asset, a), asset);
  }

  /** Every listed provider once, each with units, and the refunds together within both balances. */
  ghost predicate Refundable(p: Pool, asset: Denom, r: Refunding, order: seq<Addr>) {
    && NoRepeats(order)
    && (forall a | a in order :: (asset, a) in r.providers && 0 < r.providers[(asset, a)].units)
    && RefundTotals(p, asset, r.providers, order).0 <= r.native
    && RefundTotals(p, asset, r.providers, order).1 <= r.external
  }

  /** The providers that are left once those in `order` have been refunded. */
  ghost predicate Refunded(asset: Denom, order: seq<Addr>, before: map<ProviderKey, Provider>,
                           after: map<ProviderKey, Provider>) {
    && (forall k | k in after :: k in before && after[k] == before[k])
    && forall k | k in before :: k in after <==> !(k.0 == asset && k.1 in order)
  }

  lemma RefundedOneMore(asset: Denom, init: seq<Addr>, a: Addr, before: map<ProviderKey, Provider>,
                        during: map<ProviderKey, Provider>, after: map<ProviderKey, Provider>)
    requires Refunded(asset, init, before, during) && after == during - {(asset, a)}
    ensures Refunded(asset, init + [a], before, after)
  {
  }

  lemma RefundableOneMore(p: Pool, asset: Denom, r: Refunding, init: seq<Addr>, a: Addr)
    ensures Refundable(p, asset, r, init + [a])
       <==> && Refundable(p, asset, r, init) && a !in init
            && (asset, a) in r.providers && 0 < r.providers[(asset, a)].units
            && RefundTotals(p, asset, r.providers, init + [a]).0 <= r.native
            && RefundTotals(p, asset, r.providers, init + [a]).1 <= r.external
  {
    var order := init + [a];
    assert order[..|order| - 1] == init && order[|order| - 1] == a && a in order;
    assert forall b | b in init :: b in order;
    assert forall i | 0 <= i < |init| :: order[i] == init[i];
    assert order[|init|] == a;
  }

  lemma {:induction false} RefundAllIff(p: Pool, asset: Denom, r: Refunding, order: seq<Addr>)
    requires asset != FURY && CLP !in order && Covers(p, asset, r)
    ensures RefundAll(p, asset, r, order).Some? <==> Refundable(p, asset, r, order)
    ensures RefundAll(p, asset, r, order).Some? ==>
      var s := RefundAll(p, asset, r, order).value;
      Covers(p, asset, s) && Refunded(asset, order, r.providers, s.providers)
  {
    if order != [] {
      var init, a := order[..|order| - 1], order[|order| - 1];
      RefundAllIff(p, asset, r, init);
      assert init + [a] == order;
      RefundableOneMore(p, asset, r, init, a);
      if RefundAll(p, asset, r, init).Some? {
        RefundAllLeaves(p, asset, r, init);
        LastRefundIff(p, asset, r, RefundAll(p, asset, r, init).value, init, a);
      }
    }
  }

  lemma LastRefundIff(p: Pool, asset: Denom, r: Refunding, s: Refunding, init: seq<Addr>, a: Addr)
    requires asset != FURY && a != CLP && Covers(p, asset, s) && Refunded(asset, init, r.providers, s.providers)
    requires s.native == r.native - RefundTotals(p, asset, r.providers, init).0
    requires s.external == r.external - RefundTotals(p, asset, r.providers, init).1
    ensures RefundOne(p, asset, s, a).Some?
       <==> && a !in init && (asset, a) in r.providers && 0 < r.providers[(asset, a)].units
            && RefundTotals(p, asset, r.providers, init + [a]).0 <= r.native
            && RefundTotals(p, asset, r.providers, init + [a]).1 <= r.external
    ensures RefundOne(p, asset, s, a).Some? ==>
      var t := RefundOne(p, asset, s, a).value;
      Covers(p, asset, t) && Refunded(asset, init + [a], r.providers, t.providers)
  {
    assert (init + [a])[..|init + [a]| - 1] == init;
    if (asset, a) in s.providers {
      RefundOneIff(p, asset, s, a);
      ProviderUnitsWithin(s.providers, asset, a);
      RefundedIff(p, s.providers[(asset, a)].units);
    }
    if RefundOne(p, asset, s, a).Some? {
      RefundOneCovers(p, asset, s, a);
      RefundedOneMore(asset, init, a, r.providers, s.providers, RefundOne(p, asset, s, a).value.providers);
    }
  }

  /**
   From a backed ledger a pool below the threshold is wound up exactly when every listed provider has units and the
   refunds together fit both balances. Rounding can make them exceed one, and then the wind-up is refused.
   */
  lemma DecommissionSucceedsIff(l: Ledger, asset: Denom, order: seq<Addr>)
    requires Backed(l) && Invariant(l) && CLP !in order
    ensures HandleDecommission(l, asset, order).Some?
       <==> && asset in l.pools && l.pools[asset].nativeBalance < POOL_THRESHOLD && NoRepeats(order)
            && (forall a | a in order :: (asset, a) in l.providers && 0 < l.providers[(asset, a)].units)
            && var p := l.pools[asset];
               var refunded := RefundTotals(p, asset, l.providers, order);
               refunded.0 <= p.nativeBalance && refunded.1 <= p.externalBalance
  {
    if asset in l.pools {
      var p := l.pools[asset];
      BackedHolds(l, asset);
      assert p.units == ProviderUnits(l, asset);
      RefundAllIff(p, asset, Refunding(l.bank, l.providers, p.nativeBalance, p.externalBalance, p.units), order);
    }
  }

  // ---------------------------------------------------------------- who is refunded

  /** What of a coin an account is refunded when the providers in `order` are. */
  ghost function RefundTo(p: Pool, asset: Denom, providers: map<ProviderKey, Provider>, order: seq<Addr>, b: Addr,
                          c: Denom): nat {
    if b !in order || (asset, b) !in providers || RefundOf(p, providers[(asset, b)].units).Panic? then 0
    else
      var out := RefundOf(p, providers[(asset, b)].units);
      if c == asset then out.external else if c == FURY then out.native else 0
  }

  /** Every account gained its own refund, the module account paid them all, and no other balance changed. */
  ghost predicate RefundsPaid(before: Bank, after: Bank, p: Pool, asset: Denom, providers: map<ProviderKey, Provider>,
                              order: seq<Addr>) {
    forall b, c :: Balance(after, b, c) ==
      if b == CLP then Balance(before, b, c) - TotalRefunds(p, asset, providers, order, c)
      else Balance(before, b, c) + RefundTo(p, asset, providers, order, b, c)
  }

  ghost function TotalRefunds(p: Pool, asset: Denom, providers: map<ProviderKey, Provider>, order: seq<Addr>,
                              c: Denom): nat {
    var (native, external) := RefundTotals(p, asset, providers, order);
    if c == asset then external else if c == FURY then native else 0
  }

  lemma OneMoreRefund(before: Bank, during: Bank, after: Bank, p: Pool, asset: Denom,
                      providers: map<ProviderKey, Provider>, init: seq<Addr>, a: Addr, out: Withdrawn)
    requires a != CLP && a !in init && asset != FURY && (asset, a) in providers && CLP !in init
    requires out.Withdrawn? && out == RefundOf(p, providers[(asset, a)].units)
    requires RefundsPaid(before, during, p, asset, providers, init)
    requires Moved(during, after, CLP, a, asset, out.external, out.native)
    ensures RefundsPaid(before, after, p, asset, providers, init + [a])
  {
    var order := init + [a];
    assert order[..|order| - 1] == init && order[|order| - 1] == a;
    forall b, c ensures TotalRefunds(p, asset, providers, order, c)
                     == TotalRefunds(p, asset, providers, init, c) + RefundTo(p, asset, providers, order, a, c)
      ensures b != a ==> RefundTo(p, asset, providers, order, b, c) == RefundTo(p, asset, providers, init, b, c)
      ensures RefundTo(p, asset, providers, init, a, c) == 0
    {
    }
  }

  lemma {:induction false} RefundAllPays(p: Pool, asset: Denom, r: Refunding, order: seq<Addr>)
    requires asset != FURY && CLP !in order && RefundAll(p, asset, r, order).Some?
    ensures RefundsPaid(r.bank, RefundAll(p, asset, r, order).value.bank, p, asset, r.providers, order)
    ensures Refunded(asset, order, r.providers, RefundAll(p, asset, r, order).value.providers)
  {
    if order != [] {
      var init, a := order[..|order| - 1], order[|order| - 1];
      RefundAllPays(p, asset, r, init);
      assert init + [a] == order;
      var s, t := RefundAll(p, asset, r, init).value, RefundAll(p, asset, r, order).value;
      var out := RefundOf(p, s.providers[(asset, a)].units);
      BothMoved(s.bank, t.bank, CLP, a, asset, out.external, out.native);
      OneMoreRefund(r.bank, s.bank, t.bank, p, asset, r.providers, init, a, out);
      RefundedOneMore(asset, init, a, r.providers, s.providers, t.providers);
    }
  }

  /**
   A wind-up refunds each listed provider, and nobody else, its own share of the pool as it was; it deletes exactly the
   pool and those providers.
   */
  lemma DecommissionSettles(l: Ledger, asset: Denom, order: seq<Addr>)
    requires FURY !in l.pools && CLP !in order && HandleDecommission(l, asset, order).Some?
    ensures asset in l.pools
    ensures var m := HandleDecommission(l, asset, order).value;
      && RefundsPaid(l.bank, m.bank, l.pools[asset], asset, l.providers, order)
      && Refunded(asset, order, l.providers, m.providers)
      && m == l.(bank := m.bank, providers := m.providers, pools := l.pools - {asset})
  {
    var p := l.pools[asset];
    RefundAllPays(p, asset, Refunding(l.bank, l.providers, p.nativeBalance, p.externalBalance, p.units), order);
  }

  // ---------------------------------------------------------------- two providers

  /** One pool, owned by `a` and `b`, and a module account that holds what it records. */
  ghost predicate TwoProviders(l: Ledger, asset: Denom, p: Pool, a: Addr, x: nat, b: Addr, y: nat) {
    && l.pools == map[asset := p] && p == NewPool(p.nativeBalance, p.externalBalance, p.units)
    && l.providers == map[(asset, a) := Provider(x, []), (asset, b) := Provider(y, [])]
    && Balance(l.bank, CLP, FURY) == p.nativeBalance && Balance(l.bank, CLP, asset) == p.externalBalance
  }

  /** Of a pool with one unit, a proportional add of `y` tokens gets `y` units. */
  lemma SecondIsIssued(env: Env, asset: Denom, n: nat, g: nat, y: nat)
    requires env.Valid() && 0 < g && 0 < y && n == 1
    ensures CalculatePoolUnits(n, n, g, y, y * g, env.SwapFeeRate(FURY), env.SwapFeeRate(asset), env.rate)
         == Issued(n + y, y, NoSwap, 0)
  {
    SymmetryStateByCrossProduct(g, y * g, n, y);
    assert CalculatePoolUnitsSymmetric(n, y, n) == (n + y, y);
  }

  lemma SecondAdds(l: Ledger, env: Env, a: Addr, b: Addr, asset: Denom, n: nat, g: nat, y: nat, z: nat)
    returns (m: Ledger)
    requires env.Valid() && a != CLP && b != CLP && a != b && asset != FURY && 0 < g && 0 < y && n == 1 && z == y * g
    requires OnePool(l, a, asset, n, g, n, Some(n)) && y <= Balance(l.bank, b, FURY) && z <= Balance(l.bank, b, asset)
    ensures Next(l, Deliver(env, AddLiquidity(b, asset, y, z)), m)
    ensures TwoProviders(m, asset, NewPool(n + y, g + z, n + y), a, n, b, y)
  {
    SecondIsIssued(env, asset, n, g, y);
    m := HandleAddLiquidity(l, env, b, asset, y, z).value;
  }

  /** A pool is created, all its units but one are removed, another account adds `y` and `z`, the pool is wound up. */
  function WindUpSteps(env: Env, a: Addr, b: Addr, asset: Denom, e: nat, y: nat, z: nat): seq<Step> {
    [Deliver(env, CreatePool(a, asset, ONE, e)),
     Deliver(env, RemoveLiquidityUnits(a, asset, ONE - 1)),
     Deliver(env, AddLiquidity(b, asset, y, z)),
     Decommission(asset, [a, b])]
  }

  lemma ThenSecondAdds(earlier: seq<Ledger>, steps: seq<Step>, env: Env, a: Addr, b: Addr, asset: Denom, n: nat, g: nat,
                       y: nat, z: nat)
    returns (states: seq<Ledger>)
    requires env.Valid() && a != CLP && b != CLP && a != b && asset != FURY && 0 < g && 0 < y && n == 1 && z == y * g
    requires 2 < |steps| && steps[2] == Deliver(env, AddLiquidity(b, asset, y, z)) && IsRun(earlier, steps[..2])
    requires OnePool(earlier[2], a, asset, n, g, n, Some(n))
    requires y <= Balance(earlier[2].bank, b, FURY) && z <= Balance(earlier[2].bank, b, asset)
    ensures IsRun(states, steps[..3]) && states[0] == earlier[0]
    ensures TwoProviders(states[3], asset, NewPool(n + y, g + z, n + y), a, n, b, y)
  {
    var m := SecondAdds(earlier[2], env, a, b, asset, n, g, y, z);
    states := Continued(earlier, steps, 2, m);
  }

  lemma Shared(l: Ledger, steps: seq<Step>, env: Env, a: Addr, b: Addr, asset: Denom, e: nat, n: nat, g: nat, y: nat,
               z: nat)
    returns (states: seq<Ledger>)
    requires env.Valid() && Genesis(l) && a != CLP && b != CLP && a != b && asset != FURY && env.params.lock == 0
    requires LeavesOne(e, g) && 0 < y && n == 1 && z == y * g && steps == WindUpSteps(env, a, b, asset, e, y, z)
    requires Balance(l.bank, a, FURY) > ONE && Balance(l.bank, a, asset) > e
    requires y <= Balance(l.bank, b, FURY) && z <= Balance(l.bank, b, asset)
    ensures IsRun(states, steps[..3]) && states[0] == l
    ensures TwoProviders(states[3], asset, NewPool(n + y, g + z, n + y), a, n, b, y)
  {
    states := Begun(l, steps, env, a, asset, e, g);
    states := ThenSecondAdds(states, steps, env, a, b, asset, n, g, y, z);
  }

  lemma TwoTotals(p: Pool, asset: Denom, providers: map<ProviderKey, Provider>, a: Addr, b: Addr, first: Withdrawn,
                  second: Withdrawn)
    requires (asset, a) in providers && (asset, b) in providers && first.Withdrawn? && second.Withdrawn?
    requires RefundOf(p, providers[(asset, a)].units) == first && RefundOf(p, providers[(asset, b)].units) == second
    ensures RefundTotals(p, asset, providers, [a, b])
         == (first.native + second.native, first.external + second.external)
  {
    assert [a, b][..1] == [a] && [a][..0] == [];
    assert RefundTotals(p, asset, providers, []) == (0, 0);
    assert RefundTotals(p, asset, providers, [a]) == (first.native, first.external);
  }

  /** Messages alone keep everything. */
  lemma MessagesKeepAll(states: seq<Ledger>, steps: seq<Step>)
    requires IsRun(states, steps) && Genesis(states[0]) && forall i | 0 <= i < |steps| :: steps[i].Deliver?
    ensures var l := states[|steps|]; Backed(l) && Invariant(l) && BalanceModuleAccountCheck(l)
  {
    ChecksHoldFromGenesis(states, steps, |steps|);
    RunKeepsSurplus(states, steps);
    RunKeepsInvariant(states, steps);
    assert NativeHoldings(states[0].pools) == map[];
    forall d ensures 0 <= Surplus(states[|steps|], d) { assert Surplus(states[0], d) == 0; }
  }

  // ---------------------------------------------------------------- coins left behind

  /** A refund, given the rounded quotient of the units. */
  lemma RefundByQuotient(p: Pool, units: nat, q: nat)
    requires 0 < units <= p.units && q == Quo(FromInt(p.units), FromInt(units)) && 0 < q
    ensures RefundOf(p, units)
         == Withdrawn(TruncateInt(Quo(FromInt(p.NativeDepth()), q)), TruncateInt(Quo(FromInt(p.ExternalDepth()), q)), 0)
  {
    ClaimWithinUnits(units, MAX_W_BASIS);
    ProductMonotone(ONE, 1, units);
  }

  lemma OneSeventh(p: Pool)
    requires p == NewPool(7, 7, 7)
    ensures RefundOf(p, 1) == Withdrawn(1, 1, 0)
  {
    assert Quo(FromInt(7), FromInt(1)) == 7 * ONE && TruncateInt(Quo(FromInt(7), 7 * ONE)) == 1;
    RefundByQuotient(p, 1, 7 * ONE);
  }

  lemma SixSevenths(p: Pool)
    requires p == NewPool(7, 7, 7)
    ensures RefundOf(p, 6) == Withdrawn(5, 5, 0)
  {
    assert Quo(FromInt(7), FromInt(6)) == 1_166_666_666_666_666_667;
    assert TruncateInt(Quo(FromInt(7), 1_166_666_666_666_666_667)) == 5;
    RefundByQuotient(p, 6, 1_166_666_666_666_666_667);
  }

  /** What two refunds leave of a pool stays with the module account. */
  lemma LeftBehind(l: Ledger, asset: Denom, p: Pool, a: Addr, x: nat, b: Addr, y: nat, out: nat, out': nat)
    requires Backed(l) && Invariant(l) && BalanceModuleAccountCheck(l) && a != b && a != CLP && b != CLP
    requires TwoProviders(l, asset, p, a, x, b, y) && 0 < x && 0 < y && p.nativeBalance < POOL_THRESHOLD
    requires RefundOf(p, x) == Withdrawn(out, out, 0) && RefundOf(p, y) == Withdrawn(out', out', 0)
    requires out + out' <= p.nativeBalance == p.externalBalance
    ensures HandleDecommission(l, asset, [a, b]).Some?
    ensures var m := HandleDecommission(l, asset, [a, b]).value;
      && Surplus(m, FURY) == p.nativeBalance - out - out'
      && Surplus(m, asset) == p.externalBalance - out - out'
  {
    TwoTotals(p, asset, l.providers, a, b, Withdrawn(out, out, 0), Withdrawn(out', out', 0));
    DecommissionSucceedsIff(l, asset, [a, b]);
    DecommissionSurplus(l, asset, [a, b]);
  }

  lemma BothListed(l: Ledger, asset: Denom, p: Pool, a: Addr, x: nat, b: Addr, y: nat, step: Step)
    requires TwoProviders(l, asset, p, a, x, b, y) && a != CLP && b != CLP && step == Decommission(asset, [a, b])
    requires HandleDecommission(l, asset, [a, b]).Some?
    ensures Next(l, step, HandleDecommission(l, asset, [a, b]).value)
  {
    assert a in [a, b] && b in [a, b];
  }

  lemma WoundUp(l: Ledger, asset: Denom, p: Pool, a: Addr, x: nat, b: Addr, y: nat, out: nat, out': nat, step: Step)
    returns (m: Ledger)
    requires Backed(l) && Invariant(l) && BalanceModuleAccountCheck(l) && a != b && a != CLP && b != CLP
    requires TwoProviders(l, asset, p, a, x, b, y) && 0 < x && 0 < y && p.nativeBalance < POOL_THRESHOLD
    requires RefundOf(p, x) == Withdrawn(out, out, 0) && RefundOf(p, y) == Withdrawn(out', out', 0)
    requires out + out' <= p.nativeBalance == p.externalBalance && step == Decommission(asset, [a, b])
    ensures Next(l, step, m)
    ensures Surplus(m, FURY) == p.nativeBalance - out - out' == Surplus(m, asset)
  {
    LeftBehind(l, asset, p, a, x, b, y, out, out');
    BothListed(l, asset, p, a, x, b, y, step);
    m := HandleDecommission(l, asset, [a, b]).value;
  }

  lemma ThenWindsUp(earlier: seq<Ledger>, steps: seq<Step>, asset: Denom, p: Pool, a: Addr, x: nat, b: Addr, y: nat,
                    out: nat, out': nat)
    returns (states: seq<Ledger>)
    requires 3 < |steps| && steps[3] == Decommission(asset, [a, b]) && IsRun(earlier, steps[..3])
    requires Backed(earlier[3]) && Invariant(earlier[3]) && BalanceModuleAccountCheck(earlier[3])
    requires a != b && a != CLP && b != CLP && TwoProviders(earlier[3], asset, p, a, x, b, y)
    requires 0 < x && 0 < y && p.nativeBalance < POOL_THRESHOLD && out + out' <= p.nativeBalance == p.externalBalance
    requires RefundOf(p, x) == Withdrawn(out, out, 0) && RefundOf(p, y) == Withdrawn(out', out', 0)
    ensures IsRun(states, steps[..4]) && states[0] == earlier[0] && BalanceModuleAccountCheck(states[3])
    ensures Surplus(states[4], FURY) == p.nativeBalance - out - out' == Surplus(states[4], asset)
  {
    var m := WoundUp(earlier[3], asset, p, a, x, b, y, out, out', steps[3]);
    states := Continued(earlier, steps, 3, m);
  }

  lemma SharedThenWoundUp(l: Ledger, env: Env, a: Addr, b: Addr, asset: Denom, n: nat, y: nat, p: Pool, out: nat)
    returns (states: seq<Ledger>)
    requires env.Valid() && Genesis(l) && a != CLP && b != CLP && a != b && asset != FURY && env.params.lock == 0
    requires Balance(l.bank, a, FURY) > ONE && Balance(l.bank, a, asset) > ONE && n == 1
    requires 0 < y < POOL_THRESHOLD - 1 && y <= Balance(l.bank, b, FURY) && y <= Balance(l.bank, b, asset)
    requires p == NewPool(n + y, n + y, n + y) && out <= y
    requires RefundOf(p, n) == Withdrawn(n, n, 0) && RefundOf(p, y) == Withdrawn(out, out, 0)
    ensures IsRun(states, WindUpSteps(env, a, b, asset, ONE, y, y)) && states[0] == l
    ensures BalanceModuleAccountCheck(states[3])
    ensures Surplus(states[4], FURY) == y - out == Surplus(states[4], asset)
  {
    var steps := WindUpSteps(env, a, b, asset, ONE, y, y);
    AllButOne(ONE);
    states := Shared(l, steps, env, a, b, asset, ONE, n, n, y, y);
    MessagesKeepAll(states, steps[..3]);
    states := ThenWindsUp(states, steps, asset, p, a, n, b, y, n, out);
    assert steps[..4] == steps;
  }

  /**
   Reached from genesis by three messages: two providers with one and six of seven units share seven of each asset, and
   winding the pool up leaves one of each with the module account.
   */
  lemma WindUpLeavesDust(l: Ledger, env: Env, a: Addr, b: Addr, asset: Denom, n: nat, y: nat)
    returns (states: seq<Ledger>)
    requires env.Valid() && Genesis(l) && a != CLP && b != CLP && a != b && asset != FURY && env.params.lock == 0
    requires Balance(l.bank, a, FURY) > ONE && Balance(l.bank, a, asset) > ONE && n == 1 && y == 6
    requires y <= Balance(l.bank, b, FURY) && y <= Balance(l.bank, b, asset)
    ensures IsRun(states, WindUpSteps(env, a, b, asset, ONE, y, y)) && states[0] == l
    ensures BalanceModuleAccountCheck(states[3]) && !BalanceModuleAccountCheck(states[4])
    ensures Surplus(states[4], FURY) == n == Surplus(states[4], asset)
  {
    var p := NewPool(n + y, n + y, n + y);
    OneSeventh(p);
    SixSevenths(p);
    states := SharedThenWoundUp(l, env, a, b, asset, n, y, p, y - 1);
  }

  // ---------------------------------------------------------------- a refused wind-up

  /** What is left of the external side of a pool created with ten times 10^36 of it. */
  const LEFT: nat := 10 * ONE - 10

  lemma LeavesLeft(P: nat)
    requires P == ONE
    ensures LeavesOne(10 * P * P, LEFT)
  {
    AllButOne(P);
    var q := Quo(FromInt(P), FromInt(P - 1));
    assert q == ONE + 1 by { assert Quo(FromInt(ONE), FromInt(ONE - 1)) == ONE + 1; }
    TenBelow(FromInt(10 * P * P), q);
  }

  lemma TenBelow(d: nat, q: nat)
    requires d == 10 * ONE * ONE * ONE && q == ONE + 1
    ensures RoundInt(Quo(d, q)) == 10 * ONE * ONE - LEFT
  {
    assert RoundInt(Quo(10 * ONE * ONE * ONE, ONE + 1)) == 10 * ONE * ONE - LEFT;
  }

  lemma OneQuarter(p: Pool)
    requires p == NewPool(4, 4 * LEFT, 4)
    ensures RefundOf(p, 1) == Withdrawn(1, LEFT, 0)
  {
    assert Quo(FromInt(4), FromInt(1)) == 4 * ONE && TruncateInt(Quo(FromInt(4), 4 * ONE)) == 1;
    assert TruncateInt(Quo(FromInt(4 * LEFT), 4 * ONE)) == LEFT;
    RefundByQuotient(p, 1, 4 * ONE);
  }

  lemma ThreeQuarters(p: Pool)
    requires p == NewPool(4, 4 * LEFT, 4)
    ensures RefundOf(p, 3) == Withdrawn(3, 3 * LEFT + 7, 0)
  {
    assert Quo(FromInt(4), FromInt(3)) == 1_333_333_333_333_333_333;
    assert TruncateInt(Quo(FromInt(4), 1_333_333_333_333_333_333)) == 3;
    assert TruncateInt(Quo(FromInt(4 * LEFT), 1_333_333_333_333_333_333)) == 3 * LEFT + 7;
    RefundByQuotient(p, 3, 1_333_333_333_333_333_333);
  }

  lemma RefusedEitherWay(l: Ledger, asset: Denom, a: Addr, b: Addr, p: Pool)
    requires Backed(l) && Invariant(l) && a != b && a != CLP && b != CLP
    requires p == NewPool(4, 4 * LEFT, 4) && TwoProviders(l, asset, p, a, 1, b, 3)
    ensures HandleDecommission(l, asset, [a, b]).None? && HandleDecommission(l, asset, [b, a]).None?
  {
    OneQuarter(p);
    ThreeQuarters(p);
    var first, second := Withdrawn(1, LEFT, 0), Withdrawn(3, 3 * LEFT + 7, 0);
    TwoTotals(p, asset, l.providers, a, b, first, second);
    TwoTotals(p, asset, l.providers, b, a, second, first);
    DecommissionSucceedsIff(l, asset, [a, b]);
    DecommissionSucceedsIff(l, asset, [b, a]);
  }

  /**
   Reached from genesis by three messages: a pool whose two providers' refunds, each rounded, together exceed the
   external balance by seven, so that the pool cannot be wound up, whichever provider is refunded first.
   */
  lemma WindUpCanBeRefused(l: Ledger, env: Env, a: Addr, b: Addr, asset: Denom, n: nat, y: nat, z: nat)
    returns (states: seq<Ledger>)
    requires env.Valid() && Genesis(l) && a != CLP && b != CLP && a != b && asset != FURY && env.params.lock == 0
    requires Balance(l.bank, a, FURY) > ONE && Balance(l.bank, a, asset) > 10 * ONE * ONE
    requires y <= Balance(l.bank, b, FURY) && z <= Balance(l.bank, b, asset) && n == 1 && y == 3 && z == 3 * LEFT
    ensures IsRun(states, WindUpSteps(env, a, b, asset, 10 * ONE * ONE, y, z)[..3]) && states[0] == l
    ensures TwoProviders(states[3], asset, NewPool(4, 4 * LEFT, 4), a, 1, b, 3)
    ensures HandleDecommission(states[3], asset, [a, b]).None? && HandleDecommission(states[3], asset, [b, a]).None?
  {
    var steps := WindUpSteps(env, a, b, asset, 10 * ONE * ONE, y, z);
    LeavesLeft(ONE);
    states := Shared(l, steps, env, a, b, asset, 10 * ONE * ONE, n, LEFT, y, z);
    MessagesKeepAll(states, steps[..3]);
    RefusedEitherWay(states[3], asset, a, b, NewPool(n + y, LEFT + z, n + y));
  }
}
