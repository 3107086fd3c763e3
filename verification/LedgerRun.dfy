/** Whole runs of the module: messages, blocks, payouts, rewards and decommissioned pools, in any order. */
module LedgerRun {
  import opened Options
  import opened Decimal
  import opened Pools
  import opened Unlocks
  import opened Ledger
  import opened LedgerInvariants
  import opened Payout
  import opened Rewards
  import opened LedgerDistribution
  import opened Withdrawal

  datatype Step =
    | Deliver(env: Env, msg: Msg)
    | NextBlock
    | PayoutBlock(order: seq<Denom>, parts: map<Denom, seq<Listed>>, rate: nat, failed: set<Addr>)
    | RewardBlock(order: seq<Denom>, parts: map<Denom, seq<Listed>>, block: nat, period: Period, failed: set<Addr>)
    | Decommission(asset: Denom, lps: seq<Addr>)

  /** The block's lists are of this ledger: every pool once, and only providers of the pool they are listed under. */
  ghost predicate ListsOf(l: Ledger, order: seq<Denom>, parts: map<Denom, seq<Listed>>) {
    && NoRepeats(order) && (forall d :: d in order <==> d in l.pools)
    && forall d, lp | d in parts && lp in parts[d] :: (d, lp.addr) in l.providers
  }

  function OrElse<T>(o: Option<T>, t: T): T {
    match o case None => t case Some(v) => v
  }

  /**
   One step. A block whose distribution would divide by zero has no next state: the code panics and the chain halts.
   */
  ghost predicate Next(l: Ledger, step: Step, m: Ledger) {
    match step
    case Deliver(env, msg) => env.Valid() && msg.signer != CLP && m == OrElse(Handle(l, env, msg), l)
    case NextBlock => m == l.(height := l.height + 1)
    case PayoutBlock(order, parts, rate, failed) =>
      && rate <= ONE && ListsOf(l, order, parts) && Payable(order, l.pools, parts)
      && PayoutStep(l, m, AllEntries(order, l.pools, parts, rate), failed)
    case RewardBlock(order, parts, block, period, failed) =>
      ListsOf(l, order, parts)
      && RewardStep(l, m, RewardTuples(order, l.pools, block, period), parts, period.distribute, failed)
    case Decommission(asset, lps) =>
      && CLP !in lps && (forall k | k in l.providers && k.0 == asset :: k.1 in lps)
      && m == OrElse(HandleDecommission(l, asset, lps), l)
  }

  ghost predicate IsRun(states: seq<Ledger>, steps: seq<Step>) {
    && |states| == |steps| + 1
    && forall i {:trigger steps[i]} | 0 <= i < |steps| :: Next(states[i], steps[i], states[i + 1])
  }

  // ---------------------------------------------------------------- backing over runs

  /**
   The steps that keep the backing exact: every message and payout, a reward distribution unless it pays out for a pool
   that lists no providers, and a wind-up whose refunds use the pool up.
   */
  ghost predicate KeepsBacking(l: Ledger, step: Step) {
    match step
    case RewardBlock(order, parts, block, period, _) =>
      && (forall d | d in order :: d in l.pools)
      && (period.distribute ==> AllListed(RewardTuples(order, l.pools, block, period), parts))
    case Decommission(asset, lps) => HandleDecommission(l, asset, lps).Some? ==> UsesUp(l, asset, lps)
    case _ => true
  }

  /** No other step keeps it. */
  lemma NextKeepsSurplusIff(l: Ledger, step: Step, m: Ledger)
    requires Next(l, step, m) && FURY !in l.pools
    ensures SameSurplus(l, m) <==> KeepsBacking(l, step)
    ensures FURY !in m.pools
  {
    match step
    case Deliver(env, msg) => if Handle(l, env, msg).Some? { HandleKeepsSurplus(l, env, msg); }
    case NextBlock =>
    case PayoutBlock(order, parts, rate, failed) =>
      PayoutKeepsSurplus(l, m, AllEntries(order, l.pools, parts, rate), failed);
    case RewardBlock(order, parts, block, period, failed) =>
      RewardsPositive(order, l.pools, block, period);
      RewardsKeepSurplusIff(l, m, RewardTuples(order, l.pools, block, period), parts, period.distribute, failed);
    case Decommission(asset, lps) =>
      if HandleDecommission(l, asset, lps).Some? {
        DecommissionKeepsSurplusIff(l, asset, lps);
        DecommissionSurplus(l, asset, lps);
      }
  }

  /**
   Solvency over every run: whatever sequence of messages, payouts and rewards is delivered, and whatever transfers
   fail, the module account's balance of every denomination moves exactly with what the pools record.
   */
  lemma {:induction false} RunKeepsSurplus(states: seq<Ledger>, steps: seq<Step>)
    requires IsRun(states, steps) && FURY !in states[0].pools
    requires forall i | 0 <= i < |steps| :: KeepsBacking(states[i], steps[i])
    ensures SameSurplus(states[0], states[|steps|]) && FURY !in states[|steps|].pools
  {
    if steps != [] {
      var n := |steps| - 1;
      RunPrefix(states, steps, n);
      RunKeepsSurplus(states[..n + 1], steps[..n]);
      NextKeepsSurplusIff(states[n], steps[n], states[n + 1]);
      SameSurplusTransitive(states[0], states[n], states[n + 1]);
    }
  }

  lemma RunPrefix(states: seq<Ledger>, steps: seq<Step>, n: nat)
    requires IsRun(states, steps) && n <= |steps|
    ensures IsRun(states[..n + 1], steps[..n])
    ensures states[..n + 1][0] == states[0] && states[..n + 1][n] == states[n]
    ensures forall i | 0 <= i < n :: states[..n + 1][i] == states[i] && steps[..n][i] == steps[i]
  {
  }

  lemma SameSurplusTransitive(l: Ledger, m: Ledger, n: Ledger)
    requires SameSurplus(l, m) && SameSurplus(m, n)
    ensures SameSurplus(l, n)
  {
  }

  lemma NextNeverLowersSurplus(l: Ledger, step: Step, m: Ledger)
    requires Next(l, step, m) && FURY !in l.pools && (step.Decommission? || KeepsBacking(l, step))
    ensures FURY !in m.pools && forall d :: Surplus(l, d) <= Surplus(m, d)
  {
    NextKeepsSurplusIff(l, step, m);
    if step.Decommission? {
      if HandleDecommission(l, step.asset, step.lps).Some? { DecommissionKeepsSurplusIff(l, step.asset, step.lps); }
    }
  }

  /** With pools being wound up as well, the module account never holds less than the pools record. */
  lemma {:induction false} RunStaysBacked(states: seq<Ledger>, steps: seq<Step>)
    requires IsRun(states, steps) && FURY !in states[0].pools
    requires forall i | 0 <= i < |steps| :: steps[i].Decommission? || KeepsBacking(states[i], steps[i])
    ensures FURY !in states[|steps|].pools && forall d :: Surplus(states[0], d) <= Surplus(states[|steps|], d)
  {
    if steps != [] {
      var n := |steps| - 1;
      RunPrefix(states, steps, n);
      RunStaysBacked(states[..n + 1], steps[..n]);
      NextNeverLowersSurplus(states[n], steps[n], states[n + 1]);
    }
  }

  // ---------------------------------------------------------------- the invariant over runs

  /** The steps that leave no pool with an empty side: all but a payout that delivers a pool's whole native depth. */
  ghost predicate KeepsOpen(l: Ledger, step: Step) {
    match step
    case PayoutBlock(order, parts, rate, failed) =>
      Payable(order, l.pools, parts) ==>
        forall d | d in l.pools :: OwedBy(AllEntries(order, l.pools, parts, rate), d, failed) < l.pools[d].NativeDepth()
    case _ => true
  }

  /** A cap below every depth is enough. */
  lemma CapKeepsOpen(l: Ledger, order: seq<Denom>, parts: map<Denom, seq<Listed>>, rate: nat, failed: set<Addr>)
    requires ListsOf(l, order, parts)
    requires forall d | d in l.pools :: Cap(rate, l.pools[d].nativeBalance) < l.pools[d].NativeDepth()
    ensures KeepsOpen(l, PayoutBlock(order, parts, rate, failed))
  {
    if Payable(order, l.pools, parts) {
      var es := AllEntries(order, l.pools, parts, rate);
      forall d | d in l.pools ensures OwedBy(es, d, failed) < l.pools[d].NativeDepth() {
        CollectedWithinCap(order, l.pools, parts, rate, d);
        FailuresLower(es, d, failed);
      }
    }
  }

  /** So no payout at up to half a pool per block empties a side. */
  lemma HalfKeepsOpen(l: Ledger, order: seq<Denom>, parts: map<Denom, seq<Listed>>, rate: nat, failed: set<Addr>)
    requires Invariant(l) && ListsOf(l, order, parts) && rate <= HALF
    ensures KeepsOpen(l, PayoutBlock(order, parts, rate, failed))
  {
    forall d | d in l.pools ensures Cap(rate, l.pools[d].nativeBalance) < l.pools[d].NativeDepth() {
      assert IsOpen(l.pools[d]);
      CapWithinDepth(rate, l.pools[d].nativeBalance);
    }
    CapKeepsOpen(l, order, parts, rate, failed);
  }

  lemma DecommissionKeepsInvariant(l: Ledger, asset: Denom, lps: seq<Addr>)
    requires Invariant(l) && CLP !in lps && (forall k | k in l.providers && k.0 == asset :: k.1 in lps)
    requires HandleDecommission(l, asset, lps).Some?
    ensures Invariant(HandleDecommission(l, asset, lps).value)
  {
    var m := HandleDecommission(l, asset, lps).value;
    var pool := l.pools[asset];
    var r := Refunding(l.bank, l.providers, pool.nativeBalance, pool.externalBalance, pool.units);
    RefundAllBalances(pool, asset, r, lps);
    OtherPoolsUntouched(l, m, asset);
  }

  lemma OtherPoolsUntouched(l: Ledger, m: Ledger, asset: Denom)
    requires Invariant(l) && m.pools == l.pools - {asset} && m.height == l.height
    requires OthersKept(asset, l.providers, m.providers) && forall k | k in m.providers :: k.0 != asset
    ensures Invariant(m)
  {
    assert UnitsMatch(m) by {
      forall d | d in m.pools ensures m.pools[d].units == ProviderUnits(m, d) {
        SameUnits(l.providers, m.providers, asset, d);
      }
    }
  }

  lemma SameUnits(before: map<ProviderKey, Provider>, after: map<ProviderKey, Provider>, asset: Denom, d: Denom)
    requires OthersKept(asset, before, after) && d != asset
    ensures UnitsByProvider(after, d) == UnitsByProvider(before, d)
  {
  }

  lemma NextBlockKeepsInvariant(l: Ledger)
    requires Invariant(l)
    ensures Invariant(l.(height := l.height + 1))
  {
    var m := l.(height := l.height + 1);
    forall k | k in m.providers ensures Covered(m.providers[k], m.height) {
      assert Covered(l.providers[k], l.height);
    }
    forall d | d in m.pools ensures m.pools[d].units == ProviderUnits(m, d) {
      assert ProviderUnits(m, d) == ProviderUnits(l, d);
    }
  }

  /** Exactly those steps keep the invariant. */
  lemma NextKeepsInvariantIff(l: Ledger, step: Step, m: Ledger)
    requires Invariant(l) && Next(l, step, m)
    ensures Invariant(m) <==> KeepsOpen(l, step)
  {
    match step
    case Deliver(env, msg) => if Handle(l, env, msg).Some? { HandleKeepsInvariant(l, env, msg); }
    case NextBlock => NextBlockKeepsInvariant(l);
    case PayoutBlock(order, parts, rate, failed) =>
      PayoutKeepsInvariantIff(l, m, AllEntries(order, l.pools, parts, rate), failed);
    case RewardBlock(order, parts, block, period, failed) =>
      RewardsKeepInvariant(l, m, RewardTuples(order, l.pools, block, period), parts, period.distribute, failed);
    case Decommission(asset, lps) =>
      if HandleDecommission(l, asset, lps).Some? { DecommissionKeepsInvariant(l, asset, lps); }
  }

  /**
   Over every run: pool units are the sum of provider units, no pool has an empty side, unlock requests stay within the
   provider's units, and every provider belongs to a pool.
   */
  lemma {:induction false} RunKeepsInvariant(states: seq<Ledger>, steps: seq<Step>)
    requires IsRun(states, steps) && Invariant(states[0])
    requires forall i | 0 <= i < |steps| :: KeepsOpen(states[i], steps[i])
    ensures Invariant(states[|steps|])
  {
    if steps != [] {
      var n := |steps| - 1;
      RunPrefix(states, steps, n);
      RunKeepsInvariant(states[..n + 1], steps[..n]);
      NextKeepsInvariantIff(states[n], steps[n], states[n + 1]);
    }
  }

  /** `BalanceModuleAccountCheck`: the module account holds exactly what the pools record. */
  ghost predicate BalanceModuleAccountCheck(l: Ledger) {
    Surplus(l, FURY) == 0 && forall d | d in l.pools :: Surplus(l, d) == 0
  }

  ghost predicate Genesis(l: Ledger) {
    l.pools == map[] && l.providers == map[] && forall d :: Balance(l.bank, CLP, d) == 0
  }

  /**
   Both checks the module defines but leaves switched off hold in every state of every run from genesis whose steps keep
   the backing and leave no side empty.
   */
  lemma ChecksHoldFromGenesis(states: seq<Ledger>, steps: seq<Step>, i: nat)
    requires IsRun(states, steps) && Genesis(states[0]) && i < |states|
    requires forall k | 0 <= k < |steps| :: KeepsBacking(states[k], steps[k]) && KeepsOpen(states[k], steps[k])
    ensures BalanceModuleAccountCheck(states[i]) && UnitsMatch(states[i]) && AllOpen(states[i])
  {
    assert NativeHoldings(states[0].pools) == map[];
    RunPrefix(states, steps, i);
    RunKeepsSurplus(states[..i + 1], steps[..i]);
    RunKeepsInvariant(states[..i + 1], steps[..i]);
  }

  /** The balance check survives a wind-up exactly when the refunds are all the native the pool held. */
  lemma CheckSurvivesDecommissionIff(l: Ledger, asset: Denom, lps: seq<Addr>)
    requires FURY !in l.pools && CLP !in lps && HandleDecommission(l, asset, lps).Some? && BalanceModuleAccountCheck(l)
    ensures asset in l.pools
    ensures BalanceModuleAccountCheck(HandleDecommission(l, asset, lps).value)
       <==> RefundTotals(l.pools[asset], asset, l.providers, lps).0
            == l.pools[asset].nativeBalance + l.pools[asset].nativeCustody
  {
    DecommissionSurplus(l, asset, lps);
  }

  // ---------------------------------------------------------------- pools without units

  ghost predicate AllHaveUnits(l: Ledger) {
    forall d | d in l.pools :: 0 < l.pools[d].units
  }

  /** The only provider of a pool asks for a part that burns all of its units. */
  ghost predicate TakesLastUnit(l: Ledger, signer: Addr, asset: Denom, w: nat) {
    && 1 <= w <= MAX_W_BASIS && asset in l.pools && (asset, signer) in l.providers
    && l.providers[(asset, signer)].units == l.pools[asset].units && BurnsAll(l.pools[asset].units, w)
  }

  /** The steps that leave every pool its units: all but such a removal, if it succeeds. */
  ghost predicate KeepsUnits(l: Ledger, step: Step) {
    step.Deliver? && step.msg.RemoveLiquidity? ==>
      var msg := step.msg;
      HandleRemoveLiquidity(l, step.env, msg.signer, msg.asset, msg.wBasisPoints).Some?
      ==> !TakesLastUnit(l, msg.signer, msg.asset, msg.wBasisPoints)
  }

  /** What a removal does to the pools. */
  lemma WithdrawnPools(l: Ledger, env: Env, signer: Addr, asset: Denom, out: Withdrawn)
    requires asset in l.pools && (asset, signer) in l.providers
    requires out.Withdrawn? ==> out.unitsLeft <= l.providers[(asset, signer)].units
    requires HandleWithdrawn(l, env, signer, asset, out).Some?
    ensures out.Withdrawn? && out.native < l.pools[asset].NativeDepth()
    ensures var p, lp := l.pools[asset], l.providers[(asset, signer)];
      var m := HandleWithdrawn(l, env, signer, asset, out).value;
      && lp.units <= p.units && asset in m.pools && m.pools[asset].units == p.units - lp.units + out.unitsLeft
      && m.pools == l.pools[asset := m.pools[asset]]
  {
  }

  lemma WithdrawnKeepsUnitsIff(l: Ledger, env: Env, signer: Addr, asset: Denom, out: Withdrawn)
    requires AllHaveUnits(l) && asset in l.pools && (asset, signer) in l.providers
    requires out.Withdrawn? ==> out.unitsLeft <= l.providers[(asset, signer)].units
    requires HandleWithdrawn(l, env, signer, asset, out).Some?
    ensures out.Withdrawn? && out.native < l.pools[asset].NativeDepth()
    ensures AllHaveUnits(HandleWithdrawn(l, env, signer, asset, out).value)
       <==> l.providers[(asset, signer)].units < l.pools[asset].units || out.unitsLeft != 0
  {
    WithdrawnPools(l, env, signer, asset, out);
    var m := HandleWithdrawn(l, env, signer, asset, out).value;
    OnePoolUnitsIff(l, m, asset);
  }

  lemma OnePoolUnitsIff(l: Ledger, m: Ledger, asset: Denom)
    requires AllHaveUnits(l) && asset in m.pools && m.pools == l.pools[asset := m.pools[asset]]
    ensures AllHaveUnits(m) <==> 0 < m.pools[asset].units
  {
  }

  lemma RemoveKeepsUnitsIff(l: Ledger, env: Env, signer: Addr, asset: Denom, w: nat)
    requires Invariant(l) && AllHaveUnits(l) && HandleRemoveLiquidity(l, env, signer, asset, w).Some?
    ensures AllHaveUnits(HandleRemoveLiquidity(l, env, signer, asset, w).value) <==> !TakesLastUnit(l, signer, asset, w)
  {
    var p, lp := l.pools[asset], l.providers[(asset, signer)];
    ProviderWithinPool(l, (asset, signer));
    WithdrawnKeepsUnitsIff(l, env, signer, asset,
      CalculateWithdrawal(p.units, p.NativeDepth(), p.ExternalDepth(), lp.units, w));
    if lp.units == 0 { NoUnitsNoWithdrawal(p, w); }
    else { LeavesNothingIff(p.units, p.NativeDepth(), p.ExternalDepth(), lp.units, w); }
  }

  /** A provider without units cannot withdraw: the share divides by zero. */
  lemma NoUnitsNoWithdrawal(p: Pool, w: nat)
    requires 1 <= w <= MAX_W_BASIS
    ensures CalculateWithdrawal(p.units, p.NativeDepth(), p.ExternalDepth(), 0, w).Panic?
  {
    ClaimWithinUnits(0, w);
  }

  /** Removing by units never takes the last one: the whole depth would have to be paid, and that is refused. */
  lemma RemoveUnitsKeepsUnits(l: Ledger, env: Env, signer: Addr, asset: Denom, n: nat)
    requires Invariant(l) && AllHaveUnits(l) && HandleRemoveLiquidityUnits(l, env, signer, asset, n).Some?
    ensures AllHaveUnits(HandleRemoveLiquidityUnits(l, env, signer, asset, n).value)
  {
    var p, lp := l.pools[asset], l.providers[(asset, signer)];
    ProviderWithinPool(l, (asset, signer));
    UnitsWithdrawalSafe(p.units, p.NativeDepth(), p.ExternalDepth(), lp.units, n);
    if n == p.units { AllUnitsPayAll(p.units, p.NativeDepth(), p.ExternalDepth()); }
    PartlyWithdrawn(l, env, signer, asset, n,
      CalculateWithdrawalFromUnits(p.units, p.NativeDepth(), p.ExternalDepth(), lp.units, n));
  }

  lemma PartlyWithdrawn(l: Ledger, env: Env, signer: Addr, asset: Denom, n: nat, out: Withdrawn)
    requires AllHaveUnits(l) && asset in l.pools && (asset, signer) in l.providers
    requires out.Withdrawn? && n <= l.providers[(asset, signer)].units <= l.pools[asset].units
    requires out.unitsLeft == l.providers[(asset, signer)].units - n
    requires n == l.pools[asset].units ==> out.native == l.pools[asset].NativeDepth()
    requires HandleWithdrawn(l, env, signer, asset, out).Some?
    ensures AllHaveUnits(HandleWithdrawn(l, env, signer, asset, out).value)
  {
    WithdrawnKeepsUnitsIff(l, env, signer, asset, out);
  }

  lemma HandleKeepsUnits(l: Ledger, env: Env, msg: Msg)
    requires env.Valid() && Invariant(l) && AllHaveUnits(l) && Handle(l, env, msg).Some? && !msg.RemoveLiquidity?
    ensures AllHaveUnits(Handle(l, env, msg).value)
  {
    match msg
    case CreatePool(signer, asset, native, external) =>
    case SwapCoins(signer, sent, received, amount, min) => SwapKeepsUnits(l, env, signer, sent, received, amount, min);
    case AddLiquidity(signer, asset, native, external) => AddKeepsUnits(l, env, signer, asset, native, external);
    case RemoveLiquidityUnits(signer, asset, units) => RemoveUnitsKeepsUnits(l, env, signer, asset, units);
    case UnlockLiquidity(signer, asset, units) =>
    case CancelUnlockLiquidity(signer, asset, units) =>
  }

  lemma AddKeepsUnits(l: Ledger, env: Env, signer: Addr, asset: Denom, native: nat, external: nat)
    requires env.Valid() && Invariant(l) && AllHaveUnits(l)
    requires HandleAddLiquidity(l, env, signer, asset, native, external).Some?
    ensures AllHaveUnits(HandleAddLiquidity(l, env, signer, asset, native, external).value)
  {
    assert IsOpen(l.pools[asset]);
  }

  lemma SwapKeepsUnits(l: Ledger, env: Env, signer: Addr, sent: Denom, received: Denom, amount: nat, minReceiving: nat)
    requires env.Valid() && AllHaveUnits(l) && HandleSwap(l, env, signer, sent, received, amount, minReceiving).Some?
    ensures AllHaveUnits(HandleSwap(l, env, signer, sent, received, amount, minReceiving).value)
  {
  }

  /** Exactly those steps leave every pool its units. */
  lemma NextKeepsUnitsIff(l: Ledger, step: Step, m: Ledger)
    requires Invariant(l) && AllHaveUnits(l) && Next(l, step, m)
    ensures AllHaveUnits(m) <==> KeepsUnits(l, step)
  {
    match step
    case Deliver(env, msg) =>
      if Handle(l, env, msg).Some? {
        if msg.RemoveLiquidity? { RemoveKeepsUnitsIff(l, env, msg.signer, msg.asset, msg.wBasisPoints); }
        else { HandleKeepsUnits(l, env, msg); }
      }
    case NextBlock =>
    case PayoutBlock(order, parts, rate, failed) =>
    case RewardBlock(order, parts, block, period, failed) =>
    case Decommission(asset, lps) =>
  }

  /** With units in every pool no distribution divides by zero, whatever providers are listed. */
  lemma UnitsMakePayable(l: Ledger, order: seq<Denom>, parts: map<Denom, seq<Listed>>, block: nat, period: Period)
    requires AllHaveUnits(l) && ListsOf(l, order, parts)
    ensures Payable(order, l.pools, parts) && Divisible(RewardTuples(order, l.pools, block, period), l.pools, parts)
  {
    RewardsPositive(order, l.pools, block, period);
  }

  /**
   Over every run from genesis whose steps leave no side empty and no pool without units, no distribution can panic, in
   any state reached.
   */
  lemma DistributionsNeverPanic(states: seq<Ledger>, steps: seq<Step>, order: seq<Denom>,
                                parts: map<Denom, seq<Listed>>, block: nat, period: Period)
    requires IsRun(states, steps) && Genesis(states[0]) && ListsOf(states[|steps|], order, parts)
    requires forall k | 0 <= k < |steps| :: KeepsOpen(states[k], steps[k]) && KeepsUnits(states[k], steps[k])
    ensures Payable(order, states[|steps|].pools, parts)
    ensures Divisible(RewardTuples(order, states[|steps|].pools, block, period), states[|steps|].pools, parts)
  {
    RunKeepsUnits(states, steps);
    UnitsMakePayable(states[|steps|], order, parts, block, period);
  }

  lemma {:induction false} RunKeepsUnits(states: seq<Ledger>, steps: seq<Step>)
    requires IsRun(states, steps) && Invariant(states[0]) && AllHaveUnits(states[0])
    requires forall k | 0 <= k < |steps| :: KeepsOpen(states[k], steps[k]) && KeepsUnits(states[k], steps[k])
    ensures Invariant(states[|steps|]) && AllHaveUnits(states[|steps|])
  {
    if steps != [] {
      var n := |steps| - 1;
      RunPrefix(states, steps, n);
      RunKeepsUnits(states[..n + 1], steps[..n]);
      NextKeepsInvariantIff(states[n], steps[n], states[n + 1]);
      NextKeepsUnitsIff(states[n], steps[n], states[n + 1]);
    }
  }

  // ---------------------------------------------------------------- complete provider lists

  /** A reward block's lists leave out no pool that has providers, as the partition of the provider store does not. */
  ghost predicate ListsComplete(l: Ledger, step: Step) {
    step.RewardBlock? ==> forall k | k in l.providers :: k.0 in step.parts
  }

  lemma UnitsHaveProvider(l: Ledger, d: Denom) returns (k: ProviderKey)
    requires UnitsMatch(l) && d in l.pools && 0 < l.pools[d].units
    ensures k in l.providers && k.0 == d
  {
    var units := UnitsByProvider(l.providers, d);
    assert 0 < ProviderUnits(l, d) && units != map[];
    k :| k in units;
  }

  /** Then every rewarded pool is listed while all pools have units, so the distribution keeps the backing. */
  lemma CompleteListsKeepBacking(l: Ledger, step: Step)
    requires UnitsMatch(l) && AllHaveUnits(l) && step.RewardBlock? && ListsComplete(l, step)
    requires ListsOf(l, step.order, step.parts)
    ensures KeepsBacking(l, step)
  {
    RewardsPositive(step.order, l.pools, step.block, step.period);
    forall t | t in RewardTuples(step.order, l.pools, step.block, step.period) ensures t.pool in step.parts {
      var k := UnitsHaveProvider(l, t.pool);
    }
  }

  /**
   With complete lists a reward can lose backing only after a removal that took a pool's last unit. So both checks hold
   in every state of every run from genesis without such a removal, without a payout of a whole depth, and whose
   wind-ups use their pools up; and every pool keeps its units.
   */
  lemma ChecksHoldWhileUnitsLast(states: seq<Ledger>, steps: seq<Step>, i: nat)
    requires IsRun(states, steps) && Genesis(states[0]) && i < |states|
    requires forall k | 0 <= k < |steps| ::
      && KeepsOpen(states[k], steps[k]) && KeepsUnits(states[k], steps[k]) && ListsComplete(states[k], steps[k])
      && (steps[k].Decommission? ==> KeepsBacking(states[k], steps[k]))
    ensures BalanceModuleAccountCheck(states[i]) && UnitsMatch(states[i]) && AllOpen(states[i])
    ensures AllHaveUnits(states[i])
  {
    forall k | 0 <= k < |steps| ensures KeepsBacking(states[k], steps[k]) {
      RunPrefix(states, steps, k);
      RunKeepsUnits(states[..k + 1], steps[..k]);
      assert Next(states[k], steps[k], states[k + 1]);
      if steps[k].RewardBlock? { CompleteListsKeepBacking(states[k], steps[k]); }
    }
    ChecksHoldFromGenesis(states, steps, i);
    RunPrefix(states, steps, i);
    RunKeepsUnits(states[..i + 1], steps[..i]);
  }

  /**
   The add that starts counting units afresh, on a pool with an empty side, breaks the unit totals as soon as anyone
   still holds units; every other add keeps them.
   */
  lemma AddKeepsUnitsIff(l: Ledger, env: Env, signer: Addr, asset: Denom, native: nat, external: nat)
    requires env.Valid() && WellFormed(l) && UnitsMatch(l)
    requires HandleAddLiquidity(l, env, signer, asset, native, external).Some?
    ensures UnitsMatch(HandleAddLiquidity(l, env, signer, asset, native, external).value)
       <==> IsOpen(l.pools[asset]) || l.pools[asset].units == 0
  {
    var m := HandleAddLiquidity(l, env, signer, asset, native, external).value;
    var key := (asset, signer);
    UnitsUpdate(l.providers, key, m.providers[key], asset);
    if IsOpen(l.pools[asset]) || l.pools[asset].units == 0 {
      UnitsMatchUpdate(l, m, key);
    } else {
      assert m.pools[asset].units != ProviderUnits(m, asset);
    }
  }
}
