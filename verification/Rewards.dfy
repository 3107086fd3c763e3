/**
 Depth rewards: a block's distribution is divided over the pools by weighted native depth, minted, and either left in
 the pools or paid out to their providers, in which case what could not be delivered is burned again.
 */
module Rewards {
  import opened Decimal
  import opened Pools
  import opened Ledger
  import opened Payout

  datatype Period = Period(multipliers: map<Denom, nat>, defaultMultiplier: nat, distribute: bool) {
    function PoolMultiplier(asset: Denom): nat {
      if asset in multipliers then multipliers[asset] else defaultMultiplier
    }
  }

  datatype PoolReward = PoolReward(pool: Denom, reward: nat)

  // ---------------------------------------------------------------- dividing the block's distribution

  /** `calcTotalDepth`. */
  function TotalDepth(order: seq<Denom>, pools: map<Denom, Pool>, period: Period): nat
    requires forall d | d in order :: d in pools
  {
    if order == [] then 0
    else
      var d := order[|order| - 1];
      TotalDepth(order[..|order| - 1], pools, period) + Mul(FromInt(pools[d].nativeBalance), period.PoolMultiplier(d))
  }

  function CalcPoolDistribution(multiplier: nat, native: nat, totalDepth: nat, blockDistribution: nat): nat
    requires 0 < totalDepth
  {
    TruncateInt(Mul(Quo(Mul(FromInt(native), multiplier), totalDepth), FromInt(blockDistribution)))
  }

  lemma WeightedDepth(native: nat, multiplier: nat)
    ensures Mul(FromInt(native), multiplier) == native * multiplier
  {
    assert FromInt(native) * multiplier == native * multiplier * ONE;
    ChopExact(native * multiplier);
  }

  lemma WeightErrors(r: nat, w: nat, weighted: nat, total: nat, block: nat)
    requires Near(w * total, weighted * ONE, total) && r * ONE <= w * block < r * ONE + ONE
    ensures block * (weighted * ONE) - block * total - total * ONE <= total * (r * ONE)
         <= block * (weighted * ONE) + block * total
  {
    ProductNear(block, w * total, weighted * ONE, total);
    ProductMonotone(total, r * ONE, w * block);
    ProductMonotone(total, w * block, r * ONE + ONE);
    assert total * (w * block) == block * (w * total);
    assert total * (r * ONE + ONE) == total * (r * ONE) + total * ONE;
  }

  /**
   A pool's part is `block * native * multiplier / totalDepth` truncated to whole tokens, give or take one unit of the
   last decimal per token of the block's distribution.
   */
  lemma PoolPartIsFair(multiplier: nat, native: nat, totalDepth: nat, block: nat)
    requires 0 < totalDepth
    ensures var paid := totalDepth * (CalcPoolDistribution(multiplier, native, totalDepth, block) * ONE);
      var exact := block * (native * multiplier * ONE);
      exact - block * totalDepth - totalDepth * ONE <= paid <= exact + block * totalDepth
  {
    WeightedDepth(native, multiplier);
    var w := Quo(native * multiplier, totalDepth);
    QuoAccurate(native * multiplier, totalDepth);
    assert w * FromInt(block) == w * block * ONE;
    ChopExact(w * block);
    WeightErrors(w * block / ONE, w, native * multiplier, totalDepth, block);
  }

  /** Each pool's part of the block's distribution, before it is cut. */
  function PoolShare(pools: map<Denom, Pool>, block: nat, totalDepth: nat, period: Period): Denom -> nat
    requires 0 < totalDepth
  {
    d =>
      if d !in pools then 0
      else CalcPoolDistribution(period.PoolMultiplier(d), pools[d].nativeBalance, totalDepth, block)
  }

  /**
   The rewards of the pools in `order`, and their total: each pool's part, cut at what is left of the distribution.
   */
  function Tuples(order: seq<Denom>, share: Denom -> nat, block: nat): (res: (seq<PoolReward>, nat))
    ensures res.1 <= block
  {
    if order == [] then ([], 0)
    else
      var d := order[|order| - 1];
      var (tuples, minted) := Tuples(order[..|order| - 1], share, block);
      var reward := if share(d) > block - minted then block - minted else share(d);
      if reward == 0 then (tuples, minted) else (tuples + [PoolReward(d, reward)], minted + reward)
  }

  function RewardSum(tuples: seq<PoolReward>): nat {
    if tuples == [] then 0 else RewardSum(tuples[..|tuples| - 1]) + tuples[|tuples| - 1].reward
  }

  lemma RewardSumAppend(tuples: seq<PoolReward>, t: PoolReward)
    ensures RewardSum(tuples + [t]) == RewardSum(tuples) + t.reward
  {
    assert (tuples + [t])[..|tuples|] == tuples;
  }

  /** What is minted is exactly the sum of the rewards. */
  lemma {:induction false} TuplesSumToMinted(order: seq<Denom>, share: Denom -> nat, block: nat)
    ensures RewardSum(Tuples(order, share, block).0) == Tuples(order, share, block).1
  {
    if order != [] {
      var n := |order| - 1;
      TuplesSumToMinted(order[..n], share, block);
      var earlier := Tuples(order[..n], share, block);
      var reward := if share(order[n]) > block - earlier.1 then block - earlier.1 else share(order[n]);
      RewardSumAppend(earlier.0, PoolReward(order[n], reward));
    }
  }

  ghost predicate DistinctPools(tuples: seq<PoolReward>) {
    forall i, j | 0 <= i < j < |tuples| :: tuples[i].pool != tuples[j].pool
  }

  lemma DistinctAppend(tuples: seq<PoolReward>, t: PoolReward)
    requires DistinctPools(tuples) && forall u | u in tuples :: u.pool != t.pool
    ensures DistinctPools(tuples + [t])
  {
  }

  /** No pool is rewarded twice. */
  lemma {:induction false} RewardedOnce(order: seq<Denom>, share: Denom -> nat, block: nat)
    requires NoRepeats(order)
    ensures DistinctPools(Tuples(order, share, block).0)
  {
    if order != [] {
      var n := |order| - 1;
      RewardedOnce(order[..n], share, block);
      TuplesFromOrder(order[..n], share, block);
      assert order[n] !in order[..n];
      var earlier := Tuples(order[..n], share, block);
      var reward := if share(order[n]) > block - earlier.1 then block - earlier.1 else share(order[n]);
      DistinctAppend(earlier.0, PoolReward(order[n], reward));
    }
  }

  lemma {:induction false} TuplesFromOrder(order: seq<Denom>, share: Denom -> nat, block: nat)
    ensures forall t | t in Tuples(order, share, block).0 :: t.pool in order && 0 < t.reward
  {
    if order != [] { TuplesFromOrder(order[..|order| - 1], share, block); }
  }

  /** Once the distribution is used up, later pools change nothing. */
  lemma {:induction false} TuplesExhausted(order: seq<Denom>, i: nat, share: Denom -> nat, block: nat)
    requires i <= |order|
    requires Tuples(order[..i], share, block).1 == block
    ensures Tuples(order, share, block) == Tuples(order[..i], share, block)
  {
    if i == |order| {
      assert order[..i] == order;
    } else {
      assert order[..|order| - 1][..i] == order[..i];
      TuplesExhausted(order[..|order| - 1], i, share, block);
    }
  }

  lemma OneMorePool(order: seq<Denom>, i: nat, share: Denom -> nat, block: nat)
    requires i < |order|
    ensures var earlier, later := Tuples(order[..i], share, block), Tuples(order[..i + 1], share, block);
      var reward := if share(order[i]) > block - earlier.1 then block - earlier.1 else share(order[i]);
      && later.0 == (if reward == 0 then earlier.0 else earlier.0 + [PoolReward(order[i], reward)])
      && later.1 == earlier.1 + reward
  {
    assert order[..i + 1][..i] == order[..i];
  }

  /** `CollectPoolRewardTuples`, where `share` gives each pool's part: stops early when nothing remains. */
  method CollectPoolRewardTuples(order: seq<Denom>, block: nat, share: Denom -> nat)
    returns (tuples: seq<PoolReward>, coinsToMint: nat)
    ensures (tuples, coinsToMint) == Tuples(order, share, block)
  {
    coinsToMint, tuples := 0, [];
    var remaining := block;
    for i := 0 to |order|
      invariant (tuples, coinsToMint) == Tuples(order[..i], share, block)
      invariant remaining == block - coinsToMint
    {
      if remaining == 0 {
        TuplesExhausted(order, i, share, block);
        return;
      }
      OneMorePool(order, i, share, block);
      var poolDistribution := share(order[i]);
      if poolDistribution == 0 {
        continue;
      }
      if poolDistribution > remaining {
        poolDistribution := remaining;
      }
      coinsToMint := coinsToMint + poolDistribution;
      remaining := remaining - poolDistribution;
      tuples := tuples + [PoolReward(order[i], poolDistribution)];
    }
    assert order[..|order|] == order;
  }

  // ---------------------------------------------------------------- paying and burning

  /** Rewards left in the pools: all of them when accumulating, else those of pools with no provider list. */
  predicate Credited(t: PoolReward, parts: map<Denom, seq<Listed>>, distribute: bool) {
    !distribute || t.pool !in parts
  }

  function WithReward(pools: map<Denom, Pool>, d: Denom, reward: nat): map<Denom, Pool>
    requires d in pools
  {
    pools[d := pools[d].(nativeBalance := pools[d].nativeBalance + reward)]
  }

  function CreditedPools(pools: map<Denom, Pool>, tuples: seq<PoolReward>, parts: map<Denom, seq<Listed>>,
                         distribute: bool): (res: map<Denom, Pool>)
    requires forall t | t in tuples :: t.pool in pools
    ensures res.Keys == pools.Keys
    ensures forall d | d in pools :: res[d] == pools[d].(nativeBalance := res[d].nativeBalance)
  {
    if tuples == [] then pools
    else
      var t := tuples[|tuples| - 1];
      var earlier := CreditedPools(pools, tuples[..|tuples| - 1], parts, distribute);
      if !Credited(t, parts, distribute) then earlier
      else WithReward(earlier, t.pool, t.reward)
  }

  function CreditedSum(tuples: seq<PoolReward>, parts: map<Denom, seq<Listed>>, distribute: bool): nat {
    if tuples == [] then 0
    else
      var t := tuples[|tuples| - 1];
      CreditedSum(tuples[..|tuples| - 1], parts, distribute) + (if Credited(t, parts, distribute) then t.reward else 0)
  }

  ghost predicate Divisible(tuples: seq<PoolReward>, pools: map<Denom, Pool>, parts: map<Denom, seq<Listed>>) {
    forall t | t in tuples :: t.pool in pools && (t.pool in parts ==> Dividable(pools[t.pool].units, parts[t.pool]))
  }

  /** What the rewards owe to providers: each listed pool's reward, divided at the full rate. */
  ghost function RewardEntries(tuples: seq<PoolReward>, pools: map<Denom, Pool>,
                               parts: map<Denom, seq<Listed>>): seq<Entry>
    requires Divisible(tuples, pools, parts)
  {
    if tuples == [] then []
    else
      var t := tuples[|tuples| - 1];
      RewardEntries(tuples[..|tuples| - 1], pools, parts)
      + if t.pool in parts then EntriesFor(t.pool, t.reward, ONE, pools[t.pool].units, parts[t.pool]) else []
  }

  lemma {:induction false} OwedAllConcat(es: seq<Entry>, fs: seq<Entry>, failed: set<Addr>)
    ensures OwedAll(es + fs, failed) == OwedAll(es, failed) + OwedAll(fs, failed)
  {
    if es == [] {
      assert es + fs == fs;
    } else {
      assert (es + fs)[1..] == es[1..] + fs;
      OwedAllConcat(es[1..], fs, failed);
    }
  }

  lemma {:induction false} OwedBySinglePool(es: seq<Entry>, d: Denom)
    requires forall e | e in es :: e.pool == d
    ensures OwedAll(es, {}) == OwedBy(es, d, {})
  {
    if es != [] { OwedBySinglePool(es[1..], d); }
  }

  /** At the full rate a pool's providers are owed at most the reward. */
  lemma FullRateWithinReward(d: Denom, reward: nat, poolUnits: nat, lps: seq<Listed>)
    requires Dividable(poolUnits, lps)
    ensures OwedAll(EntriesFor(d, reward, ONE, poolUnits, lps), {}) <= reward
  {
    OwnEntriesOnly(d, reward, ONE, poolUnits, lps);
    OwedBySinglePool(EntriesFor(d, reward, ONE, poolUnits, lps), d);
    CapWithinDepth(ONE, reward);
  }

  lemma {:induction false} AllCredited(tuples: seq<PoolReward>, parts: map<Denom, seq<Listed>>)
    ensures CreditedSum(tuples, parts, false) == RewardSum(tuples)
  {
    if tuples != [] { AllCredited(tuples[..|tuples| - 1], parts); }
  }

  /** Rewards owed to providers and rewards credited to pools never exceed what was minted. */
  lemma {:induction false} OwedWithinMinted(tuples: seq<PoolReward>, pools: map<Denom, Pool>,
                                            parts: map<Denom, seq<Listed>>)
    requires Divisible(tuples, pools, parts)
    ensures OwedAll(RewardEntries(tuples, pools, parts), {}) + CreditedSum(tuples, parts, true) <= RewardSum(tuples)
  {
    if tuples != [] {
      var init, t := tuples[..|tuples| - 1], tuples[|tuples| - 1];
      OwedWithinMinted(init, pools, parts);
      if t.pool in parts {
        OwedAllConcat(RewardEntries(init, pools, parts), EntriesFor(t.pool, t.reward, ONE, pools[t.pool].units,
          parts[t.pool]), {});
        FullRateWithinReward(t.pool, t.reward, pools[t.pool].units, parts[t.pool]);
      } else {
        OwedAllConcat(RewardEntries(init, pools, parts), [], {});
      }
    }
  }

  /** The pools and the amounts owed after the rewards in `done`. */
  ghost predicate Through(done: seq<PoolReward>, start: map<Denom, Pool>, parts: map<Denom, seq<Listed>>,
                          pools: map<Denom, Pool>, es: seq<Entry>)
  {
    && Divisible(done, start, parts) && pools == CreditedPools(start, done, parts, true)
    && es == RewardEntries(done, start, parts)
  }

  /** One reward credited to its pool, or owed to its pool's providers. */
  ghost predicate Rewarded(t: PoolReward, parts: map<Denom, seq<Listed>>, before: map<Denom, Pool>,
                           after: map<Denom, Pool>, es: seq<Entry>, fs: seq<Entry>)
    requires t.pool in before
  {
    if t.pool in parts then
      && Dividable(before[t.pool].units, parts[t.pool]) && after == before
      && fs == es + EntriesFor(t.pool, t.reward, ONE, before[t.pool].units, parts[t.pool])
    else after == WithReward(before, t.pool, t.reward) && fs == es
  }

  lemma OneMoreReward(done: seq<PoolReward>, t: PoolReward, start: map<Denom, Pool>, parts: map<Denom, seq<Listed>>,
                      before: map<Denom, Pool>, after: map<Denom, Pool>, es: seq<Entry>, fs: seq<Entry>)
    requires t.pool in start && Through(done, start, parts, before, es) && Rewarded(t, parts, before, after, es, fs)
    ensures Through(done + [t], start, parts, after, fs)
  {
    assert (done + [t])[..|done|] == done;
  }

  lemma {:induction false} NotToModule(tuples: seq<PoolReward>, pools: map<Denom, Pool>, parts: map<Denom, seq<Listed>>)
    requires Divisible(tuples, pools, parts) && NoneIsModule(parts)
    ensures forall e | e in RewardEntries(tuples, pools, parts) :: e.addr != CLP
  {
    if tuples != [] {
      var t := tuples[|tuples| - 1];
      NotToModule(tuples[..|tuples| - 1], pools, parts);
      if t.pool in parts { OwnEntriesOnly(t.pool, t.reward, ONE, pools[t.pool].units, parts[t.pool]); }
    }
  }

  /** Every unblocked address gains what it is owed; every other balance, the module account's too, is as before. */
  ghost predicate Delivered(before: Bank, after: Bank, es: seq<Entry>, blocked: set<Addr>) {
    forall a, c :: Balance(after, a, c) ==
      Balance(before, a, c) + (if c == FURY && a != CLP && a !in blocked then OwedTo(es, a) else 0)
  }

  lemma BurnRestores(minted: Bank, paid: Bank, after: Bank, es: seq<Entry>, blocked: set<Addr>, preMinting: nat)
    requires PaidOut(minted, paid, es, blocked) && Balance(after, CLP, FURY) == preMinting
    requires forall a, c | (a, c) != (CLP, FURY) :: Balance(after, a, c) == Balance(paid, a, c)
    ensures Delivered(minted[(CLP, FURY) := preMinting], after, es, blocked)
  {
  }

  lemma DeliveredFrom(before: Bank, same: Bank, after: Bank, es: seq<Entry>, blocked: set<Addr>)
    requires Delivered(same, after, es, blocked) && forall a, c :: Balance(before, a, c) == Balance(same, a, c)
    ensures Delivered(before, after, es, blocked)
  {
  }

  ghost predicate Minted(before: Bank, after: Bank, n: nat) {
    forall a, c :: Balance(after, a, c) == Balance(before, a, c) + (if a == CLP && c == FURY then n else 0)
  }

  /** What a distribution adds to the supply: all it mints, less what it burns again when rewards are paid out. */
  ghost function SupplyGrowth(tuples: seq<PoolReward>, pools: map<Denom, Pool>, parts: map<Denom, seq<Listed>>,
                              distribute: bool, blocked: set<Addr>): nat
    requires distribute ==> Divisible(tuples, pools, parts)
  {
    if distribute then OwedAll(RewardEntries(tuples, pools, parts), blocked) else RewardSum(tuples)
  }

  /** The rewards of one distribution block: none when there is nothing to distribute or nothing to weigh it by. */
  function RewardTuples(order: seq<Denom>, pools: map<Denom, Pool>, block: nat, period: Period): seq<PoolReward>
    requires forall d | d in order :: d in pools
  {
    var totalDepth := TotalDepth(order, pools, period);
    if block == 0 || totalDepth == 0 then [] else Tuples(order, PoolShare(pools, block, totalDepth, period), block).0
  }

  lemma RewardsPositive(order: seq<Denom>, pools: map<Denom, Pool>, block: nat, period: Period)
    requires forall d | d in order :: d in pools
    ensures forall t | t in RewardTuples(order, pools, block, period) :: 0 < t.reward && t.pool in order
  {
    var totalDepth := TotalDepth(order, pools, period);
    if 0 < totalDepth { TuplesFromOrder(order, PoolShare(pools, block, totalDepth, period), block); }
  }

  /** A distribution mints at most what it was given, so it is a distributor in the sense of the emission bound. */
  lemma RewardsWithinBlock(order: seq<Denom>, pools: map<Denom, Pool>, block: nat, period: Period)
    requires forall d | d in order :: d in pools
    ensures RewardSum(RewardTuples(order, pools, block, period)) <= block
  {
    var totalDepth := TotalDepth(order, pools, period);
    if 0 < totalDepth { TuplesSumToMinted(order, PoolShare(pools, block, totalDepth, period), block); }
  }

  class RewardKeeper {
    var pools: map<Denom, Pool>
    var bank: Bank
    var supply: nat

    constructor (pools: map<Denom, Pool>, bank: Bank, supply: nat)
      ensures this.pools == pools && this.bank == bank && this.supply == supply
    {
      this.pools, this.bank, this.supply := pools, bank, supply;
    }

    method MintCoins(n: nat)
      modifies this`bank, this`supply
      ensures bank == old(bank)[(CLP, FURY) := old(Balance(bank, CLP, FURY)) + n] && supply == old(supply) + n
    {
      bank := bank[(CLP, FURY) := Balance(bank, CLP, FURY) + n];
      supply := supply + n;
    }

    method BurnCoins(n: nat)
      requires n <= Balance(bank, CLP, FURY) && n <= supply
      modifies this`bank, this`supply
      ensures bank == old(bank)[(CLP, FURY) := old(Balance(bank, CLP, FURY)) - n] && supply == old(supply) - n
    {
      bank := bank[(CLP, FURY) := Balance(bank, CLP, FURY) - n];
      supply := supply - n;
    }

    method AddRewardsToPool(d: Denom, reward: nat)
      requires d in pools
      modifies this`pools
      ensures pools == WithReward(old(pools), d, reward)
    {
      pools := pools[d := pools[d].(nativeBalance := pools[d].nativeBalance + reward)];
    }

    /** One turn of the loop over the rewards when they are paid out; it panics when `ok` is false. */
    method CollectReward(t: PoolReward, parts: map<Denom, seq<Listed>>, dist: Distribution) returns (ok: bool)
      requires t.pool in pools && dist.Collected() && t.pool !in dist.poolFury
      modifies this`pools, dist`poolFury, dist`lpFury, dist`lpPool, dist`entries
      ensures ok == (t.pool in parts ==> Dividable(old(pools)[t.pool].units, parts[t.pool]))
      ensures ok ==> dist.Collected() && dist.poolFury.Keys <= old(dist.poolFury.Keys) + {t.pool}
      ensures ok ==> Rewarded(t, parts, old(pools), pools, old(dist.entries), dist.entries)
    {
      if t.pool !in parts {
        AddRewardsToPool(t.pool, t.reward);
        return true;
      }
      ok := dist.CollectPool(t.pool, t.reward, ONE, pools[t.pool].units, parts[t.pool]);
    }

    /** The loop over the rewards when they are paid out. */
    method CollectAllRewards(tuples: seq<PoolReward>, parts: map<Denom, seq<Listed>>, dist: Distribution)
      returns (ok: bool)
      requires forall t | t in tuples :: t.pool in pools
      requires DistinctPools(tuples)
      requires dist.Collected() && dist.entries == [] && dist.poolFury == map[]
      modifies this`pools, dist`poolFury, dist`lpFury, dist`lpPool, dist`entries
      ensures ok == Divisible(tuples, old(pools), parts)
      ensures ok ==> pools == CreditedPools(old(pools), tuples, parts, true)
      ensures ok ==> dist.Collected() && dist.entries == RewardEntries(tuples, old(pools), parts)
    {
      ghost var start := pools;
      for i := 0 to |tuples|
        invariant Through(tuples[..i], start, parts, pools, dist.entries) && dist.Collected()
        invariant forall k | i <= k < |tuples| :: tuples[k].pool !in dist.poolFury
      {
        ghost var before, es := pools, dist.entries;
        assert tuples[i] in tuples;
        ok := CollectReward(tuples[i], parts, dist);
        if !ok { return; }
        OneMoreReward(tuples[..i], tuples[i], start, parts, before, pools, es, dist.entries);
        assert tuples[..i + 1] == tuples[..i] + [tuples[i]];
      }
      assert tuples[..|tuples|] == tuples;
      ok := true;
    }

    /** The loop over the rewards when they stay in the pools. */
    method AddAllRewards(tuples: seq<PoolReward>, parts: map<Denom, seq<Listed>>)
      requires forall t | t in tuples :: t.pool in pools
      modifies this`pools
      ensures pools == CreditedPools(old(pools), tuples, parts, false)
    {
      for i := 0 to |tuples|
        invariant pools == CreditedPools(old(pools), tuples[..i], parts, false)
      {
        assert tuples[..i + 1][..i] == tuples[..i];
        AddRewardsToPool(tuples[i].pool, tuples[i].reward);
      }
      assert tuples[..|tuples|] == tuples;
    }

    /** The payout half: transfers to the unblocked addresses, and the difference is burned. */
    method PayRewards(dist: Distribution, preMinting: nat, minted: nat, blocked: set<Addr>)
      requires dist.Collected() && CLP !in dist.lpFury && dist.bank == bank
      requires Balance(bank, CLP, FURY) == preMinting + minted && minted <= supply
      requires OwedAll(dist.entries, {}) <= minted
      modifies this`bank, this`supply, dist`poolFury, dist`bank
      ensures Delivered(old(bank)[(CLP, FURY) := preMinting], bank, dist.entries, blocked)
      ensures supply == old(supply) - minted + OwedAll(dist.entries, blocked)
      ensures forall d | d in dist.poolFury :: dist.poolFury[d] == OwedBy(dist.entries, d, blocked)
    {
      ghost var failed := dist.TransferProviderDistributionGeneric(blocked);
      FailedAreBlocked(dist.entries, dist.lpFury, dist.lpPool, failed, blocked);
      PaidOutExceptBlocked(old(bank), dist.bank, dist.entries, failed, blocked);
      forall d ensures OwedBy(dist.entries, d, failed) == OwedBy(dist.entries, d, blocked) {
        SameFailures(dist.entries, failed, blocked, d);
      }
      FailuresLower(dist.entries, "", blocked);
      bank := dist.bank;
      var diff := Balance(bank, CLP, FURY) - preMinting;
      if diff != 0 {
        BurnCoins(diff);
      }
      BurnRestores(old(bank), dist.bank, bank, dist.entries, blocked, preMinting);
    }

    /** Mints the rewards, pays what they owe to providers, and burns the rest. It panics when `ok` is false. */
    method MintAndPay(tuples: seq<PoolReward>, coinsToMint: nat, parts: map<Denom, seq<Listed>>, blocked: set<Addr>)
      returns (ok: bool, ghost es: seq<Entry>)
      requires (forall t | t in tuples :: t.pool in pools) && NoneIsModule(parts) && coinsToMint == RewardSum(tuples)
      requires DistinctPools(tuples)
      modifies this
      ensures ok == Divisible(tuples, old(pools), parts)
      ensures ok ==> pools == CreditedPools(old(pools), tuples, parts, true)
      ensures ok ==> es == RewardEntries(tuples, old(pools), parts)
      ensures ok ==> Delivered(old(bank), bank, es, blocked) && supply == old(supply) + OwedAll(es, blocked)
    {
      var preMinting := Balance(bank, CLP, FURY);
      MintCoins(coinsToMint);
      ghost var minted := bank;
      var dist := new Distribution(bank);
      ok := CollectAllRewards(tuples, parts, dist);
      es := dist.entries;
      if !ok { return; }
      OwedWithinMinted(tuples, old(pools), parts);
      NotToModule(tuples, old(pools), parts);
      assert AddressView(es, dist.lpFury, dist.lpPool, CLP);
      OwedAddressesHaveEntries(es, CLP);
      PayRewards(dist, preMinting, coinsToMint, blocked);
      DeliveredFrom(old(bank), minted[(CLP, FURY) := preMinting], bank, es, blocked);
    }

    /**
     `DistributeDepthRewards`. Returns the reward tuples; `es` are the amounts owed to providers, none when the rewards
     are left in the pools. It panics, when `ok` is false, exactly if rewards are paid out for a pool that lists
     providers and has no units.
     */
    method DistributeDepthRewards(order: seq<Denom>, block: nat, period: Period, parts: map<Denom, seq<Listed>>,
                                  blocked: set<Addr>)
      returns (ok: bool, tuples: seq<PoolReward>, ghost es: seq<Entry>)
      requires (forall d | d in order :: d in pools) && NoRepeats(order) && NoneIsModule(parts)
      modifies this
      ensures tuples == RewardTuples(order, old(pools), block, period) && forall t | t in tuples :: t.pool in old(pools)
      ensures ok == (period.distribute ==> Divisible(tuples, old(pools), parts))
      ensures ok ==> pools == CreditedPools(old(pools), tuples, parts, period.distribute)
      ensures ok && period.distribute ==>
        && es == RewardEntries(tuples, old(pools), parts) && Delivered(old(bank), bank, es, blocked)
        && supply == old(supply) + OwedAll(es, blocked)
      ensures !period.distribute
          ==> Minted(old(bank), bank, RewardSum(tuples)) && supply == old(supply) + RewardSum(tuples)
    {
      ok, tuples, es := true, [], [];
      var totalDepth := TotalDepth(order, pools, period);
      if block == 0 || totalDepth == 0 {
        assert RewardEntries(tuples, pools, parts) == [] && OwedAll(es, blocked) == 0;
        return;
      }
      var coinsToMint;
      tuples, coinsToMint := CollectPoolRewardTuples(order, block, PoolShare(pools, block, totalDepth, period));
      TuplesSumToMinted(order, PoolShare(pools, block, totalDepth, period), block);
      RewardedOnce(order, PoolShare(pools, block, totalDepth, period), block);
      TuplesFromOrder(order, PoolShare(pools, block, totalDepth, period), block);
      if period.distribute {
        ok, es := MintAndPay(tuples, coinsToMint, parts, blocked);
      } else {
        MintCoins(coinsToMint);
        AddAllRewards(tuples, parts);
      }
    }
  }
}
