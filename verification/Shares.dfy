/**
 Who gets what from a distribution: each pool's reward against its weighted depth, each provider's amount against its
 units, and what every address and every pool has gained when all is paid.
 */
module Shares {
  import opened Decimal
  import opened Pools
  import opened Sums
  import opened Ledger
  import opened Payout
  import opened Rewards
  import opened LedgerDistribution

  // ---------------------------------------------------------------- rewards by pool

  /** A pool's native balance times its own multiplier where the period has one, and the default one otherwise. */
  ghost function Weight(pools: map<Denom, Pool>, period: Period, d: Denom): nat
    requires d in pools
  {
    pools[d].nativeBalance * (if d in period.multipliers then period.multipliers[d] else period.defaultMultiplier)
  }

  ghost function Weights(order: seq<Denom>, pools: map<Denom, Pool>, period: Period): map<Denom, nat>
    requires forall d | d in order :: d in pools
  {
    map d | d in order :: Weight(pools, period, d)
  }

  lemma OneMoreWeight(init: seq<Denom>, d: Denom, pools: map<Denom, Pool>, period: Period)
    requires (forall c | c in init :: c in pools) && d in pools && d !in init
    ensures MapSum(Weights(init + [d], pools, period))
         == MapSum(Weights(init, pools, period)) + Weight(pools, period, d)
  {
    MapSumExtend(Weights(init, pools, period), Weights(init + [d], pools, period), d);
  }

  lemma OwnWeight(pools: map<Denom, Pool>, period: Period, d: Denom)
    requires d in pools
    ensures Mul(FromInt(pools[d].nativeBalance), period.PoolMultiplier(d)) == Weight(pools, period, d)
  {
    WeightedDepth(pools[d].nativeBalance, period.PoolMultiplier(d));
  }

  /** `calcTotalDepth` adds up the weights of all the pools. */
  lemma {:induction false} TotalIsSum(order: seq<Denom>, pools: map<Denom, Pool>, period: Period)
    requires (forall d | d in order :: d in pools) && NoRepeats(order)
    ensures TotalDepth(order, pools, period) == MapSum(Weights(order, pools, period))
  {
    if order == [] {
      assert Weights(order, pools, period) == map[];
    } else {
      var init, d := order[..|order| - 1], order[|order| - 1];
      TotalIsSum(init, pools, period);
      assert d !in init && order == init + [d];
      OneMoreWeight(init, d, pools, period);
      OwnWeight(pools, period, d);
    }
  }

  /** The reward of one pool. */
  function RewardOf(tuples: seq<PoolReward>, d: Denom): nat {
    if tuples == [] then 0
    else
      var t := tuples[|tuples| - 1];
      RewardOf(tuples[..|tuples| - 1], d) + if t.pool == d then t.reward else 0
  }

  /** The rewards of several pools together. */
  function RewardsOf(tuples: seq<PoolReward>, ds: seq<Denom>): nat {
    if ds == [] then 0 else RewardsOf(tuples, ds[..|ds| - 1]) + RewardOf(tuples, ds[|ds| - 1])
  }

  lemma RewardOfAppend(tuples: seq<PoolReward>, t: PoolReward, d: Denom)
    ensures RewardOf(tuples + [t], d) == RewardOf(tuples, d) + if t.pool == d then t.reward else 0
  {
    assert (tuples + [t])[..|tuples|] == tuples;
  }

  lemma {:induction false} RewardsOfAppend(tuples: seq<PoolReward>, t: PoolReward, ds: seq<Denom>)
    requires t.pool !in ds
    ensures RewardsOf(tuples + [t], ds) == RewardsOf(tuples, ds)
  {
    if ds != [] {
      RewardsOfAppend(tuples, t, ds[..|ds| - 1]);
      RewardOfAppend(tuples, t, ds[|ds| - 1]);
    }
  }

  lemma {:induction false} NoReward(tuples: seq<PoolReward>, d: Denom)
    requires forall t | t in tuples :: t.pool != d
    ensures RewardOf(tuples, d) == 0
  {
    if tuples != [] { NoReward(tuples[..|tuples| - 1], d); }
  }

  /** What a pool is given once `minted` has been given out: its part, or what remains. */
  function Given(part: nat, block: nat, minted: nat): nat
    requires minted <= block
  {
    if part > block - minted then block - minted else part
  }

  lemma LastGiven(order: seq<Denom>, share: Denom -> nat, block: nat, c: Denom, ds: seq<Denom>)
    requires order != [] && order[|order| - 1] !in ds
    ensures var init, d := order[..|order| - 1], order[|order| - 1];
      var (earlier, minted) := Tuples(init, share, block);
      var tuples := Tuples(order, share, block).0;
      && RewardOf(tuples, c) == RewardOf(earlier, c) + (if c == d then Given(share(d), block, minted) else 0)
      && RewardsOf(tuples, ds) == RewardsOf(earlier, ds)
  {
    var init, d := order[..|order| - 1], order[|order| - 1];
    var (earlier, minted) := Tuples(init, share, block);
    var t := PoolReward(d, Given(share(d), block, minted));
    RewardOfAppend(earlier, t, c);
    RewardsOfAppend(earlier, t, ds);
  }

  lemma NotYetRewarded(init: seq<Denom>, share: Denom -> nat, block: nat, d: Denom)
    requires d !in init
    ensures RewardOf(Tuples(init, share, block).0, d) == 0
  {
    TuplesFromOrder(init, share, block);
    NoReward(Tuples(init, share, block).0, d);
  }

  /** The first pools of the order were given what they would have been given alone. */
  lemma {:induction false} GivenSoFar(order: seq<Denom>, share: Denom -> nat, block: nat, i: nat)
    requires NoRepeats(order) && i <= |order|
    ensures RewardsOf(Tuples(order, share, block).0, order[..i]) == Tuples(order[..i], share, block).1
  {
    if i != 0 && i == |order| {
      var init, d := order[..i - 1], order[i - 1];
      assert d !in init && order[..i] == order;
      GivenSoFar(init, share, block, i - 1);
      assert init[..i - 1] == init;
      LastGiven(order, share, block, d, init);
      NotYetRewarded(init, share, block, d);
    } else if i != 0 {
      var init := order[..|order| - 1];
      assert init[..i] == order[..i] && order[|order| - 1] !in order[..i];
      GivenSoFar(init, share, block, i);
      LastGiven(order, share, block, "", order[..i]);
    }
  }

  lemma {:induction false} GivenByPool(order: seq<Denom>, share: Denom -> nat, block: nat, i: nat)
    requires NoRepeats(order) && i < |order|
    ensures RewardOf(Tuples(order, share, block).0, order[i])
         == Given(share(order[i]), block, Tuples(order[..i], share, block).1)
  {
    var init, d := order[..|order| - 1], order[|order| - 1];
    LastGiven(order, share, block, order[i], []);
    if i == |order| - 1 {
      assert d !in init;
      NotYetRewarded(init, share, block, d);
    } else {
      GivenByPool(init, share, block, i);
      assert init[..i] == order[..i];
    }
  }

  /** A pool's exact part of a distribution, truncated, up to one unit of the last digit per token distributed. */
  ghost predicate AtMostPart(reward: nat, weight: nat, total: nat, block: nat) {
    total * (reward * ONE) <= block * (weight * ONE) + block * total
  }

  ghost predicate AtLeastPart(reward: nat, weight: nat, total: nat, block: nat) {
    block * (weight * ONE) - block * total - total * ONE <= total * (reward * ONE)
  }

  /**
   Every pool's reward is its part of the distribution by weighted depth, among all the pools; only when the earlier
   pools left less than that, it is all that remained.
   */
  lemma RewardsAreFair(order: seq<Denom>, pools: map<Denom, Pool>, block: nat, period: Period, i: nat)
    requires (forall d | d in order :: d in pools) && NoRepeats(order) && i < |order|
    ensures var total := MapSum(Weights(order, pools, period));
      var tuples := RewardTuples(order, pools, block, period);
      var reward, weight := RewardOf(tuples, order[i]), Weight(pools, period, order[i]);
      && (block == 0 || total == 0 ==> tuples == [])
      && (total != 0 ==>
            && AtMostPart(reward, weight, total, block) && reward <= block - RewardsOf(tuples, order[..i])
            && (AtLeastPart(reward, weight, total, block) || reward == block - RewardsOf(tuples, order[..i])))
  {
    TotalIsSum(order, pools, period);
    var total, d := TotalDepth(order, pools, period), order[i];
    if total != 0 {
      var share := PoolShare(pools, block, total, period);
      PoolPartIsFair(period.PoolMultiplier(d), pools[d].nativeBalance, total, block);
      if block == 0 {
        NothingToReward(order[..i]);
      } else {
        GivenByPool(order, share, block, i);
        GivenSoFar(order, share, block, i);
        CutPart(share(d), Given(share(d), block, Tuples(order[..i], share, block).1), total);
      }
    }
  }

  lemma {:induction false} NothingToReward(ds: seq<Denom>)
    ensures RewardsOf([], ds) == 0
  {
    if ds != [] { NothingToReward(ds[..|ds| - 1]); }
  }

  lemma CutPart(part: nat, reward: nat, total: nat)
    requires reward <= part
    ensures total * (reward * ONE) <= total * (part * ONE)
  {
    ProductMonotone(total, reward * ONE, part * ONE);
  }

  /** A pool keeps its own reward when rewards accumulate, or when it lists no providers; otherwise it keeps nothing. */
  lemma {:induction false} PoolKeepsReward(pools: map<Denom, Pool>, tuples: seq<PoolReward>,
                                           parts: map<Denom, seq<Listed>>, distribute: bool, d: Denom)
    requires d in pools && forall t | t in tuples :: t.pool in pools
    ensures CreditedPools(pools, tuples, parts, distribute)[d].nativeBalance
         == pools[d].nativeBalance + if distribute && d in parts then 0 else RewardOf(tuples, d)
  {
    if tuples != [] { PoolKeepsReward(pools, tuples[..|tuples| - 1], parts, distribute, d); }
  }

  // ---------------------------------------------------------------- amounts by provider

  lemma CapIsNearest(rate: nat, depth: nat)
    ensures Mul(rate, FromInt(depth)) == rate * depth && Near(Cap(rate, depth) * ONE, rate * depth, HALF)
  {
    assert rate * FromInt(depth) == rate * depth * ONE;
    ChopExact(rate * depth);
  }

  lemma {:induction false} EntryAt(pool: Denom, furyPd: nat, cap: nat, poolUnits: nat, lps: seq<Listed>, i: nat)
    requires Dividable(poolUnits, lps) && i < |lps|
    ensures var es := PoolEntries(pool, furyPd, cap, poolUnits, lps).0;
      && OwedBy(es[..i], pool, {}) <= cap
      && es[i] == Entry(lps[i].addr, pool, Cut(CalcProviderDistributionAmount(furyPd, poolUnits, lps[i].units),
                                               OwedBy(es[..i], pool, {}), cap))
  {
    var n := |lps| - 1;
    var earlier := PoolEntries(pool, furyPd, cap, poolUnits, lps[..n]).0;
    var es := PoolEntries(pool, furyPd, cap, poolUnits, lps).0;
    assert es[..n] == earlier;
    if i < n {
      EntryAt(pool, furyPd, cap, poolUnits, lps[..n], i);
      assert es[..i] == earlier[..i];
    } else {
      PoolEntriesTotal(pool, furyPd, cap, poolUnits, lps[..n]);
    }
  }

  /** `total * units / poolUnits` to the nearest token, up to one unit of the last digit per token of the total. */
  ghost predicate AtMostShare(amount: nat, total: nat, units: nat, poolUnits: nat) {
    poolUnits * (amount * ONE * ONE) <= total * (units * ONE) + poolUnits * (HALF * ONE + HALF + total)
  }

  ghost predicate AtLeastShare(amount: nat, total: nat, units: nat, poolUnits: nat) {
    total * (units * ONE) - poolUnits * (HALF * ONE + HALF + total) <= poolUnits * (amount * ONE * ONE)
  }

  lemma CutShare(share: nat, amount: nat, poolUnits: nat)
    requires amount <= share
    ensures poolUnits * (amount * ONE * ONE) <= poolUnits * (share * ONE * ONE)
  {
    ProductMonotone(poolUnits, amount * ONE * ONE, share * ONE * ONE);
  }

  /**
   Every listed provider is owed its share of `rate * depth` by its own units; only when the earlier ones left less than
   that under the cap, it is all that remained. The cap is `rate * depth` to the nearest token.
   */
  lemma EntriesAreFair(pool: Denom, depth: nat, rate: nat, poolUnits: nat, lps: seq<Listed>, i: nat)
    requires Dividable(poolUnits, lps) && i < |lps|
    ensures |EntriesFor(pool, depth, rate, poolUnits, lps)| == |lps|
    ensures var es, cap := EntriesFor(pool, depth, rate, poolUnits, lps), Cap(rate, depth);
      var before := OwedBy(es[..i], pool, {});
      && es[i].addr == lps[i].addr && es[i].pool == pool
      && Near(cap * ONE, rate * depth, HALF) && before + es[i].amount <= cap
      && AtMostShare(es[i].amount, rate * depth, lps[i].units, poolUnits)
      && (AtLeastShare(es[i].amount, rate * depth, lps[i].units, poolUnits) || es[i].amount == cap - before)
  {
    CapIsNearest(rate, depth);
    EntryAt(pool, rate * depth, Cap(rate, depth), poolUnits, lps, i);
    ProviderAmountIsFair(rate * depth, poolUnits, lps[i].units);
    CutShare(CalcProviderDistributionAmount(rate * depth, poolUnits, lps[i].units),
      EntriesFor(pool, depth, rate, poolUnits, lps)[i].amount, poolUnits);
  }

  // ---------------------------------------------------------------- what an address is paid

  lemma {:induction false} OwedToConcat(es: seq<Entry>, fs: seq<Entry>, a: Addr)
    ensures OwedTo(es + fs, a) == OwedTo(es, a) + OwedTo(fs, a)
  {
    if es == [] {
      assert es + fs == fs;
    } else {
      assert (es + fs)[1..] == es[1..] + fs;
      OwedToConcat(es[1..], fs, a);
    }
  }

  lemma {:induction false} NotOwed(es: seq<Entry>, a: Addr)
    requires forall e | e in es :: e.addr != a
    ensures OwedTo(es, a) == 0
  {
    if es != [] { NotOwed(es[1..], a); }
  }

  lemma {:induction false} OwedOneEntry(es: seq<Entry>, a: Addr, i: nat)
    requires i < |es| && forall j | 0 <= j < |es| :: es[j].addr == a <==> j == i
    ensures OwedTo(es, a) == es[i].amount
  {
    var tail := es[1..];
    assert forall j | 0 <= j < |tail| :: tail[j] == es[j + 1];
    if i == 0 { NotOwed(tail, a); } else { OwedOneEntry(tail, a, i - 1); }
  }

  /** A provider listed once is owed its own entry, and one not listed nothing. */
  lemma OwedItsEntry(pool: Denom, depth: nat, rate: nat, poolUnits: nat, lps: seq<Listed>, a: Addr, i: nat)
    requires Dividable(poolUnits, lps) && i <= |lps|
    requires forall j | 0 <= j < |lps| :: lps[j].addr == a <==> j == i
    ensures |EntriesFor(pool, depth, rate, poolUnits, lps)| == |lps|
    ensures var es := EntriesFor(pool, depth, rate, poolUnits, lps);
      OwedTo(es, a) == if i == |lps| then 0 else es[i].amount
  {
    var es := EntriesFor(pool, depth, rate, poolUnits, lps);
    PoolEntriesTotal(pool, Mul(rate, FromInt(depth)), Cap(rate, depth), poolUnits, lps);
    if i == |lps| { NotOwed(es, a); } else { OwedOneEntry(es, a, i); }
  }

  /** What a pool owes in a payout: a share of its own native balance to each of its listed providers. */
  ghost function EntriesOfPool(d: Denom, pools: map<Denom, Pool>, parts: map<Denom, seq<Listed>>, rate: nat): seq<Entry>
    requires d in pools && (d in parts ==> Dividable(pools[d].units, parts[d]))
  {
    if d in parts then EntriesFor(d, pools[d].nativeBalance, rate, pools[d].units, parts[d]) else []
  }

  /** What each pool owes one address in a payout. */
  ghost function OwedByPools(order: seq<Denom>, pools: map<Denom, Pool>, parts: map<Denom, seq<Listed>>, rate: nat,
                             a: Addr): map<Denom, nat>
    requires Payable(order, pools, parts)
  {
    map d | d in order :: OwedTo(EntriesOfPool(d, pools, parts, rate), a)
  }

  lemma {:induction false} OwedInAll(order: seq<Denom>, pools: map<Denom, Pool>, parts: map<Denom, seq<Listed>>,
                                     rate: nat, a: Addr)
    requires Payable(order, pools, parts) && NoRepeats(order)
    ensures OwedTo(AllEntries(order, pools, parts, rate), a) == MapSum(OwedByPools(order, pools, parts, rate, a))
  {
    if order == [] {
      assert OwedByPools(order, pools, parts, rate, a) == map[];
    } else {
      var init, d := order[..|order| - 1], order[|order| - 1];
      OwedInAll(init, pools, parts, rate, a);
      assert d !in init && order == init + [d];
      OneMorePoolOwes(init, d, pools, parts, rate, a);
      LastPoolOwes(order, pools, parts, rate, a);
    }
  }

  lemma LastPoolOwes(order: seq<Denom>, pools: map<Denom, Pool>, parts: map<Denom, seq<Listed>>, rate: nat, a: Addr)
    requires Payable(order, pools, parts) && order != []
    ensures var init, d := order[..|order| - 1], order[|order| - 1];
      && Payable(init, pools, parts) && d in pools && (d in parts ==> Dividable(pools[d].units, parts[d]))
      && OwedTo(AllEntries(order, pools, parts, rate), a)
         == OwedTo(AllEntries(init, pools, parts, rate), a) + OwedTo(EntriesOfPool(d, pools, parts, rate), a)
  {
    var init, d := order[..|order| - 1], order[|order| - 1];
    assert d in order;
    OwedToConcat(AllEntries(init, pools, parts, rate), EntriesOfPool(d, pools, parts, rate), a);
  }

  lemma OneMorePoolOwes(init: seq<Denom>, d: Denom, pools: map<Denom, Pool>, parts: map<Denom, seq<Listed>>, rate: nat,
                        a: Addr)
    requires Payable(init + [d], pools, parts) && Payable(init, pools, parts) && d !in init && d in pools
    requires d in parts ==> Dividable(pools[d].units, parts[d])
    ensures MapSum(OwedByPools(init + [d], pools, parts, rate, a))
         == MapSum(OwedByPools(init, pools, parts, rate, a)) + OwedTo(EntriesOfPool(d, pools, parts, rate), a)
  {
    MapSumExtend(OwedByPools(init, pools, parts, rate, a), OwedByPools(init + [d], pools, parts, rate, a), d);
  }

  /** A payout gives every address outside the module what the pools owe it together, unless its transfer failed. */
  lemma PayoutReaches(l: Ledger, m: Ledger, order: seq<Denom>, parts: map<Denom, seq<Listed>>, rate: nat,
                      failed: set<Addr>, a: Addr)
    requires Payable(order, l.pools, parts) && NoRepeats(order) && a != CLP
    requires PayoutStep(l, m, AllEntries(order, l.pools, parts, rate), failed)
    ensures Balance(m.bank, a, FURY)
         == Balance(l.bank, a, FURY)
            + if a in failed then 0 else MapSum(OwedByPools(order, l.pools, parts, rate, a))
  {
    OwedInAll(order, l.pools, parts, rate, a);
  }

  /** What a rewarded pool owes one address: a share of the pool's reward, when it lists its providers. */
  ghost function RewardShare(d: Denom, reward: nat, pools: map<Denom, Pool>, parts: map<Denom, seq<Listed>>,
                             a: Addr): nat
    requires d in pools && (d in parts ==> Dividable(pools[d].units, parts[d]))
  {
    if d in parts then OwedTo(EntriesFor(d, reward, ONE, pools[d].units, parts[d]), a) else 0
  }

  ghost function RewardedPools(tuples: seq<PoolReward>): set<Denom> {
    set t | t in tuples :: t.pool
  }

  /** What each rewarded pool owes one address out of its whole reward. */
  ghost function OwedByRewards(tuples: seq<PoolReward>, pools: map<Denom, Pool>, parts: map<Denom, seq<Listed>>,
                               a: Addr): map<Denom, nat>
    requires Divisible(tuples, pools, parts)
  {
    map d | d in RewardedPools(tuples) :: RewardShare(d, RewardOf(tuples, d), pools, parts, a)
  }

  lemma RewardedPoolsAppend(init: seq<PoolReward>, t: PoolReward)
    ensures RewardedPools(init + [t]) == RewardedPools(init) + {t.pool}
  {
    assert t in init + [t];
    assert forall u | u in init :: u in init + [t];
  }

  lemma EarlierRewardsOwe(init: seq<PoolReward>, t: PoolReward, pools: map<Denom, Pool>,
                          parts: map<Denom, seq<Listed>>, a: Addr, d: Denom)
    requires Divisible(init + [t], pools, parts) && Divisible(init, pools, parts) && t.pool !in RewardedPools(init)
    requires d in RewardedPools(init) && d in RewardedPools(init + [t])
    ensures OwedByRewards(init + [t], pools, parts, a)[d] == OwedByRewards(init, pools, parts, a)[d]
  {
    RewardOfAppend(init, t, d);
  }

  lemma OneMoreRewardOwes(init: seq<PoolReward>, t: PoolReward, pools: map<Denom, Pool>,
                          parts: map<Denom, seq<Listed>>, a: Addr)
    requires Divisible(init + [t], pools, parts) && Divisible(init, pools, parts) && t.pool !in RewardedPools(init)
    requires t.pool in pools && (t.pool in parts ==> Dividable(pools[t.pool].units, parts[t.pool]))
    ensures MapSum(OwedByRewards(init + [t], pools, parts, a))
         == MapSum(OwedByRewards(init, pools, parts, a)) + RewardShare(t.pool, t.reward, pools, parts, a)
  {
    var before, after := OwedByRewards(init, pools, parts, a), OwedByRewards(init + [t], pools, parts, a);
    RewardedPoolsAppend(init, t);
    OnlyReward(init, t);
    forall d | d in before ensures after[d] == before[d] { EarlierRewardsOwe(init, t, pools, parts, a, d); }
    MapSumExtend(before, after, t.pool);
  }

  lemma OnlyReward(init: seq<PoolReward>, t: PoolReward)
    requires t.pool !in RewardedPools(init)
    ensures RewardOf(init + [t], t.pool) == t.reward
  {
    NoReward(init, t.pool);
    RewardOfAppend(init, t, t.pool);
  }

  lemma {:induction false} RewardsOwedInAll(tuples: seq<PoolReward>, pools: map<Denom, Pool>,
                                            parts: map<Denom, seq<Listed>>, a: Addr)
    requires Divisible(tuples, pools, parts) && DistinctPools(tuples)
    ensures OwedTo(RewardEntries(tuples, pools, parts), a) == MapSum(OwedByRewards(tuples, pools, parts, a))
  {
    if tuples == [] {
      assert OwedByRewards(tuples, pools, parts, a) == map[];
    } else {
      var init, t := tuples[..|tuples| - 1], tuples[|tuples| - 1];
      RewardsOwedInAll(init, pools, parts, a);
      assert tuples == init + [t];
      OneMoreRewardOwes(init, t, pools, parts, a);
      LastRewardOwes(tuples, pools, parts, a);
    }
  }

  lemma LastRewardOwes(tuples: seq<PoolReward>, pools: map<Denom, Pool>, parts: map<Denom, seq<Listed>>, a: Addr)
    requires Divisible(tuples, pools, parts) && tuples != []
    ensures var init, t := tuples[..|tuples| - 1], tuples[|tuples| - 1];
      && Divisible(init, pools, parts) && t.pool in pools
      && (t.pool in parts ==> Dividable(pools[t.pool].units, parts[t.pool]))
      && OwedTo(RewardEntries(tuples, pools, parts), a)
         == OwedTo(RewardEntries(init, pools, parts), a) + RewardShare(t.pool, t.reward, pools, parts, a)
  {
    var init, t := tuples[..|tuples| - 1], tuples[|tuples| - 1];
    assert t in tuples;
    var own := if t.pool in parts then EntriesFor(t.pool, t.reward, ONE, pools[t.pool].units, parts[t.pool]) else [];
    OwedToConcat(RewardEntries(init, pools, parts), own, a);
  }

  /** A paid-out reward gives every address outside the module what the rewarded pools owe it together. */
  lemma RewardReaches(l: Ledger, m: Ledger, tuples: seq<PoolReward>, parts: map<Denom, seq<Listed>>, blocked: set<Addr>,
                      a: Addr)
    requires RewardStep(l, m, tuples, parts, true, blocked) && DistinctPools(tuples) && a != CLP
    ensures Balance(m.bank, a, FURY)
         == Balance(l.bank, a, FURY) + if a in blocked then 0 else MapSum(OwedByRewards(tuples, l.pools, parts, a))
  {
    RewardsOwedInAll(tuples, l.pools, parts, a);
  }
}
