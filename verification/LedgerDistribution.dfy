/** Provider payouts and reward distributions as steps of the ledger. */
module LedgerDistribution {
  import opened Pools
  import opened Sums
  import opened Ledger
  import opened LedgerInvariants
  import opened Payout
  import opened Rewards

  /** The ledger after paying `es`, of which the transfers to `failed` did not happen. */
  ghost predicate PayoutStep(l: Ledger, m: Ledger, es: seq<Entry>, failed: set<Addr>) {
    && (forall e | e in es :: e.pool in l.pools)
    && m.pools.Keys == l.pools.Keys
    && (forall d | d in l.pools ::
          && OwedBy(es, d, failed) <= l.pools[d].nativeBalance
          && m.pools[d] == l.pools[d].(nativeBalance := l.pools[d].nativeBalance - OwedBy(es, d, failed)))
    && m.providers == l.providers && m.height == l.height
    && PaidOut(l.bank, m.bank, es, failed)
  }

  ghost function OwedByPool(es: seq<Entry>, keys: set<Denom>, failed: set<Addr>): map<Denom, nat> {
    map d | d in keys :: OwedBy(es, d, failed)
  }

  /** What the pools give up together is what the addresses receive together. */
  lemma {:induction false} PoolsPayWhatIsDelivered(es: seq<Entry>, keys: set<Denom>, failed: set<Addr>)
    requires forall e | e in es :: e.pool in keys
    ensures MapSum(OwedByPool(es, keys, failed)) == OwedAll(es, failed)
  {
    if es == [] {
      MapSumZero(OwedByPool(es, keys, failed));
    } else {
      var tail := OwedByPool(es[1..], keys, failed);
      PoolsPayWhatIsDelivered(es[1..], keys, failed);
      assert es[0] in es;
      var d := es[0].pool;
      assert OwedByPool(es, keys, failed) == tail[d := OwedBy(es, d, failed)];
      MapSumUpdate(tail, d, OwedBy(es, d, failed));
    }
  }

  /** Whatever transfers fail, a payout leaves the surplus of every denomination where it was. */
  lemma PayoutKeepsSurplus(l: Ledger, m: Ledger, es: seq<Entry>, failed: set<Addr>)
    requires PayoutStep(l, m, es, failed)
    ensures SameSurplus(l, m)
  {
    var paid := OwedByPool(es, l.pools.Keys, failed);
    PoolsPayWhatIsDelivered(es, l.pools.Keys, failed);
    MapSumAdd(NativeHoldings(m.pools), paid, NativeHoldings(l.pools));
  }

  /** A payout keeps the invariant exactly when it delivers less than every pool's native depth. */
  lemma PayoutKeepsInvariantIff(l: Ledger, m: Ledger, es: seq<Entry>, failed: set<Addr>)
    requires Invariant(l) && PayoutStep(l, m, es, failed)
    ensures Invariant(m) <==> forall d | d in l.pools :: OwedBy(es, d, failed) < l.pools[d].NativeDepth()
  {
    forall d | d in m.pools ensures m.pools[d].units == ProviderUnits(m, d) {
      assert ProviderUnits(m, d) == ProviderUnits(l, d);
    }
    forall d | d in m.pools ensures IsOpen(m.pools[d]) <==> OwedBy(es, d, failed) < l.pools[d].NativeDepth() {
      assert IsOpen(l.pools[d]);
    }
  }

  /** What one pool owes in the whole collection stays within its cap. */
  lemma {:induction false} CollectedWithinCap(order: seq<Denom>, pools: map<Denom, Pool>,
                                              parts: map<Denom, seq<Listed>>, rate: nat, d: Denom)
    requires Payable(order, pools, parts) && NoRepeats(order) && d in pools
    ensures OwedBy(AllEntries(order, pools, parts, rate), d, {})
         <= if d in order then Cap(rate, pools[d].nativeBalance) else 0
    ensures forall e | e in AllEntries(order, pools, parts, rate) :: e.pool in order
  {
    if order != [] {
      var init, last := order[..|order| - 1], order[|order| - 1];
      CollectedWithinCap(init, pools, parts, rate, d);
      var own := if last !in parts then []
                 else EntriesFor(last, pools[last].nativeBalance, rate, pools[last].units, parts[last]);
      OwedByConcat(AllEntries(init, pools, parts, rate), own, d, {});
      if last in parts {
        OwnEntriesOnly(last, pools[last].nativeBalance, rate, pools[last].units, parts[last]);
      }
      assert last !in init;
    }
  }

  // ---------------------------------------------------------------- rewards

  /** The ledger after distributing rewards, of which the transfers to `blocked` did not happen. */
  ghost predicate RewardStep(l: Ledger, m: Ledger, tuples: seq<PoolReward>, parts: map<Denom, seq<Listed>>,
                             distribute: bool, blocked: set<Addr>) {
    && (forall t | t in tuples :: t.pool in l.pools)
    && m.pools == CreditedPools(l.pools, tuples, parts, distribute)
    && m.providers == l.providers && m.height == l.height
    && if distribute then
         Divisible(tuples, l.pools, parts) && Delivered(l.bank, m.bank, RewardEntries(tuples, l.pools, parts), blocked)
       else Minted(l.bank, m.bank, RewardSum(tuples))
  }

  lemma {:induction false} CreditedHoldings(pools: map<Denom, Pool>, tuples: seq<PoolReward>,
                                            parts: map<Denom, seq<Listed>>, distribute: bool)
    requires forall t | t in tuples :: t.pool in pools
    ensures MapSum(NativeHoldings(CreditedPools(pools, tuples, parts, distribute)))
         == MapSum(NativeHoldings(pools)) + CreditedSum(tuples, parts, distribute)
  {
    if tuples != [] {
      var init, t := tuples[..|tuples| - 1], tuples[|tuples| - 1];
      CreditedHoldings(pools, init, parts, distribute);
      var earlier := CreditedPools(pools, init, parts, distribute);
      if Credited(t, parts, distribute) {
        HoldingsUpdate(earlier, t.pool, WithReward(earlier, t.pool, t.reward)[t.pool]);
      }
    }
  }

  lemma {:induction false} CreditedOthersSame(pools: map<Denom, Pool>, tuples: seq<PoolReward>,
                                              parts: map<Denom, seq<Listed>>, distribute: bool, d: Denom)
    requires d in pools && forall t | t in tuples :: t.pool in pools
    ensures pools[d].nativeBalance <= CreditedPools(pools, tuples, parts, distribute)[d].nativeBalance
  {
    if tuples != [] { CreditedOthersSame(pools, tuples[..|tuples| - 1], parts, distribute, d); }
  }

  /** When distributing, the native surplus falls by exactly the rewards credited to pools that list no providers. */
  lemma RewardSurplus(l: Ledger, m: Ledger, tuples: seq<PoolReward>, parts: map<Denom, seq<Listed>>, distribute: bool,
                      blocked: set<Addr>)
    requires FURY !in l.pools && RewardStep(l, m, tuples, parts, distribute, blocked)
    ensures Surplus(m, FURY) == Surplus(l, FURY) - (if distribute then CreditedSum(tuples, parts, true) else 0)
    ensures forall d | d != FURY :: Surplus(m, d) == Surplus(l, d)
  {
    CreditedHoldings(l.pools, tuples, parts, distribute);
    AllCredited(tuples, parts);
  }

  ghost predicate AllListed(tuples: seq<PoolReward>, parts: map<Denom, seq<Listed>>) {
    forall t | t in tuples :: t.pool in parts
  }

  lemma AllListedAppend(init: seq<PoolReward>, t: PoolReward, parts: map<Denom, seq<Listed>>)
    ensures AllListed(init + [t], parts) <==> AllListed(init, parts) && t.pool in parts
  {
    assert t in init + [t];
    assert forall u | u in init :: u in init + [t];
  }

  lemma {:induction false} CreditedSumZero(tuples: seq<PoolReward>, parts: map<Denom, seq<Listed>>)
    requires forall t | t in tuples :: 0 < t.reward
    ensures CreditedSum(tuples, parts, true) == 0 <==> AllListed(tuples, parts)
  {
    if tuples != [] {
      var init, t := tuples[..|tuples| - 1], tuples[|tuples| - 1];
      CreditedSumZero(init, parts);
      AllListedAppend(init, t, parts);
      assert tuples == init + [t];
    }
  }

  /** A distribution keeps the backing exactly when every rewarded pool lists its providers, or nothing is paid out. */
  lemma RewardsKeepSurplusIff(l: Ledger, m: Ledger, tuples: seq<PoolReward>, parts: map<Denom, seq<Listed>>,
                              distribute: bool, blocked: set<Addr>)
    requires FURY !in l.pools && RewardStep(l, m, tuples, parts, distribute, blocked)
    requires forall t | t in tuples :: 0 < t.reward
    ensures SameSurplus(l, m) <==> !distribute || AllListed(tuples, parts)
  {
    RewardSurplus(l, m, tuples, parts, distribute, blocked);
    CreditedSumZero(tuples, parts);
  }

  lemma RewardsKeepInvariant(l: Ledger, m: Ledger, tuples: seq<PoolReward>, parts: map<Denom, seq<Listed>>,
                             distribute: bool, blocked: set<Addr>)
    requires Invariant(l) && RewardStep(l, m, tuples, parts, distribute, blocked)
    ensures Invariant(m)
  {
    forall d | d in m.pools ensures m.pools[d].units == ProviderUnits(m, d) && IsOpen(m.pools[d]) {
      CreditedOthersSame(l.pools, tuples, parts, distribute, d);
      assert IsOpen(l.pools[d]) && ProviderUnits(m, d) == ProviderUnits(l, d);
    }
  }
}
