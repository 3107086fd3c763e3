/** The block hooks that move coins, run on the stores: provider payouts and reward distributions. */
module KeeperBlocks {
  import opened Decimal
  import opened Pools
  import opened Ledger
  import opened Payout
  import opened Rewards
  import opened LedgerDistribution
  import opened LedgerRun
  import opened Keeper
  import Emission

  /** `RemoveFuryFromPool`: fails when the pool has too little. */
  method RemoveFuryFromPool(k: Keeper, d: Denom, amount: nat) returns (ok: bool)
    requires d in k.pools
    modifies k`pools
    ensures ok == (amount <= old(k.pools)[d].nativeBalance)
    ensures ok
        ==> k.pools == old(k.pools)[d := old(k.pools)[d].(nativeBalance := old(k.pools)[d].nativeBalance - amount)]
    ensures !ok ==> k.pools == old(k.pools)
  {
    ok := k.pools[d].nativeBalance >= amount;
    if ok {
      k.pools := k.pools[d := k.pools[d].(nativeBalance := k.pools[d].nativeBalance - amount)];
    }
  }

  /** A pool with its share of a payout taken out, or as it was when it has too little. */
  function Less(p: Pool, amount: nat): Pool {
    if amount <= p.nativeBalance then p.(nativeBalance := p.nativeBalance - amount) else p
  }

  /** The last loop of `TransferProviderDistribution`, over the pools in any order; errors are ignored. */
  method RemoveFromPools(k: Keeper, poolFury: map<Denom, nat>)
    requires forall d | d in poolFury :: d in k.pools
    modifies k`pools
    ensures k.pools.Keys == old(k.pools.Keys)
    ensures forall d | d in k.pools ::
      k.pools[d] == if d in poolFury then Less(old(k.pools)[d], poolFury[d]) else old(k.pools)[d]
  {
    var remaining := poolFury.Keys;
    while remaining != {}
      invariant remaining <= poolFury.Keys && k.pools.Keys == old(k.pools.Keys)
      invariant forall d | d in k.pools ::
        k.pools[d] == if d in poolFury && d !in remaining then Less(old(k.pools)[d], poolFury[d]) else old(k.pools)[d]
      decreases remaining
    {
      var d :| d in remaining;
      var _ := RemoveFuryFromPool(k, d, poolFury[d]);
      remaining := remaining - {d};
    }
  }

  lemma {:induction false} NobodyIsModule(order: seq<Denom>, pools: map<Denom, Pool>, parts: map<Denom, seq<Listed>>,
                                          rate: nat)
    requires Payable(order, pools, parts) && NoneIsModule(parts)
    ensures forall e | e in AllEntries(order, pools, parts, rate) :: e.addr != CLP
  {
    if order != [] {
      var d := order[|order| - 1];
      NobodyIsModule(order[..|order| - 1], pools, parts, rate);
      if d in parts { OwnEntriesOnly(d, pools[d].nativeBalance, rate, pools[d].units, parts[d]); }
    }
  }

  lemma {:induction false} UnlistedOweNothing(order: seq<Denom>, pools: map<Denom, Pool>,
                                              parts: map<Denom, seq<Listed>>, rate: nat, d: Denom)
    requires Payable(order, pools, parts) && (d !in order || d !in parts)
    ensures forall e | e in AllEntries(order, pools, parts, rate) :: e.pool != d
  {
    if order != [] {
      var last := order[|order| - 1];
      UnlistedOweNothing(order[..|order| - 1], pools, parts, rate, d);
      if last in parts { OwnEntriesOnly(last, pools[last].nativeBalance, rate, pools[last].units, parts[last]); }
    }
  }

  /** What is taken from each pool fits in it, whichever transfers failed. */
  lemma PayoutFits(l: Ledger, order: seq<Denom>, parts: map<Denom, seq<Listed>>, rate: nat, failed: set<Addr>, d: Denom)
    requires ListsOf(l, order, parts) && Payable(order, l.pools, parts) && rate <= ONE && d in l.pools
    ensures OwedBy(AllEntries(order, l.pools, parts, rate), d, failed) <= l.pools[d].nativeBalance
    ensures forall e | e in AllEntries(order, l.pools, parts, rate) :: e.pool in l.pools
    ensures d !in parts ==> OwedBy(AllEntries(order, l.pools, parts, rate), d, failed) == 0
  {
    var es := AllEntries(order, l.pools, parts, rate);
    CollectedWithinCap(order, l.pools, parts, rate, d);
    CapWithinDepth(rate, l.pools[d].nativeBalance);
    FailuresLower(es, d, failed);
    if d !in parts {
      UnlistedOweNothing(order, l.pools, parts, rate, d);
      NothingOwedBy(es, d);
    }
  }

  lemma AllPayoutsFit(l: Ledger, order: seq<Denom>, parts: map<Denom, seq<Listed>>, rate: nat, failed: set<Addr>)
    requires ListsOf(l, order, parts) && Payable(order, l.pools, parts) && rate <= ONE
    ensures var es := AllEntries(order, l.pools, parts, rate);
      && (forall d | d in l.pools ::
            OwedBy(es, d, failed) <= l.pools[d].nativeBalance && (d !in parts ==> OwedBy(es, d, failed) == 0))
      && (forall e | e in es :: e.pool in l.pools)
  {
    forall d | d in l.pools
      ensures var owed := OwedBy(AllEntries(order, l.pools, parts, rate), d, failed);
        owed <= l.pools[d].nativeBalance && (d !in parts ==> owed == 0)
    {
      PayoutFits(l, order, parts, rate, failed, d);
    }
    if order == [] {
      assert AllEntries(order, l.pools, parts, rate) == [];
    } else {
      PayoutFits(l, order, parts, rate, failed, order[0]);
    }
  }

  /**
   `doProviderDistribution` and the transfers: the pools' totals end as what was delivered on their behalf. It panics,
   when `ok` is false, exactly if a pool lists providers and has no units.
   */
  method CollectAndTransfer(order: seq<Denom>, pools: map<Denom, Pool>, parts: map<Denom, seq<Listed>>, rate: nat,
                            bank: Bank, blocked: set<Addr>)
    returns (ok: bool, poolFury: map<Denom, nat>, paid: Bank, ghost failed: set<Addr>)
    requires (forall d | d in order :: d in pools) && NoRepeats(order) && NoneIsModule(parts)
    ensures ok == Payable(order, pools, parts)
    ensures ok ==> forall d :: d in poolFury <==> d in order && d in parts
    ensures ok ==> forall d | d in poolFury :: poolFury[d] == OwedBy(AllEntries(order, pools, parts, rate), d, failed)
    ensures ok ==> PaidOut(bank, paid, AllEntries(order, pools, parts, rate), failed)
  {
    var dist := new Distribution(bank);
    ok := dist.CollectProviderDistributions(order, pools, parts, rate);
    poolFury, paid, failed := dist.poolFury, dist.bank, {};
    if !ok { return; }
    NobodyIsModule(order, pools, parts, rate);
    assert AddressView(dist.entries, dist.lpFury, dist.lpPool, CLP);
    OwedAddressesHaveEntries(dist.entries, CLP);
    failed := dist.TransferProviderDistributionGeneric(blocked);
    poolFury, paid := dist.poolFury, dist.bank;
  }

  /** `ProviderDistributionPolicyRun`: collect, transfer, and take what was delivered out of the pools. */
  method ProviderDistributionPolicyRun(k: Keeper, order: seq<Denom>, parts: map<Denom, seq<Listed>>, rate: nat,
                                       blocked: set<Addr>)
    returns (ok: bool, ghost failed: set<Addr>)
    requires ListsOf(k.State(), order, parts) && NoneIsModule(parts) && rate <= ONE
    modifies k
    ensures ok == Payable(order, old(k.pools), parts)
    ensures ok ==> Next(old(k.State()), PayoutBlock(order, parts, rate, failed), k.State())
  {
    ghost var l := k.State();
    var poolFury, paid;
    ok, poolFury, paid, failed := CollectAndTransfer(order, k.pools, parts, rate, k.bank, blocked);
    if !ok { return; }
    k.bank := paid;
    AllPayoutsFit(l, order, parts, rate, failed);
    RemoveFromPools(k, poolFury);
  }

  /**
   The reward half of `EndBlocker` on a distribution block, and what it adds to the supply. It panics when `ok` is
   false.
   */
  method RewardPolicyRun(k: Keeper, supply: nat, order: seq<Denom>, parts: map<Denom, seq<Listed>>, block: nat,
                         period: Period, blocked: set<Addr>)
    returns (ok: bool, newSupply: nat)
    requires ListsOf(k.State(), order, parts) && NoneIsModule(parts)
    modifies k
    ensures ok
         == (period.distribute ==> Divisible(RewardTuples(order, old(k.pools), block, period), old(k.pools), parts))
    ensures ok ==> Next(old(k.State()), RewardBlock(order, parts, block, period, blocked), k.State())
    ensures ok ==> supply <= newSupply <= supply + block
    ensures ok ==>
      var tuples := RewardTuples(order, old(k.pools), block, period);
      newSupply == supply + SupplyGrowth(tuples, old(k.pools), parts, period.distribute, blocked)
  {
    var rewards := new RewardKeeper(k.pools, k.bank, supply);
    var completed, tuples, es := rewards.DistributeDepthRewards(order, block, period, parts, blocked);
    ok := completed;
    newSupply := rewards.supply;
    if !ok { return; }
    Emission.DistributionWithinBlock(order, k.pools, block, period, parts, blocked);
    k.pools, k.bank := rewards.pools, rewards.bank;
  }
}
