/**
 How many reward coins are minted over a run of blocks. Each block of a reward period adds its part of the period's
 allocation to an accumulator; a distribution block mints at most the accumulator and clears it.
 */
module Emission {
  import opened Decimal
  import opened Pools
  import opened Ledger
  import opened Payout
  import Rewards

  datatype Period = Period(start: nat, end: nat, allocation: nat, mod: nat, policy: Rewards.Period)

  predicate Contains(p: Period, h: nat) {
    p.start <= h <= p.end
  }

  /** `CalcBlockDistribution`. */
  function CalcBlockDistribution(p: Period): nat
    requires p.start <= p.end
  {
    p.allocation / (p.end - p.start + 1)
  }

  ghost predicate Valid(periods: seq<Period>) {
    forall p | p in periods :: p.start <= p.end
  }

  /**
   `GetCurrentRewardPeriod`: the first period that contains the height, as an index; `|periods|` when there is none.
   */
  function CurrentPeriod(periods: seq<Period>, h: nat): (i: nat)
    ensures i <= |periods|
    ensures i < |periods| ==> Contains(periods[i], h)
    ensures forall j | 0 <= j < i :: !Contains(periods[j], h)
  {
    if periods == [] then 0
    else if Contains(periods[0], h) then 0
    else 1 + CurrentPeriod(periods[1..], h)
  }

  /** `IsDistributionBlockPure`, with a zero modulus read as one. */
  predicate IsDistributionBlock(p: Period, h: nat)
    requires p.start <= h
  {
    (h - p.start) % (if p.mod == 0 then 1 else p.mod) == 0
  }

  /** What is waiting to be distributed, and the supply of the native coin. */
  datatype Accumulator = Accumulator(accu: nat, supply: nat)

  /** What a block adds to the distribution. */
  function Added(periods: seq<Period>, h: nat): nat
    requires Valid(periods)
  {
    var i := CurrentPeriod(periods, h);
    if i == |periods| || periods[i].allocation == 0 then 0 else CalcBlockDistribution(periods[i])
  }

  /** A block of a period. A distribution that mints less, or nothing, clears the accumulator all the same. */
  predicate EndOf(p: Period, s: Accumulator, t: Accumulator, h: nat)
    requires Contains(p, h)
  {
    var blockDistribution := s.accu + CalcBlockDistribution(p);
    if IsDistributionBlock(p, h)
    then t.accu == 0 && s.supply <= t.supply <= s.supply + blockDistribution
    else t == Accumulator(blockDistribution, s.supply)
  }

  /** The reward part of `EndBlocker`. */
  predicate EndBlock(s: Accumulator, t: Accumulator, periods: seq<Period>, h: nat)
    requires Valid(periods)
  {
    var i := CurrentPeriod(periods, h);
    if i == |periods| || periods[i].allocation == 0 then t == s else EndOf(periods[i], s, t, h)
  }

  /** The states before and after each of the blocks from height `first` on. */
  predicate IsRun(run: seq<Accumulator>, periods: seq<Period>, first: nat)
    requires Valid(periods)
  {
    run != [] && forall n | 0 <= n < |run| - 1 :: EndBlock(run[n], run[n + 1], periods, first + n)
  }

  /** The distributions of the `n` blocks from `first` on. */
  function AddedOver(periods: seq<Period>, first: nat, n: nat): nat
    requires Valid(periods)
  {
    if n == 0 then 0 else AddedOver(periods, first, n - 1) + Added(periods, first + n - 1)
  }

  lemma {:induction false} MintedWithinAdded(run: seq<Accumulator>, periods: seq<Period>, first: nat, n: nat)
    requires Valid(periods) && IsRun(run, periods, first) && n < |run|
    ensures run[n].supply + run[n].accu <= run[0].supply + run[0].accu + AddedOver(periods, first, n)
  {
    if n != 0 {
      MintedWithinAdded(run, periods, first, n - 1);
      assert EndBlock(run[n - 1], run[n - 1 + 1], periods, first + (n - 1));
    }
  }

  // ---------------------------------------------------------------- each period gives out at most its allocation

  /** How many of the run's blocks fall to period `i`. */
  function Visits(periods: seq<Period>, i: nat, first: nat, n: nat): nat {
    if n == 0 then 0
    else Visits(periods, i, first, n - 1) + if CurrentPeriod(periods, first + n - 1) == i then 1 else 0
  }

  /** No block is visited twice, so a period is visited at most once per block of its own. */
  lemma {:induction false} VisitsWithinPeriod(periods: seq<Period>, i: nat, first: nat, n: nat)
    requires Valid(periods) && i < |periods|
    ensures var p := periods[i];
      var reached := first + n;
      Visits(periods, i, first, n) <=
        if reached <= p.start then 0 else if reached > p.end then p.end - p.start + 1 else reached - p.start
  {
    assert periods[i] in periods;
    if n != 0 { VisitsWithinPeriod(periods, i, first, n - 1); }
  }

  /** The sum, over the first `k` periods, of visits times block distribution. */
  function GivenOut(periods: seq<Period>, k: nat, first: nat, n: nat): nat
    requires Valid(periods) && k <= |periods|
  {
    if k == 0 then 0
    else
      assert periods[k - 1] in periods;
      GivenOut(periods, k - 1, first, n) + Visits(periods, k - 1, first, n) * CalcBlockDistribution(periods[k - 1])
  }

  /** The allocations of those of the first `k` periods that the run visits. */
  function Allocated(periods: seq<Period>, k: nat, first: nat, n: nat): nat
    requires k <= |periods|
  {
    if k == 0 then 0
    else
      Allocated(periods, k - 1, first, n)
      + if Visits(periods, k - 1, first, n) == 0 then 0 else periods[k - 1].allocation
  }

  lemma {:induction false} NothingGivenOut(periods: seq<Period>, k: nat, first: nat)
    requires Valid(periods) && k <= |periods|
    ensures GivenOut(periods, k, first, 0) == 0
  {
    if k != 0 { NothingGivenOut(periods, k - 1, first); }
  }

  /** One more block gives out its own period's part. */
  lemma {:induction false} OneMoreVisit(periods: seq<Period>, k: nat, first: nat, n: nat)
    requires Valid(periods) && k <= |periods|
    ensures var i := CurrentPeriod(periods, first + n);
      && (i < |periods| ==> periods[i] in periods)
      && GivenOut(periods, k, first, n + 1)
         == GivenOut(periods, k, first, n) + if i < k then CalcBlockDistribution(periods[i]) else 0
  {
    if k != 0 {
      OneMoreVisit(periods, k - 1, first, n);
      assert periods[k - 1] in periods;
      ProductOneMore(Visits(periods, k - 1, first, n), CalcBlockDistribution(periods[k - 1]));
    }
  }

  lemma {:induction false} AddedIsGivenOut(periods: seq<Period>, first: nat, n: nat)
    requires Valid(periods)
    ensures AddedOver(periods, first, n) <= GivenOut(periods, |periods|, first, n)
  {
    if n == 0 {
      NothingGivenOut(periods, |periods|, first);
    } else {
      AddedIsGivenOut(periods, first, n - 1);
      OneMoreVisit(periods, |periods|, first, n - 1);
    }
  }

  lemma PartTimesVisits(visits: nat, allocation: nat, length: nat)
    requires visits <= length && 1 <= length
    ensures visits * (allocation / length) <= allocation
  {
    var part := allocation / length;
    assert length * part <= allocation;
    ProductMonotone(part, visits, length);
  }

  lemma {:induction false} GivenOutWithinAllocations(periods: seq<Period>, k: nat, first: nat, n: nat)
    requires Valid(periods) && k <= |periods|
    ensures GivenOut(periods, k, first, n) <= Allocated(periods, k, first, n)
  {
    if k != 0 {
      GivenOutWithinAllocations(periods, k - 1, first, n);
      var p := periods[k - 1];
      assert p in periods;
      VisitsWithinPeriod(periods, k - 1, first, n);
      PartTimesVisits(Visits(periods, k - 1, first, n), p.allocation, p.end - p.start + 1);
    }
  }

  /**
   Emission over every run of blocks, with any moduli and any accumulator left over: by how much the supply grew, and
   what is still waiting, is at most the accumulator at the start plus the allocations of the periods visited.
   */
  lemma EmissionIsBounded(run: seq<Accumulator>, periods: seq<Period>, first: nat, n: nat)
    requires Valid(periods) && IsRun(run, periods, first) && n < |run|
    ensures run[n].supply - run[0].supply + run[n].accu <= run[0].accu + Allocated(periods, |periods|, first, n)
  {
    MintedWithinAdded(run, periods, first, n);
    AddedIsGivenOut(periods, first, n);
    GivenOutWithinAllocations(periods, |periods|, first, n);
  }

  // ---------------------------------------------------------------- one period, block by block

  /** No earlier period of the list takes any of its blocks. */
  ghost predicate Alone(periods: seq<Period>, i: nat)
    requires i < |periods|
  {
    forall h: nat {:trigger CurrentPeriod(periods, h)} | Contains(periods[i], h) :: CurrentPeriod(periods, h) == i
  }

  lemma AddedAt(periods: seq<Period>, i: nat, h: nat, part: nat)
    requires Valid(periods) && i < |periods| && Alone(periods, i) && Contains(periods[i], h)
    requires part == CalcBlockDistribution(periods[i])
    ensures Added(periods, h) == part
  {
    if periods[i].allocation == 0 { DivUnique(0, periods[i].end - periods[i].start + 1, 0, 0); }
  }

  lemma {:induction false} AddedInPeriod(periods: seq<Period>, i: nat, n: nat, part: nat)
    requires Valid(periods) && i < |periods| && Alone(periods, i) && periods[i].start <= periods[i].end
    requires n <= periods[i].end - periods[i].start + 1 && part == CalcBlockDistribution(periods[i])
    ensures AddedOver(periods, periods[i].start, n) == n * part
  {
    if n != 0 {
      AddedInPeriod(periods, i, n - 1, part);
      AddedAt(periods, i, periods[i].start + n - 1, part);
      ProductOneMore(n - 1, part);
    }
  }

  /** The blocks of a period give out its whole allocation, except for the remainder of the division by their number. */
  lemma WholeAllocationAdded(periods: seq<Period>, i: nat, length: nat)
    requires Valid(periods) && i < |periods| && Alone(periods, i) && periods[i].start <= periods[i].end
    requires length == periods[i].end - periods[i].start + 1
    ensures AddedOver(periods, periods[i].start, length) + periods[i].allocation % length == periods[i].allocation
  {
    AddedInPeriod(periods, i, length, CalcBlockDistribution(periods[i]));
    Remainder(periods[i].allocation, length);
  }

  lemma Remainder(n: nat, d: nat)
    requires 0 < d
    ensures d * (n / d) + n % d == n
  {
  }

  /** The number of blocks from one distribution to the next; a modulus of zero is read as one. */
  function Interval(p: Period): nat { if p.mod == 0 then 1 else p.mod }

  /** The height of the `k`-th distribution. */
  function DistributionHeight(p: Period, k: nat): nat { p.start + k * Interval(p) }

  /** Distributions fall on the start of the period and on every interval after it. */
  lemma DistributionHeights(p: Period, h: nat)
    requires p.start <= h
    ensures IsDistributionBlock(p, h) <==> exists k: nat :: h == DistributionHeight(p, k)
  {
    var n, l := h - p.start, Interval(p);
    if IsDistributionBlock(p, h) {
      assert n == l * (n / l) + n % l;
      assert h == DistributionHeight(p, n / l);
    }
    forall k: nat | h == DistributionHeight(p, k) ensures IsDistributionBlock(p, h) { DivUnique(n, l, k, 0); }
  }

  /**
   Over a period the accumulator holds exactly the parts of the blocks since the last distribution, which takes it all:
   after the first, every distribution is of one interval's parts.
   */
  lemma {:induction false} AccumulatorIsExact(run: seq<Accumulator>, periods: seq<Period>, i: nat, n: nat)
    requires Valid(periods) && i < |periods| && Alone(periods, i) && periods[i].allocation != 0
    requires periods[i].start <= periods[i].end && IsRun(run, periods, periods[i].start)
    requires 0 < n < |run| && n <= periods[i].end - periods[i].start + 1
    ensures run[n].accu == (n - 1) % Interval(periods[i]) * CalcBlockDistribution(periods[i])
    ensures IsDistributionBlock(periods[i], periods[i].start + n) ==>
      run[n].accu + CalcBlockDistribution(periods[i]) == Interval(periods[i]) * CalcBlockDistribution(periods[i])
  {
    var p, part, l := periods[i], CalcBlockDistribution(periods[i]), Interval(periods[i]);
    assert Contains(p, p.start + (n - 1)) && EndBlock(run[n - 1], run[n - 1 + 1], periods, p.start + (n - 1));
    DivUnique(0, l, 0, 0);
    if n != 1 {
      AccumulatorIsExact(run, periods, i, n - 1);
      DivStep(n - 2, l);
      ProductOneMore((n - 2) % l, part);
    }
    DivStep(n - 1, l);
    ProductOneMore((n - 1) % l, part);
  }

  // ---------------------------------------------------------------- the end blocker

  /** `GetCurrentRewardPeriod`. */
  method FindCurrentPeriod(periods: seq<Period>, h: nat) returns (i: nat)
    ensures i == CurrentPeriod(periods, h)
  {
    i := 0;
    while i < |periods|
      invariant i <= |periods|
      invariant CurrentPeriod(periods, h) == i + CurrentPeriod(periods[i..], h)
    {
      if Contains(periods[i], h) {
        return;
      }
      assert periods[i..][1..] == periods[i + 1..];
      i := i + 1;
    }
  }

  /** What a distribution does to the supply lies between nothing and the block's distribution. */
  lemma DistributionWithinBlock(order: seq<Denom>, pools: map<Denom, Pool>, block: nat, period: Rewards.Period,
                                parts: map<Denom, seq<Listed>>, blocked: set<Addr>)
    requires (forall d | d in order :: d in pools) && NoRepeats(order)
    ensures var tuples := Rewards.RewardTuples(order, pools, block, period);
      && Rewards.RewardSum(tuples) <= block
      && (Rewards.Divisible(tuples, pools, parts)
          ==> OwedAll(Rewards.RewardEntries(tuples, pools, parts), blocked) <= Rewards.RewardSum(tuples))
  {
    var tuples := Rewards.RewardTuples(order, pools, block, period);
    Rewards.RewardsWithinBlock(order, pools, block, period);
    if Rewards.Divisible(tuples, pools, parts) {
      Rewards.OwedWithinMinted(tuples, pools, parts);
      FailuresLower(Rewards.RewardEntries(tuples, pools, parts), "", blocked);
    }
  }

  /** A block of a period pays rewards out for a pool that lists providers and has no units. */
  ghost predicate PanicsIn(p: Period, accu: nat, h: nat, order: seq<Denom>, pools: map<Denom, Pool>,
                           parts: map<Denom, seq<Listed>>)
    requires Contains(p, h) && forall d | d in order :: d in pools
  {
    var tuples := Rewards.RewardTuples(order, pools, accu + CalcBlockDistribution(p), p.policy);
    IsDistributionBlock(p, h) && p.policy.distribute && !Rewards.Divisible(tuples, pools, parts)
  }

  ghost predicate Panics(accu: nat, periods: seq<Period>, h: nat, order: seq<Denom>, pools: map<Denom, Pool>,
                         parts: map<Denom, seq<Listed>>)
    requires Valid(periods) && forall d | d in order :: d in pools
  {
    var i := CurrentPeriod(periods, h);
    i < |periods| && periods[i].allocation != 0 && PanicsIn(periods[i], accu, h, order, pools, parts)
  }

  /** What a block of a period adds to the supply: nothing, except on a distribution block. */
  ghost function GrowthIn(p: Period, accu: nat, h: nat, order: seq<Denom>, pools: map<Denom, Pool>,
                          parts: map<Denom, seq<Listed>>, blocked: set<Addr>): nat
    requires Contains(p, h) && (forall d | d in order :: d in pools) && !PanicsIn(p, accu, h, order, pools, parts)
  {
    if !IsDistributionBlock(p, h) then 0
    else
      var tuples := Rewards.RewardTuples(order, pools, accu + CalcBlockDistribution(p), p.policy);
      Rewards.SupplyGrowth(tuples, pools, parts, p.policy.distribute, blocked)
  }

  ghost function Growth(accu: nat, periods: seq<Period>, h: nat, order: seq<Denom>, pools: map<Denom, Pool>,
                        parts: map<Denom, seq<Listed>>, blocked: set<Addr>): nat
    requires Valid(periods) && (forall d | d in order :: d in pools)
    requires !Panics(accu, periods, h, order, pools, parts)
  {
    var i := CurrentPeriod(periods, h);
    if i == |periods| || periods[i].allocation == 0 then 0
    else GrowthIn(periods[i], accu, h, order, pools, parts, blocked)
  }

  class EndBlocker {
    var accu: nat
    const keeper: Rewards.RewardKeeper

    constructor (accu: nat, keeper: Rewards.RewardKeeper)
      ensures this.accu == accu && this.keeper == keeper
    {
      this.accu, this.keeper := accu, keeper;
    }

    ghost function State(): Accumulator
      reads this, keeper
    {
      Accumulator(accu, keeper.supply)
    }

    /** A distribution block: distributes `block`, or panics, and clears the accumulator. */
    method Distribute(policy: Rewards.Period, block: nat, order: seq<Denom>, parts: map<Denom, seq<Listed>>,
                      blocked: set<Addr>)
      returns (ok: bool)
      requires (forall d | d in order :: d in keeper.pools) && NoRepeats(order) && NoneIsModule(parts)
      modifies this, keeper
      ensures ok == (policy.distribute ==>
        Rewards.Divisible(Rewards.RewardTuples(order, old(keeper.pools), block, policy), old(keeper.pools), parts))
      ensures ok ==> accu == 0 && old(keeper.supply) <= keeper.supply <= old(keeper.supply) + block
      ensures var tuples := Rewards.RewardTuples(order, old(keeper.pools), block, policy);
        ok ==>
          && (forall t | t in tuples :: t.pool in old(keeper.pools))
          && keeper.pools == Rewards.CreditedPools(old(keeper.pools), tuples, parts, policy.distribute)
          && keeper.supply
             == old(keeper.supply) + Rewards.SupplyGrowth(tuples, old(keeper.pools), parts, policy.distribute, blocked)
    {
      DistributionWithinBlock(order, keeper.pools, block, policy, parts, blocked);
      var completed, tuples, es := keeper.DistributeDepthRewards(order, block, policy, parts, blocked);
      ok := completed;
      accu := 0;
    }

    /** One block of a period: its part is added, and distributed with what was waiting on a distribution block. */
    method Accrue(period: Period, h: nat, order: seq<Denom>, parts: map<Denom, seq<Listed>>, blocked: set<Addr>)
      returns (ok: bool)
      requires Contains(period, h)
      requires (forall d | d in order :: d in keeper.pools) && NoRepeats(order) && NoneIsModule(parts)
      modifies this, keeper
      ensures ok == !PanicsIn(period, old(accu), h, order, old(keeper.pools), parts)
      ensures ok ==> EndOf(period, old(State()), State(), h)
      ensures ok ==> keeper.supply
                     == old(keeper.supply) + GrowthIn(period, old(accu), h, order, old(keeper.pools), parts, blocked)
    {
      ok := true;
      var blockDistribution := accu + CalcBlockDistribution(period);
      if IsDistributionBlock(period, h) {
        ok := Distribute(period.policy, blockDistribution, order, parts, blocked);
      } else {
        accu := blockDistribution;
      }
    }

    /** The reward part of `EndBlocker`, at height `h`. It panics when `ok` is false. */
    method Run(periods: seq<Period>, h: nat, order: seq<Denom>, parts: map<Denom, seq<Listed>>, blocked: set<Addr>)
      returns (ok: bool)
      requires Valid(periods)
      requires (forall d | d in order :: d in keeper.pools) && NoRepeats(order) && NoneIsModule(parts)
      modifies this, keeper
      ensures ok == !Panics(old(accu), periods, h, order, old(keeper.pools), parts)
      ensures ok ==> EndBlock(old(State()), State(), periods, h)
      ensures ok ==>
        var growth := Growth(old(accu), periods, h, order, old(keeper.pools), parts, blocked);
        keeper.supply == old(keeper.supply) + growth
    {
      ok := true;
      var i := FindCurrentPeriod(periods, h);
      if i < |periods| && periods[i].allocation != 0 {
        ok := Accrue(periods[i], h, order, parts, blocked);
      }
    }
  }

  /** A provider list that no payout could divide by zero makes no reward panic either. */
  lemma PayableNeverPanics(accu: nat, periods: seq<Period>, h: nat, order: seq<Denom>, pools: map<Denom, Pool>,
                           parts: map<Denom, seq<Listed>>)
    requires Valid(periods) && Payable(order, pools, parts)
    ensures !Panics(accu, periods, h, order, pools, parts)
  {
    var i := CurrentPeriod(periods, h);
    if i < |periods| {
      assert periods[i] in periods;
      Rewards.RewardsPositive(order, pools, accu + CalcBlockDistribution(periods[i]), periods[i].policy);
    }
  }
}
