/**
 Payouts to liquidity providers. Amounts are collected pool by pool into three maps, paid out address by address,
 and taken back from the pools' totals when a transfer fails. `entries` is the flat list of every amount collected;
 the maps are three views of it.
 */
module Payout {
  import opened Decimal
  import opened Ledger
  import opened Options
  import opened Pools
  import opened Sums

  /** One amount owed to a provider on behalf of a pool. */
  datatype Entry = Entry(addr: Addr, pool: Denom, amount: nat)

  /** A provider as listed for a pool. */
  datatype Listed = Listed(addr: Addr, units: nat)

  // ---------------------------------------------------------------- amounts

  function CalcProviderDistributionAmount(furyPd: nat, totalPoolUnits: nat, providerUnits: nat): nat
    requires 0 < totalPoolUnits
  {
    RoundInt(Mul(Quo(FromInt(providerUnits), FromInt(totalPoolUnits)), furyPd))
  }

  lemma ShareErrors(r: nat, m: nat, q: nat, furyPd: nat, P: nat, units: nat)
    requires Near(q * P, units * ONE, P) && Near(m * ONE, q * furyPd, HALF) && Near(r * ONE, m, HALF)
    ensures Near(P * (r * ONE * ONE), furyPd * (units * ONE), P * (HALF * ONE + HALF + furyPd))
  {
    ProductNear(P, r * ONE * ONE, q * furyPd, HALF * ONE + HALF);
    ProductNear(furyPd, q * P, units * ONE, P);
    assert P * (q * furyPd) == furyPd * (q * P);
    assert P * (HALF * ONE + HALF + furyPd) == P * (HALF * ONE + HALF) + furyPd * P;
  }

  /**
   A provider's amount is `furyPd * units / totalPoolUnits` rounded to the nearest token, give or take one unit of the
   last decimal per token distributed.
   */
  lemma ProviderAmountIsFair(furyPd: nat, totalPoolUnits: nat, units: nat)
    requires 0 < totalPoolUnits
    ensures Near(totalPoolUnits * (CalcProviderDistributionAmount(furyPd, totalPoolUnits, units) * ONE * ONE),
                 furyPd * (units * ONE), totalPoolUnits * (HALF * ONE + HALF + furyPd))
  {
    var q := Quo(FromInt(units), FromInt(totalPoolUnits));
    QuoAccurate(FromInt(units), FromInt(totalPoolUnits));
    assert q * FromInt(totalPoolUnits) == q * totalPoolUnits * ONE;
    var m := Mul(q, furyPd);
    ShareErrors(RoundInt(m), m, q, furyPd, totalPoolUnits, units);
  }

  /** The most a pool of the given depth pays out at a rate. */
  function Cap(rate: nat, depth: nat): nat {
    RoundInt(Mul(rate, FromInt(depth)))
  }

  /** A share, cut at what remains of the cap. */
  function Cut(share: nat, paid: nat, cap: nat): nat
    requires paid <= cap
  {
    if paid + share > cap then cap - paid else share
  }

  /** The entries for `lps` in order and their total: each share, cut at what the cap still leaves. */
  function PoolEntries(pool: Denom, furyPd: nat, cap: nat, poolUnits: nat, lps: seq<Listed>): (res: (seq<Entry>, nat))
    requires Dividable(poolUnits, lps)
    ensures res.1 <= cap && |res.0| == |lps|
  {
    if lps == [] then ([], 0)
    else
      var lp := lps[|lps| - 1];
      var (es, paid) := PoolEntries(pool, furyPd, cap, poolUnits, lps[..|lps| - 1]);
      var amount := Cut(CalcProviderDistributionAmount(furyPd, poolUnits, lp.units), paid, cap);
      (es + [Entry(lp.addr, pool, amount)], paid + amount)
  }

  // ---------------------------------------------------------------- sums over entries

  /** Owed to one address. */
  function OwedTo(es: seq<Entry>, a: Addr): nat {
    if es == [] then 0 else (if es[0].addr == a then es[0].amount else 0) + OwedTo(es[1..], a)
  }

  /** Owed on behalf of one pool to addresses outside `failed`. */
  function OwedBy(es: seq<Entry>, d: Denom, failed: set<Addr>): nat {
    if es == [] then 0
    else (if es[0].pool == d && es[0].addr !in failed then es[0].amount else 0) + OwedBy(es[1..], d, failed)
  }

  /** Owed in all to addresses outside `failed`. */
  function OwedAll(es: seq<Entry>, failed: set<Addr>): nat {
    if es == [] then 0
    else (if es[0].addr !in failed then es[0].amount else 0) + OwedAll(es[1..], failed)
  }

  /** The entries of one address, in order. */
  function EntriesOf(es: seq<Entry>, a: Addr): seq<Entry> {
    if es == [] then []
    else (if es[0].addr == a then [es[0]] else []) + EntriesOf(es[1..], a)
  }

  lemma {:induction false} SumsAppend(es: seq<Entry>, e: Entry, a: Addr, d: Denom, failed: set<Addr>)
    ensures OwedTo(es + [e], a) == OwedTo(es, a) + (if e.addr == a then e.amount else 0)
    ensures OwedBy(es + [e], d, failed)
         == OwedBy(es, d, failed) + (if e.pool == d && e.addr !in failed then e.amount else 0)
    ensures OwedAll(es + [e], failed) == OwedAll(es, failed) + (if e.addr !in failed then e.amount else 0)
    ensures EntriesOf(es + [e], a) == EntriesOf(es, a) + (if e.addr == a then [e] else [])
  {
    if es != [] {
      assert (es + [e])[1..] == es[1..] + [e];
      SumsAppend(es[1..], e, a, d, failed);
    }
  }

  lemma {:induction false} OwedByConcat(es: seq<Entry>, fs: seq<Entry>, d: Denom, failed: set<Addr>)
    ensures OwedBy(es + fs, d, failed) == OwedBy(es, d, failed) + OwedBy(fs, d, failed)
  {
    if es == [] {
      assert es + fs == fs;
    } else {
      assert (es + fs)[1..] == es[1..] + fs;
      OwedByConcat(es[1..], fs, d, failed);
    }
  }

  /** When one more address fails, each pool and the whole lose exactly that address's entries. */
  lemma {:induction false} FailingOneMore(es: seq<Entry>, d: Denom, failed: set<Addr>, a: Addr)
    requires a !in failed
    ensures OwedBy(es, d, failed + {a}) + OwedBy(EntriesOf(es, a), d, {}) == OwedBy(es, d, failed)
    ensures OwedAll(es, failed + {a}) + OwedTo(es, a) == OwedAll(es, failed)
  {
    if es != [] {
      FailingOneMore(es[1..], d, failed, a);
      assert EntriesOf(es, a) == (if es[0].addr == a then [es[0]] else []) + EntriesOf(es[1..], a);
      if es[0].addr == a {
        assert EntriesOf(es, a)[1..] == EntriesOf(es[1..], a);
      } else {
        assert EntriesOf(es, a) == EntriesOf(es[1..], a);
      }
    }
  }

  lemma {:induction false} FailuresLower(es: seq<Entry>, d: Denom, failed: set<Addr>)
    ensures OwedBy(es, d, failed) <= OwedBy(es, d, {})
    ensures OwedAll(es, failed) <= OwedAll(es, {})
  {
    if es != [] { FailuresLower(es[1..], d, failed); }
  }

  /** The total of a pool's entries is what its providers are owed, all of it on behalf of that pool. */
  lemma {:induction false} PoolEntriesTotal(pool: Denom, furyPd: nat, cap: nat, poolUnits: nat, lps: seq<Listed>)
    requires Dividable(poolUnits, lps)
    ensures var (es, total) := PoolEntries(pool, furyPd, cap, poolUnits, lps);
      && OwedBy(es, pool, {}) == total
      && forall i | 0 <= i < |es| :: es[i].pool == pool && es[i].addr == lps[i].addr
  {
    if lps != [] {
      var init := lps[..|lps| - 1];
      PoolEntriesTotal(pool, furyPd, cap, poolUnits, init);
      var (es, paid) := PoolEntries(pool, furyPd, cap, poolUnits, init);
      var lp := lps[|lps| - 1];
      SumsAppend(es, Entry(lp.addr, pool, Cut(CalcProviderDistributionAmount(furyPd, poolUnits, lp.units), paid,
        cap)), "", pool, {});
    }
  }

  /** At a rate of at most one the cap is within the depth; at most one half, strictly within any depth there is. */
  lemma CapWithinDepth(rate: nat, depth: nat)
    requires rate <= ONE
    ensures Cap(rate, depth) <= depth
    ensures rate <= HALF && 0 < depth ==> Cap(rate, depth) < depth
  {
    MulAtMost(FromInt(depth), rate);
    ChopMonotone(Mul(rate, FromInt(depth)), FromInt(depth));
    ChopExact(depth);
    if rate <= HALF && 0 < depth {
      MulMonotone(FromInt(depth), rate, HALF);
      assert HALF * FromInt(depth) == (depth * HALF) * ONE;
      ChopExact(depth * HALF);
      ChopMonotone(Mul(rate, FromInt(depth)), depth * HALF);
      assert Chop(depth * HALF) * ONE <= depth * HALF + HALF;
      assert depth == 1 ==> Chop(depth * HALF) == 0;
    }
  }

  /** One half is the limit: any higher rate can empty a pool, by paying out a depth of one. */
  lemma HigherRatesCanEmpty(rate: nat)
    requires HALF < rate <= ONE
    ensures Cap(rate, 1) == 1
  {
    assert rate * FromInt(1) == rate * ONE;
    ChopExact(rate);
  }

  // ---------------------------------------------------------------- the three maps

  /** Both views by address agree with the entries. */
  ghost predicate AddressViews(es: seq<Entry>, lpFury: map<Addr, nat>, lpPool: map<Addr, seq<Entry>>) {
    forall a :: AddressView(es, lpFury, lpPool, a)
  }

  ghost predicate AddressView(es: seq<Entry>, lpFury: map<Addr, nat>, lpPool: map<Addr, seq<Entry>>, a: Addr) {
    && (a in lpFury <==> a in lpPool)
    && (a in lpPool <==> EntriesOf(es, a) != [])
    && (if a in lpPool then lpPool[a] else []) == EntriesOf(es, a)
    && Get(lpFury, a) == OwedTo(es, a)
  }

  lemma AddressViewsAppend(es: seq<Entry>, lpFury: map<Addr, nat>, lpPool: map<Addr, seq<Entry>>, e: Entry)
    requires AddressViews(es, lpFury, lpPool)
    ensures AddressViews(es + [e],
                         lpFury[e.addr := Get(lpFury, e.addr) + e.amount],
                         lpPool[e.addr := (if e.addr in lpPool then lpPool[e.addr] else []) + [e]])
  {
    var es' := es + [e];
    var lpFury' := lpFury[e.addr := Get(lpFury, e.addr) + e.amount];
    var lpPool' := lpPool[e.addr := (if e.addr in lpPool then lpPool[e.addr] else []) + [e]];
    forall a ensures AddressView(es', lpFury', lpPool', a) {
      assert AddressView(es, lpFury, lpPool, a);
      SumsAppend(es, e, a, "", {});
    }
  }

  /**
   Each pool's total is what it owes once `failed` have failed, plus what is in the entries still to be taken back.
   */
  ghost predicate StillOwed(es: seq<Entry>, failed: set<Addr>, poolFury: map<Denom, nat>, list: seq<Entry>) {
    forall d | d in poolFury :: poolFury[d] == OwedBy(es, d, failed) + OwedBy(list, d, {})
  }

  lemma StillOwedStart(es: seq<Entry>, failed: set<Addr>, addr: Addr, poolFury: map<Denom, nat>, list: seq<Entry>)
    requires addr !in failed && list == EntriesOf(es, addr)
    requires forall d | d in poolFury :: poolFury[d] == OwedBy(es, d, failed)
    ensures StillOwed(es, failed + {addr}, poolFury, list[0..])
  {
    assert list[0..] == list;
    forall d | d in poolFury ensures poolFury[d] == OwedBy(es, d, failed + {addr}) + OwedBy(list, d, {}) {
      FailingOneMore(es, d, failed, addr);
    }
  }

  lemma StillOwedStep(es: seq<Entry>, failed: set<Addr>, poolFury: map<Denom, nat>, list: seq<Entry>)
    requires list != [] && list[0].pool in poolFury && StillOwed(es, failed, poolFury, list)
    ensures list[0].amount <= poolFury[list[0].pool]
    ensures StillOwed(es, failed, poolFury[list[0].pool := poolFury[list[0].pool] - list[0].amount], list[1..])
  {
  }

  /** The maps that a distribution fills, and the bank it pays from. */
  class Distribution {
    var poolFury: map<Denom, nat>
    var lpFury: map<Addr, nat>
    var lpPool: map<Addr, seq<Entry>>
    var bank: Bank
    ghost var entries: seq<Entry>

    ghost predicate Collected()
      reads this
    {
      && AddressViews(entries, lpFury, lpPool)
      && (forall d | d in poolFury :: poolFury[d] == OwedBy(entries, d, {}))
      && (forall e | e in entries :: e.pool in poolFury)
    }

    constructor (bank: Bank)
      ensures Collected() && entries == [] && poolFury == map[] && this.bank == bank
    {
      poolFury, lpFury, lpPool, entries := map[], map[], map[], [];
      this.bank := bank;
    }

    /** Adds one amount to both views by address. */
    method Record(elem: Entry)
      requires AddressViews(entries, lpFury, lpPool)
      modifies this`lpFury, this`lpPool, this`entries
      ensures AddressViews(entries, lpFury, lpPool) && entries == old(entries) + [elem]
    {
      AddressViewsAppend(entries, lpFury, lpPool, elem);
      var globalLpFury := if elem.addr in lpFury then lpFury[elem.addr] else 0;
      lpFury := lpFury[elem.addr := globalLpFury + elem.amount];
      var globalLpPool := if elem.addr in lpPool then lpPool[elem.addr] else [];
      lpPool := lpPool[elem.addr := globalLpPool + [elem]];
      entries := entries + [elem];
    }

    /** The body of the loop over one pool's providers: cuts the share at the cap and records it. */
    method RecordShare(addr: Addr, pool: Denom, share: nat, paid: nat, cap: nat) returns (total: nat)
      requires AddressViews(entries, lpFury, lpPool) && paid <= cap
      modifies this`lpFury, this`lpPool, this`entries
      ensures AddressViews(entries, lpFury, lpPool)
      ensures entries == old(entries) + [Entry(addr, pool, Cut(share, paid, cap))]
      ensures total == paid + Cut(share, paid, cap)
    {
      var providerFury := share;
      total := paid + providerFury;
      if total > cap {
        providerFury := cap - (total - providerFury);
        total := cap;
      }
      Record(Entry(addr, pool, providerFury));
    }

    /** `CollectProviderDistribution`: adds one pool's entries to the views by address. It panics when `ok` is false. */
    method CollectProviderDistribution(pool: Denom, poolDepthFury: nat, rate: nat, poolUnits: nat, lps: seq<Listed>)
      returns (ok: bool, total: nat)
      requires AddressViews(entries, lpFury, lpPool)
      modifies this`lpFury, this`lpPool, this`entries
      ensures ok == Dividable(poolUnits, lps)
      ensures ok ==> AddressViews(entries, lpFury, lpPool)
      ensures ok ==> entries == old(entries) + EntriesFor(pool, poolDepthFury, rate, poolUnits, lps)
      ensures ok ==> total == OwedBy(EntriesFor(pool, poolDepthFury, rate, poolUnits, lps), pool, {})
    {
      total := 0;
      var furyPd := Mul(rate, FromInt(poolDepthFury));
      var furyPdUint := RoundInt(furyPd);
      for i := 0 to |lps|
        invariant Dividable(poolUnits, lps[..i])
        invariant total == PoolEntries(pool, furyPd, furyPdUint, poolUnits, lps[..i]).1
        invariant AddressViews(entries, lpFury, lpPool)
        invariant entries == old(entries) + PoolEntries(pool, furyPd, furyPdUint, poolUnits, lps[..i]).0
      {
        if poolUnits == 0 { return false, total; }
        var share := CalcProviderDistributionAmount(furyPd, poolUnits, lps[i].units);
        assert lps[..i + 1][..i] == lps[..i];
        total := RecordShare(lps[i].addr, pool, share, total, furyPdUint);
      }
      assert lps[..|lps|] == lps;
      PoolEntriesTotal(pool, furyPd, furyPdUint, poolUnits, lps);
      ok := true;
    }

    /** Collects one more pool into all three maps. */
    method CollectPool(pool: Denom, depth: nat, rate: nat, poolUnits: nat, lps: seq<Listed>) returns (ok: bool)
      requires Collected() && pool !in poolFury
      modifies this`poolFury, this`lpFury, this`lpPool, this`entries
      ensures ok == Dividable(poolUnits, lps)
      ensures ok ==> Collected() && entries == old(entries) + EntriesFor(pool, depth, rate, poolUnits, lps)
      ensures ok ==> poolFury.Keys == old(poolFury.Keys) + {pool}
    {
      ghost var before := entries;
      NothingOwedBy(before, pool);
      var furyToDistribute;
      ok, furyToDistribute := CollectProviderDistribution(pool, depth, rate, poolUnits, lps);
      if !ok { return; }
      ghost var own := EntriesFor(pool, depth, rate, poolUnits, lps);
      OwnEntriesOnly(pool, depth, rate, poolUnits, lps);
      forall c ensures OwedBy(before + own, c, {}) == OwedBy(before, c, {}) + OwedBy(own, c, {}) {
        OwedByConcat(before, own, c, {});
      }
      poolFury := poolFury[pool := furyToDistribute];
    }

    /**
     `CollectProviderDistributions`: every pool that has a list of providers, in the order the pools are stored. It
     panics exactly when one of them lists providers and has no units.
     */
    method CollectProviderDistributions(order: seq<Denom>, pools: map<Denom, Pool>, parts: map<Denom, seq<Listed>>,
                                        rate: nat)
      returns (ok: bool)
      requires (forall d | d in order :: d in pools) && NoRepeats(order)
      requires Collected() && entries == [] && poolFury == map[]
      modifies this`poolFury, this`lpFury, this`lpPool, this`entries
      ensures ok == Payable(order, pools, parts)
      ensures ok ==> Collected() && entries == AllEntries(order, pools, parts, rate)
      ensures ok ==> forall d :: d in poolFury <==> d in order && d in parts
    {
      for i := 0 to |order|
        invariant Payable(order[..i], pools, parts)
        invariant Collected() && entries == AllEntries(order[..i], pools, parts, rate)
        invariant forall d :: d in poolFury <==> d in order[..i] && d in parts
      {
        var d := order[i];
        assert order[..i + 1][..i] == order[..i] && d !in order[..i];
        if d in parts {
          ok := CollectPool(d, pools[d].nativeBalance, rate, pools[d].units, parts[d]);
          if !ok { return; }
        }
      }
      assert order[..|order|] == order;
      ok := true;
    }

    /** Takes a failed address's amounts back out of its pools' totals. */
    method TakeBack(addr: Addr, ghost failed: set<Addr>)
      requires addr in lpPool && lpPool[addr] == EntriesOf(entries, addr) && addr !in failed
      requires forall e | e in entries :: e.pool in poolFury
      requires forall d | d in poolFury :: poolFury[d] == OwedBy(entries, d, failed)
      modifies this`poolFury
      ensures poolFury.Keys == old(poolFury.Keys)
      ensures forall d | d in poolFury :: poolFury[d] == OwedBy(entries, d, failed + {addr})
    {
      var list := lpPool[addr];
      EntriesOfSubset(entries, addr);
      StillOwedStart(entries, failed, addr, poolFury, list);
      for i := 0 to |list|
        invariant poolFury.Keys == old(poolFury.Keys)
        invariant StillOwed(entries, failed + {addr}, poolFury, list[i..])
      {
        assert list[i] in list && list[i] == list[i..][0];
        StillOwedStep(entries, failed + {addr}, poolFury, list[i..]);
        assert list[i..][1..] == list[i + 1..];
        poolFury := poolFury[list[i].pool := poolFury[list[i].pool] - list[i].amount];
      }
    }

    /** One address of the transfer loop; `rest` are the addresses still to come. */
    method PayOrTakeBack(addr: Addr, blocked: set<Addr>, ghost start: Bank, ghost failed: set<Addr>,
                         ghost rest: set<Addr>)
      returns (ghost failed': set<Addr>)
      requires addr in lpFury && addr != CLP && addr !in failed && addr !in rest
      requires AddressView(entries, lpFury, lpPool, addr)
      requires forall e | e in entries :: e.pool in poolFury
      requires forall d | d in poolFury :: poolFury[d] == OwedBy(entries, d, failed)
      requires PaidOut(start, bank, entries, failed + rest + {addr})
      modifies this`poolFury, this`bank
      ensures poolFury.Keys == old(poolFury.Keys)
      ensures failed' == failed || failed' == failed + {addr}
      ensures addr in blocked ==> addr in failed'
      ensures OwedAll(entries, {}) <= Balance(start, CLP, FURY) ==> (addr in failed' <==> addr in blocked)
      ensures forall d | d in poolFury :: poolFury[d] == OwedBy(entries, d, failed')
      ensures PaidOut(start, bank, entries, failed' + rest)
    {
      var totalFury := lpFury[addr];
      StillEnough(entries, failed + rest, addr);
      var sent := if addr in blocked then None else Send(bank, CLP, addr, FURY, totalFury);
      if sent.Some? {
        PayOneMore(start, bank, sent.value, entries, failed + rest, addr);
        bank := sent.value;
        failed' := failed;
      } else {
        TakeBack(addr, failed);
        failed' := failed + {addr};
        assert failed' + rest == failed + rest + {addr};
      }
    }

    /**
     `TransferProviderDistributionGeneric`. The addresses are visited in any order. A transfer fails when the address
     is blocked or the module account is short; its amounts are then taken back from the pools' totals.
     */
    method TransferProviderDistributionGeneric(blocked: set<Addr>) returns (ghost failed: set<Addr>)
      requires Collected() && CLP !in lpFury
      modifies this`poolFury, this`bank
      ensures poolFury.Keys == old(poolFury.Keys)
      ensures failed <= lpFury.Keys && blocked * lpFury.Keys <= failed
      ensures OwedAll(entries, {}) <= old(Balance(bank, CLP, FURY)) ==> failed == blocked * lpFury.Keys
      ensures forall d | d in poolFury :: poolFury[d] == OwedBy(entries, d, failed)
      ensures PaidOut(old(bank), bank, entries, failed)
    {
      failed := {};
      var remaining := lpFury.Keys;
      NothingPaidYet(bank, entries, lpFury, lpPool);
      assert failed + remaining == lpFury.Keys;
      while remaining != {}
        invariant poolFury.Keys == old(poolFury.Keys)
        invariant remaining <= lpFury.Keys && failed <= lpFury.Keys - remaining
        invariant blocked * (lpFury.Keys - remaining) <= failed
        invariant OwedAll(entries, {}) <= old(Balance(bank, CLP, FURY))
            ==> failed == blocked * (lpFury.Keys - remaining)
        invariant forall d | d in poolFury :: poolFury[d] == OwedBy(entries, d, failed)
        invariant PaidOut(old(bank), bank, entries, failed + remaining)
        decreases remaining
      {
        var addr :| addr in remaining;
        assert AddressView(entries, lpFury, lpPool, addr);
        assert failed + (remaining - {addr}) + {addr} == failed + remaining;
        failed := PayOrTakeBack(addr, blocked, old(bank), failed, remaining - {addr});
        remaining := remaining - {addr};
      }
      assert failed + remaining == failed;
    }
  }

  /** The bank after paying the entries of every address outside `failed` from the module account. */
  ghost predicate PaidOut(before: Bank, after: Bank, es: seq<Entry>, failed: set<Addr>) {
    && OwedAll(es, failed) <= Balance(before, CLP, FURY)
    && forall a, c :: Balance(after, a, c) ==
         if c != FURY then Balance(before, a, c)
         else if a == CLP then Balance(before, a, c) - OwedAll(es, failed)
         else Balance(before, a, c) + (if a in failed then 0 else OwedTo(es, a))
  }

  lemma NothingPaidYet(bank: Bank, es: seq<Entry>, lpFury: map<Addr, nat>, lpPool: map<Addr, seq<Entry>>)
    requires AddressViews(es, lpFury, lpPool)
    ensures PaidOut(bank, bank, es, lpFury.Keys)
  {
    forall a | a !in lpFury ensures EntriesOf(es, a) == [] && OwedTo(es, a) == 0 {
      assert AddressView(es, lpFury, lpPool, a);
    }
    NothingOwedAll(es, lpFury.Keys);
  }

  lemma {:induction false} NothingOwedAll(es: seq<Entry>, failed: set<Addr>)
    requires forall a | a !in failed :: EntriesOf(es, a) == []
    ensures OwedAll(es, failed) == 0
  {
    if es != [] {
      forall a | a !in failed ensures EntriesOf(es[1..], a) == [] && es[0].addr != a {
        assert EntriesOf(es, a) == [];
      }
      NothingOwedAll(es[1..], failed);
    }
  }

  lemma PayOneMore(start: Bank, before: Bank, after: Bank, es: seq<Entry>, failed: set<Addr>, a: Addr)
    requires a != CLP && a !in failed && PaidOut(start, before, es, failed + {a})
    requires Send(before, CLP, a, FURY, OwedTo(es, a)) == Some(after)
    ensures PaidOut(start, after, es, failed)
  {
    FailingOneMore(es, "", failed, a);
  }

  /** While the module account covers everything owed, it covers the next address. */
  lemma StillEnough(es: seq<Entry>, failed: set<Addr>, a: Addr)
    requires a !in failed
    ensures OwedAll(es, failed + {a}) + OwedTo(es, a) <= OwedAll(es, {})
  {
    FailingOneMore(es, "", failed, a);
    FailuresLower(es, "", failed);
  }

  /** Sums only depend on which of the owed addresses failed. */
  lemma {:induction false} SameFailures(es: seq<Entry>, failed: set<Addr>, blocked: set<Addr>, d: Denom)
    requires forall e | e in es :: e.addr in failed <==> e.addr in blocked
    ensures OwedAll(es, failed) == OwedAll(es, blocked) && OwedBy(es, d, failed) == OwedBy(es, d, blocked)
  {
    if es != [] {
      assert es[0] in es;
      SameFailures(es[1..], failed, blocked, d);
    }
  }

  lemma {:induction false} OwedAddressesHaveEntries(es: seq<Entry>, a: Addr)
    ensures (exists e | e in es :: e.addr == a) <==> EntriesOf(es, a) != []
    ensures EntriesOf(es, a) == [] ==> OwedTo(es, a) == 0
  {
    if es != [] {
      OwedAddressesHaveEntries(es[1..], a);
      assert es == [es[0]] + es[1..];
    }
  }

  /** With enough in the module account, exactly the blocked addresses fail. */
  lemma FailedAreBlocked(es: seq<Entry>, lpFury: map<Addr, nat>, lpPool: map<Addr, seq<Entry>>, failed: set<Addr>,
                         blocked: set<Addr>)
    requires AddressViews(es, lpFury, lpPool) && failed == blocked * lpFury.Keys
    ensures forall e | e in es :: e.addr in failed <==> e.addr in blocked
    ensures forall a | a in blocked && a !in failed :: OwedTo(es, a) == 0
  {
    forall e | e in es ensures e.addr in lpFury {
      assert AddressView(es, lpFury, lpPool, e.addr);
      OwedAddressesHaveEntries(es, e.addr);
    }
    forall a | a in blocked && a !in failed ensures OwedTo(es, a) == 0 {
      assert AddressView(es, lpFury, lpPool, a);
    }
  }

  lemma PaidOutExceptBlocked(before: Bank, after: Bank, es: seq<Entry>, failed: set<Addr>, blocked: set<Addr>)
    requires PaidOut(before, after, es, failed) && failed <= blocked
    requires forall e | e in es :: e.addr in failed <==> e.addr in blocked
    requires forall a | a in blocked && a !in failed :: OwedTo(es, a) == 0
    ensures PaidOut(before, after, es, blocked)
  {
    SameFailures(es, failed, blocked, "");
  }

  lemma {:induction false} EntriesOfSubset(es: seq<Entry>, a: Addr)
    ensures forall e | e in EntriesOf(es, a) :: e in es && e.addr == a
  {
    if es != [] { EntriesOfSubset(es[1..], a); }
  }

  ghost predicate NoRepeats<T>(s: seq<T>) {
    forall i, j | 0 <= i < j < |s| :: s[i] != s[j]
  }

  /** No provider's share of the pool divides by zero. */
  predicate Dividable(poolUnits: nat, lps: seq<Listed>) {
    lps != [] ==> 0 < poolUnits
  }

  /** The listed pools exist, and one with providers has units to divide by. */
  ghost predicate Payable(order: seq<Denom>, pools: map<Denom, Pool>, parts: map<Denom, seq<Listed>>) {
    forall d | d in order :: d in pools && (d in parts ==> Dividable(pools[d].units, parts[d]))
  }

  /** Everything owed by the pools in `order`. */
  ghost function AllEntries(order: seq<Denom>, pools: map<Denom, Pool>, parts: map<Denom, seq<Listed>>,
                            rate: nat): seq<Entry>
    requires Payable(order, pools, parts)
  {
    if order == [] then []
    else
      var d := order[|order| - 1];
      AllEntries(order[..|order| - 1], pools, parts, rate)
      + if d in parts then EntriesFor(d, pools[d].nativeBalance, rate, pools[d].units, parts[d]) else []
  }

  lemma {:induction false} NothingOwedBy(es: seq<Entry>, d: Denom)
    requires forall e | e in es :: e.pool != d
    ensures OwedBy(es, d, {}) == 0
  {
    if es != [] { NothingOwedBy(es[1..], d); }
  }

  /** A pool's entries are all its own, and within its cap. */
  lemma OwnEntriesOnly(d: Denom, depth: nat, rate: nat, poolUnits: nat, lps: seq<Listed>)
    requires Dividable(poolUnits, lps)
    ensures var own := EntriesFor(d, depth, rate, poolUnits, lps);
      && (forall e | e in own :: e.pool == d)
      && (forall c | c != d :: OwedBy(own, c, {}) == 0)
      && OwedBy(own, d, {}) <= Cap(rate, depth)
      && forall e | e in own :: exists lp | lp in lps :: lp.addr == e.addr
  {
    var own := EntriesFor(d, depth, rate, poolUnits, lps);
    PoolEntriesTotal(d, Mul(rate, FromInt(depth)), Cap(rate, depth), poolUnits, lps);
    forall c | c != d ensures OwedBy(own, c, {}) == 0 { NothingOwedBy(own, c); }
    forall e | e in own ensures exists lp | lp in lps :: lp.addr == e.addr {
      var i :| 0 <= i < |own| && own[i] == e;
      assert lps[i] in lps;
    }
  }

  /** Nobody is listed under the module account's own address. */
  ghost predicate NoneIsModule(parts: map<Denom, seq<Listed>>) {
    forall d, lp | d in parts && lp in parts[d] :: lp.addr != CLP
  }

  /** Everything one pool of the given depth owes its listed providers at a rate. */
  function EntriesFor(pool: Denom, depth: nat, rate: nat, poolUnits: nat, lps: seq<Listed>): seq<Entry>
    requires Dividable(poolUnits, lps)
  {
    PoolEntries(pool, Mul(rate, FromInt(depth)), Cap(rate, depth), poolUnits, lps).0
  }
}
