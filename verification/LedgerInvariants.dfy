/** What every message keeps: backing of the pools by the module account, unit totals, open pools, covered unlocks. */
module LedgerInvariants {
  import opened Pools
  import opened Unlocks
  import opened Withdrawal
  import opened Sums
  import opened Ledger
  import Swap

  // ---------------------------------------------------------------- totals

  ghost function NativeHoldings(pools: map<Denom, Pool>): map<Denom, nat> {
    map d | d in pools :: pools[d].nativeBalance + pools[d].nativeCustody
  }

  /** What the pools record as held of a denomination, balances and custody. */
  ghost function Recorded(l: Ledger, d: Denom): nat {
    if d == FURY then MapSum(NativeHoldings(l.pools))
    else if d in l.pools then l.pools[d].externalBalance + l.pools[d].externalCustody
    else 0
  }

  /** The module account's coins beyond what the pools record. `BalanceModuleAccountCheck` demands zero. */
  ghost function Surplus(l: Ledger, d: Denom): int {
    Balance(l.bank, CLP, d) - Recorded(l, d)
  }

  ghost function UnitsByProvider(providers: map<ProviderKey, Provider>, d: Denom): map<ProviderKey, nat> {
    map k | k in providers && k.0 == d :: providers[k].units
  }

  ghost function ProviderUnits(l: Ledger, d: Denom): nat {
    MapSum(UnitsByProvider(l.providers, d))
  }

  lemma HoldingsUpdate(pools: map<Denom, Pool>, d: Denom, p: Pool)
    ensures MapSum(NativeHoldings(pools[d := p])) + Get(NativeHoldings(pools), d)
         == MapSum(NativeHoldings(pools)) + p.nativeBalance + p.nativeCustody
  {
    assert NativeHoldings(pools[d := p]) == NativeHoldings(pools)[d := p.nativeBalance + p.nativeCustody];
    MapSumUpdate(NativeHoldings(pools), d, p.nativeBalance + p.nativeCustody);
  }

  lemma UnitsUpdate(providers: map<ProviderKey, Provider>, k: ProviderKey, lp: Provider, d: Denom)
    ensures MapSum(UnitsByProvider(providers[k := lp], d))
         == if k.0 == d then MapSum(UnitsByProvider(providers, d)) - Get(UnitsByProvider(providers, d), k) + lp.units
            else MapSum(UnitsByProvider(providers, d))
  {
    if k.0 == d {
      assert UnitsByProvider(providers[k := lp], d) == UnitsByProvider(providers, d)[k := lp.units];
      MapSumUpdate(UnitsByProvider(providers, d), k, lp.units);
    } else {
      assert UnitsByProvider(providers[k := lp], d) == UnitsByProvider(providers, d);
    }
  }

  lemma UnitsRemove(providers: map<ProviderKey, Provider>, k: ProviderKey, d: Denom)
    ensures MapSum(UnitsByProvider(providers - {k}, d))
         == MapSum(UnitsByProvider(providers, d)) - Get(UnitsByProvider(providers, d), k)
  {
    assert UnitsByProvider(providers - {k}, d) == UnitsByProvider(providers, d) - {k};
    MapSumRemove(UnitsByProvider(providers, d), k);
  }

  // ---------------------------------------------------------------- backing

  /** Two states agree on the surplus of every denomination. */
  ghost predicate SameSurplus(l: Ledger, m: Ledger) {
    forall d :: Surplus(l, d) == Surplus(m, d)
  }

  /** Coins moved in and out of one pool together with the bank leave every surplus where it was. */
  lemma PoolMoveKeepsSurplus(l: Ledger, m: Ledger, asset: Denom)
    requires asset != FURY && asset in l.pools && asset in m.pools && m.pools == l.pools[asset := m.pools[asset]]
    requires m.pools[asset].nativeCustody == l.pools[asset].nativeCustody
    requires m.pools[asset].externalCustody == l.pools[asset].externalCustody
    requires Balance(m.bank, CLP, FURY) - Balance(l.bank, CLP, FURY)
         == m.pools[asset].nativeBalance - l.pools[asset].nativeBalance
    requires Balance(m.bank, CLP, asset) - Balance(l.bank, CLP, asset)
         == m.pools[asset].externalBalance - l.pools[asset].externalBalance
    requires forall d | d != FURY && d != asset :: Balance(m.bank, CLP, d) == Balance(l.bank, CLP, d)
    ensures SameSurplus(l, m)
  {
    HoldingsUpdate(l.pools, asset, m.pools[asset]);
  }

  lemma CreatePoolKeepsSurplus(l: Ledger, env: Env, signer: Addr, asset: Denom, native: nat, external: nat)
    requires env.Valid() && signer != CLP
    requires HandleCreatePool(l, env, signer, asset, native, external).Some?
    ensures SameSurplus(l, HandleCreatePool(l, env, signer, asset, native, external).value)
  {
    var m := HandleCreatePool(l, env, signer, asset, native, external).value;
    HoldingsUpdate(l.pools, asset, m.pools[asset]);
  }

  lemma AddLiquidityKeepsSurplus(l: Ledger, env: Env, signer: Addr, asset: Denom, native: nat, external: nat)
    requires env.Valid() && signer != CLP
    requires HandleAddLiquidity(l, env, signer, asset, native, external).Some?
    ensures SameSurplus(l, HandleAddLiquidity(l, env, signer, asset, native, external).value)
  {
    PoolMoveKeepsSurplus(l, HandleAddLiquidity(l, env, signer, asset, native, external).value, asset);
  }

  lemma WithdrawnKeepsSurplus(l: Ledger, env: Env, signer: Addr, asset: Denom, out: Withdrawn)
    requires asset != FURY && signer != CLP && asset in l.pools && (asset, signer) in l.providers
    requires out.Withdrawn? ==> out.unitsLeft <= l.providers[(asset, signer)].units
    requires HandleWithdrawn(l, env, signer, asset, out).Some?
    ensures SameSurplus(l, HandleWithdrawn(l, env, signer, asset, out).value)
  {
    PoolMoveKeepsSurplus(l, HandleWithdrawn(l, env, signer, asset, out).value, asset);
  }

  lemma OneHopKeepsSurplus(l: Ledger, env: Env, signer: Addr, sent: Denom, received: Denom, amount: nat,
                           minReceiving: nat)
    requires env.Valid() && signer != CLP && FURY !in l.pools && (sent == FURY || received == FURY)
    requires HandleSwap(l, env, signer, sent, received, amount, minReceiving).Some?
    ensures SameSurplus(l, HandleSwap(l, env, signer, sent, received, amount, minReceiving).value)
  {
    var out := if received == FURY then sent else received;
    Swap.SwapOneMovesExactly(received == FURY, amount, l.pools[out], env.rate, env.SwapFeeRate(sent));
    PoolMoveKeepsSurplus(l, HandleSwap(l, env, signer, sent, received, amount, minReceiving).value, out);
  }

  lemma TwoHopKeepsSurplus(l: Ledger, env: Env, signer: Addr, sent: Denom, received: Denom, amount: nat,
                           minReceiving: nat)
    requires env.Valid() && signer != CLP && FURY !in l.pools && sent != FURY && received != FURY
    requires HandleSwap(l, env, signer, sent, received, amount, minReceiving).Some?
    ensures SameSurplus(l, HandleSwap(l, env, signer, sent, received, amount, minReceiving).value)
  {
    var m := HandleSwap(l, env, signer, sent, received, amount, minReceiving).value;
    Swap.SwapOneMovesExactly(true, amount, l.pools[sent], env.rate, env.SwapFeeRate(sent));
    var (pools, hop) := FirstHop(l, env, sent, received, amount).value;
    Swap.SwapOneMovesExactly(false, hop, pools[received], env.rate, env.SwapFeeRate(sent));
    HoldingsUpdate(l.pools, sent, pools[sent]);
    HoldingsUpdate(pools, received, m.pools[received]);
    assert pools == l.pools[sent := pools[sent]] && m.pools == pools[received := m.pools[received]];
    forall d ensures Surplus(l, d) == Surplus(m, d) {
    }
  }

  // ---------------------------------------------------------------- the state invariant

  /** Pools are of external assets only; providers belong to existing pools and are not the module account. */
  ghost predicate WellFormed(l: Ledger) {
    && FURY !in l.pools
    && forall k | k in l.providers :: k.0 in l.pools && k.1 != CLP
  }

  /** `UnitsCheck`: each pool's units are the sum of its providers' units. */
  ghost predicate UnitsMatch(l: Ledger) {
    forall d | d in l.pools :: l.pools[d].units == ProviderUnits(l, d)
  }

  /** Both sides of every pool hold something. */
  ghost predicate AllOpen(l: Ledger) {
    forall d | d in l.pools :: IsOpen(l.pools[d])
  }

  ghost predicate IsOpen(p: Pool) {
    0 < p.NativeDepth() && 0 < p.ExternalDepth()
  }

  ghost predicate AllCovered(l: Ledger) {
    forall k | k in l.providers :: Covered(l.providers[k], l.height)
  }

  ghost predicate Invariant(l: Ledger) {
    WellFormed(l) && UnitsMatch(l) && AllOpen(l) && AllCovered(l)
  }

  lemma NoProvidersNoUnits(l: Ledger, d: Denom)
    requires WellFormed(l) && d !in l.pools
    ensures ProviderUnits(l, d) == 0
  {
    assert UnitsByProvider(l.providers, d) == map[];
  }

  function UnitsHeld(providers: map<ProviderKey, Provider>, k: ProviderKey): nat {
    if k in providers then providers[k].units else 0
  }

  lemma UnitsMatchUpdate(l: Ledger, m: Ledger, k: ProviderKey)
    requires UnitsMatch(l) && k.0 in l.pools && k.0 in m.pools && m.pools == l.pools[k.0 := m.pools[k.0]]
    requires k in m.providers && m.providers == l.providers[k := m.providers[k]]
    requires m.pools[k.0].units - l.pools[k.0].units == m.providers[k].units - UnitsHeld(l.providers, k)
    ensures UnitsMatch(m)
  {
    forall d | d in m.pools ensures m.pools[d].units == ProviderUnits(m, d) {
      UnitsUpdate(l.providers, k, m.providers[k], d);
    }
  }

  lemma UnitsMatchRemove(l: Ledger, m: Ledger, k: ProviderKey)
    requires UnitsMatch(l) && k.0 in l.pools && k.0 in m.pools && m.pools == l.pools[k.0 := m.pools[k.0]]
    requires k in l.providers && m.providers == l.providers - {k}
    requires m.pools[k.0].units == l.pools[k.0].units - l.providers[k].units
    ensures UnitsMatch(m)
  {
    forall d | d in m.pools ensures m.pools[d].units == ProviderUnits(m, d) {
      UnitsRemove(l.providers, k, d);
    }
  }

  /** One provider and its pool change, and their units move together. */
  lemma ProviderUpdateKeepsInvariant(l: Ledger, m: Ledger, k: ProviderKey)
    requires Invariant(l) && m.height == l.height && k.1 != CLP
    requires k.0 in l.pools && k.0 in m.pools && m.pools == l.pools[k.0 := m.pools[k.0]]
    requires k in m.providers && m.providers == l.providers[k := m.providers[k]]
    requires m.pools[k.0].units - l.pools[k.0].units == m.providers[k].units - UnitsHeld(l.providers, k)
    requires IsOpen(m.pools[k.0]) && Covered(m.providers[k], m.height)
    ensures Invariant(m)
  {
    UnitsMatchUpdate(l, m, k);
  }

  lemma ProviderRemovalKeepsInvariant(l: Ledger, m: Ledger, k: ProviderKey)
    requires Invariant(l) && m.height == l.height
    requires k.0 in l.pools && k.0 in m.pools && m.pools == l.pools[k.0 := m.pools[k.0]]
    requires k in l.providers && m.providers == l.providers - {k}
    requires m.pools[k.0].units == l.pools[k.0].units - l.providers[k].units
    requires IsOpen(m.pools[k.0])
    ensures Invariant(m)
  {
    UnitsMatchRemove(l, m, k);
  }

  lemma CreatePoolKeepsInvariant(l: Ledger, env: Env, signer: Addr, asset: Denom, native: nat, external: nat)
    requires env.Valid() && signer != CLP && Invariant(l)
    requires HandleCreatePool(l, env, signer, asset, native, external).Some?
    ensures Invariant(HandleCreatePool(l, env, signer, asset, native, external).value)
  {
    var m := HandleCreatePool(l, env, signer, asset, native, external).value;
    var key := (asset, signer);
    NoProvidersNoUnits(l, asset);
    forall d | d in m.pools ensures m.pools[d].units == ProviderUnits(m, d) {
      UnitsUpdate(l.providers, key, m.providers[key], d);
    }
  }

  lemma AddLiquidityKeepsInvariant(l: Ledger, env: Env, signer: Addr, asset: Denom, native: nat, external: nat)
    requires env.Valid() && signer != CLP && Invariant(l)
    requires HandleAddLiquidity(l, env, signer, asset, native, external).Some?
    ensures Invariant(HandleAddLiquidity(l, env, signer, asset, native, external).value)
  {
    var m := HandleAddLiquidity(l, env, signer, asset, native, external).value;
    assert IsOpen(l.pools[asset]);
    ProviderUpdateKeepsInvariant(l, m, (asset, signer));
  }

  lemma SwapKeepsInvariant(l: Ledger, env: Env, signer: Addr, sent: Denom, received: Denom, amount: nat,
                           minReceiving: nat)
    requires env.Valid() && Invariant(l)
    requires HandleSwap(l, env, signer, sent, received, amount, minReceiving).Some?
    ensures Invariant(HandleSwap(l, env, signer, sent, received, amount, minReceiving).value)
  {
    var m := HandleSwap(l, env, signer, sent, received, amount, minReceiving).value;
    if sent != FURY && received != FURY {
      Swap.SwapOneMovesExactly(true, amount, l.pools[sent], env.rate, env.SwapFeeRate(sent));
    }
    var (pools, hop) := FirstHop(l, env, sent, received, amount).value;
    var out := if received == FURY then sent else received;
    Swap.SwapOneMovesExactly(received == FURY, hop, pools[out], env.rate, env.SwapFeeRate(sent));
    forall d | d in m.pools ensures m.pools[d].units == ProviderUnits(m, d) && IsOpen(m.pools[d]) {
      assert IsOpen(l.pools[d]);
    }
  }

  /** A provider never owns more units than its pool has. */
  lemma ProviderWithinPool(l: Ledger, k: ProviderKey)
    requires WellFormed(l) && UnitsMatch(l) && k in l.providers
    ensures k.0 in l.pools && l.providers[k].units <= l.pools[k.0].units
  {
    MapSumMember(UnitsByProvider(l.providers, k.0), k);
  }

  /** What a removal stores for the pool and the provider. */
  ghost predicate WithdrawnStored(l: Ledger, m: Ledger, key: ProviderKey, out: Withdrawn, burned: Provider)
    requires key.0 in l.pools && key in l.providers && out.Withdrawn?
  {
    var p, lp := l.pools[key.0], l.providers[key];
    && burned.units == out.unitsLeft && lp.units <= p.units
    && out.native <= p.nativeBalance && out.external <= p.externalBalance
    && out.native < p.NativeDepth() && out.external < p.ExternalDepth()
    && m.height == l.height
    && m.pools == l.pools[key.0 := p.(units := p.units - lp.units + out.unitsLeft,
                                      nativeBalance := p.nativeBalance - out.native,
                                      externalBalance := p.externalBalance - out.external)]
    && m.providers == if out.unitsLeft == 0 then l.providers - {key} else l.providers[key := burned]
  }

  lemma WithdrawnStoredKeepsInvariant(l: Ledger, m: Ledger, key: ProviderKey, out: Withdrawn, burned: Provider)
    requires Invariant(l) && key.0 in l.pools && key in l.providers && out.Withdrawn?
    requires WithdrawnStored(l, m, key, out, burned) && Covered(burned, l.height)
    ensures Invariant(m)
  {
    WithdrawnStaysOpen(l.pools[key.0], out.native, out.external);
    if out.unitsLeft == 0 {
      ProviderRemovalKeepsInvariant(l, m, key);
    } else {
      ProviderUpdateKeepsInvariant(l, m, key);
    }
  }

  lemma WithdrawnEffect(l: Ledger, env: Env, signer: Addr, asset: Denom, out: Withdrawn) returns (burned: Provider)
    requires asset in l.pools && (asset, signer) in l.providers && Covered(l.providers[(asset, signer)], l.height)
    requires out.Withdrawn? ==> out.unitsLeft <= l.providers[(asset, signer)].units
    requires HandleWithdrawn(l, env, signer, asset, out).Some?
    ensures out.Withdrawn?
    ensures WithdrawnStored(l, HandleWithdrawn(l, env, signer, asset, out).value, (asset, signer), out, burned)
    ensures Covered(burned, l.height)
  {
    var lp := l.providers[(asset, signer)];
    burned := BurnUnits(lp, lp.units - out.unitsLeft, env.params, l.height).value;
    BurnStaysCovered(lp, lp.units - out.unitsLeft, env.params, l.height);
  }

  lemma WithdrawnKeepsInvariant(l: Ledger, env: Env, signer: Addr, asset: Denom, out: Withdrawn)
    requires Invariant(l) && asset in l.pools && (asset, signer) in l.providers
    requires out.Withdrawn? ==> out.unitsLeft <= l.providers[(asset, signer)].units
    requires HandleWithdrawn(l, env, signer, asset, out).Some?
    ensures Invariant(HandleWithdrawn(l, env, signer, asset, out).value)
  {
    var burned := WithdrawnEffect(l, env, signer, asset, out);
    WithdrawnStoredKeepsInvariant(l, HandleWithdrawn(l, env, signer, asset, out).value, (asset, signer), out, burned);
  }

  lemma WithdrawnStaysOpen(p: Pool, native: nat, external: nat)
    requires native <= p.nativeBalance && external <= p.externalBalance && native < p.NativeDepth()
    requires external < p.ExternalDepth()
    ensures IsOpen(p.(nativeBalance := p.nativeBalance - native, externalBalance := p.externalBalance - external))
  {
  }

  lemma UnlockKeepsInvariant(l: Ledger, key: ProviderKey, lp: Provider)
    requires Invariant(l) && key in l.providers && lp.units == l.providers[key].units && Covered(lp, l.height)
    ensures Invariant(l.(providers := l.providers[key := lp]))
  {
    ProviderUpdateKeepsInvariant(l, l.(providers := l.providers[key := lp]), key);
  }

  lemma UnlockKeepsSurplus(l: Ledger, key: ProviderKey, lp: Provider)
    ensures SameSurplus(l, l.(providers := l.providers[key := lp]))
  {
  }

  /** Every successful message leaves the surplus of every denomination where it was. */
  lemma HandleKeepsSurplus(l: Ledger, env: Env, msg: Msg)
    requires env.Valid() && msg.signer != CLP && FURY !in l.pools && Handle(l, env, msg).Some?
    ensures SameSurplus(l, Handle(l, env, msg).value) && FURY !in Handle(l, env, msg).value.pools
  {
    match msg
    case CreatePool(signer, asset, native, external) => CreatePoolKeepsSurplus(l, env, signer, asset, native, external);
    case SwapCoins(signer, sent, received, amount, minReceiving) =>
      if sent == FURY || received == FURY {
        OneHopKeepsSurplus(l, env, signer, sent, received, amount, minReceiving);
      } else {
        TwoHopKeepsSurplus(l, env, signer, sent, received, amount, minReceiving);
      }
    case AddLiquidity(signer, asset, native, external) =>
      AddLiquidityKeepsSurplus(l, env, signer, asset, native, external);
    case RemoveLiquidity(signer, asset, w) =>
      var pool, lp := l.pools[asset], l.providers[(asset, signer)];
      WithdrawnKeepsSurplus(l, env, signer, asset,
                            CalculateWithdrawal(pool.units, pool.NativeDepth(), pool.ExternalDepth(), lp.units, w));
    case RemoveLiquidityUnits(signer, asset, units) =>
      var pool, lp := l.pools[asset], l.providers[(asset, signer)];
      UnitsLeftExact(lp.units, units);
      WithdrawnKeepsSurplus(l, env, signer, asset,
                            CalculateWithdrawalFromUnits(pool.units, pool.NativeDepth(), pool.ExternalDepth(),
                              lp.units, units));
    case UnlockLiquidity(signer, asset, units) =>
      UnlockKeepsSurplus(l, (asset, signer), RequestUnlock(l.providers[(asset, signer)], units, env.params,
        l.height).value);
    case CancelUnlockLiquidity(signer, asset, units) =>
      UnlockKeepsSurplus(l, (asset, signer), CancelUnlock(l.providers[(asset, signer)], units, env.params,
        l.height).value);
  }

  /** Every successful message keeps the invariant. */
  lemma HandleKeepsInvariant(l: Ledger, env: Env, msg: Msg)
    requires env.Valid() && msg.signer != CLP && Invariant(l) && Handle(l, env, msg).Some?
    ensures Invariant(Handle(l, env, msg).value)
  {
    match msg
    case CreatePool(signer, asset, native, external) =>
      CreatePoolKeepsInvariant(l, env, signer, asset, native, external);
    case SwapCoins(signer, sent, received, amount, minReceiving) =>
      SwapKeepsInvariant(l, env, signer, sent, received, amount, minReceiving);
    case AddLiquidity(signer, asset, native, external) =>
      AddLiquidityKeepsInvariant(l, env, signer, asset, native, external);
    case RemoveLiquidity(signer, asset, w) =>
      var pool, lp := l.pools[asset], l.providers[(asset, signer)];
      WithdrawnKeepsInvariant(l, env, signer, asset,
                              CalculateWithdrawal(pool.units, pool.NativeDepth(), pool.ExternalDepth(), lp.units, w));
    case RemoveLiquidityUnits(signer, asset, units) =>
      var pool, lp := l.pools[asset], l.providers[(asset, signer)];
      UnitsLeftExact(lp.units, units);
      WithdrawnKeepsInvariant(l, env, signer, asset,
                              CalculateWithdrawalFromUnits(pool.units, pool.NativeDepth(), pool.ExternalDepth(),
                                lp.units, units));
    case UnlockLiquidity(signer, asset, units) =>
      var lp := l.providers[(asset, signer)];
      RequestStaysCovered(lp, units, env.params, l.height);
      UnlockKeepsInvariant(l, (asset, signer), RequestUnlock(lp, units, env.params, l.height).value);
    case CancelUnlockLiquidity(signer, asset, units) =>
      var lp := l.providers[(asset, signer)];
      CancelStaysCovered(lp, units, env.params, l.height);
      UnlockKeepsInvariant(l, (asset, signer), CancelUnlock(lp, units, env.params, l.height).value);
  }

  // ---------------------------------------------------------------- decommissioning

  /** Refunds move exactly what the running subtractions say, out of the module account. */
  ghost predicate RefundsBalance(asset: Denom, r: Refunding, s: Refunding) {
    && Balance(s.bank, CLP, FURY) - s.native == Balance(r.bank, CLP, FURY) - r.native
    && Balance(s.bank, CLP, asset) - s.external == Balance(r.bank, CLP, asset) - r.external
    && (forall d | d != FURY && d != asset :: Balance(s.bank, CLP, d) == Balance(r.bank, CLP, d))
    && OthersKept(asset, r.providers, s.providers)
  }

  /** Only providers of one pool may be gone. */
  ghost predicate OthersKept(asset: Denom, before: map<ProviderKey, Provider>, after: map<ProviderKey, Provider>) {
    && (forall k | k in after :: k in before && after[k] == before[k])
    && (forall k | k in before && k.0 != asset :: k in after)
  }

  lemma {:induction false} RefundAllBalances(pool: Pool, asset: Denom, r: Refunding, order: seq<Addr>)
    requires asset != FURY && CLP !in order && RefundAll(pool, asset, r, order).Some?
    ensures RefundsBalance(asset, r, RefundAll(pool, asset, r, order).value)
    ensures forall a | a in order :: (asset, a) !in RefundAll(pool, asset, r, order).value.providers
  {
    if order != [] {
      var init, a := order[..|order| - 1], order[|order| - 1];
      RefundAllBalances(pool, asset, r, init);
      RefundOneBalances(pool, asset, RefundAll(pool, asset, r, init).value, a);
    }
  }

  lemma RefundOneBalances(pool: Pool, asset: Denom, r: Refunding, a: Addr)
    requires asset != FURY && a != CLP && RefundOne(pool, asset, r, a).Some?
    ensures var s := RefundOne(pool, asset, r, a).value;
      RefundsBalance(asset, r, s) && (asset, a) !in s.providers
  {
  }

  /** What the providers in `order` are refunded together: native and external, each from the pool as it was. */
  function RefundTotals(pool: Pool, asset: Denom, providers: map<ProviderKey, Provider>, order: seq<Addr>): (nat, nat) {
    if order == [] then (0, 0)
    else
      var (native, external) := RefundTotals(pool, asset, providers, order[..|order| - 1]);
      var key := (asset, order[|order| - 1]);
      if key !in providers then (native, external)
      else match CalculateWithdrawal(pool.units, pool.NativeDepth(), pool.ExternalDepth(), providers[key].units,
        MAX_W_BASIS)
        case Panic => (native, external)
        case Withdrawn(n, e, _) => (native + n, external + e)
  }

  lemma {:induction false} RefundAllLeaves(pool: Pool, asset: Denom, r: Refunding, order: seq<Addr>)
    requires asset != FURY && CLP !in order && RefundAll(pool, asset, r, order).Some?
    ensures var s, refunded := RefundAll(pool, asset, r, order).value, RefundTotals(pool, asset, r.providers, order);
      s.native == r.native - refunded.0 && s.external == r.external - refunded.1
  {
    if order != [] {
      RefundAllLeaves(pool, asset, r, order[..|order| - 1]);
      RefundAllBalances(pool, asset, r, order[..|order| - 1]);
    }
  }

  /**
   Winding a pool up, exactly: the surplus of both its assets grows by what the pool held, custody included, less the
   refunds; no other surplus changes.
   */
  lemma DecommissionSurplus(l: Ledger, asset: Denom, order: seq<Addr>)
    requires FURY !in l.pools && CLP !in order && HandleDecommission(l, asset, order).Some?
    ensures asset in l.pools && FURY !in HandleDecommission(l, asset, order).value.pools
    ensures var m, p := HandleDecommission(l, asset, order).value, l.pools[asset];
      var refunded := RefundTotals(p, asset, l.providers, order);
      && refunded.0 <= p.nativeBalance && refunded.1 <= p.externalBalance
      && Surplus(m, FURY) == Surplus(l, FURY) + p.nativeBalance + p.nativeCustody - refunded.0
      && Surplus(m, asset) == Surplus(l, asset) + p.externalBalance + p.externalCustody - refunded.1
      && forall d | d != FURY && d != asset :: Surplus(m, d) == Surplus(l, d)
  {
    var pool := l.pools[asset];
    var r := Refunding(l.bank, l.providers, pool.nativeBalance, pool.externalBalance, pool.units);
    RefundAllBalances(pool, asset, r, order);
    RefundAllLeaves(pool, asset, r, order);
    PoolRemovalSurplus(l, HandleDecommission(l, asset, order).value, asset, r, RefundAll(pool, asset, r, order).value);
  }

  lemma PoolRemovalSurplus(l: Ledger, m: Ledger, asset: Denom, r: Refunding, s: Refunding)
    requires asset != FURY && asset in l.pools && m.pools == l.pools - {asset}
    requires r.bank == l.bank && r.native == l.pools[asset].nativeBalance
    requires r.external == l.pools[asset].externalBalance
    requires s.bank == m.bank && RefundsBalance(asset, r, s)
    ensures Surplus(m, FURY) == Surplus(l, FURY) + s.native + l.pools[asset].nativeCustody
    ensures Surplus(m, asset) == Surplus(l, asset) + s.external + l.pools[asset].externalCustody
    ensures forall d | d != FURY && d != asset :: Surplus(m, d) == Surplus(l, d)
  {
    assert NativeHoldings(m.pools) == NativeHoldings(l.pools) - {asset};
    MapSumRemove(NativeHoldings(l.pools), asset);
  }

  /** The refunds are all the pool held. */
  ghost predicate UsesUp(l: Ledger, asset: Denom, order: seq<Addr>)
    requires asset in l.pools
  {
    var p := l.pools[asset];
    RefundTotals(p, asset, l.providers, order)
    == (p.nativeBalance + p.nativeCustody, p.externalBalance + p.externalCustody)
  }

  lemma SurplusRaised(l: Ledger, m: Ledger, asset: Denom, native: nat, external: nat)
    requires Surplus(m, FURY) == Surplus(l, FURY) + native && Surplus(m, asset) == Surplus(l, asset) + external
    requires forall d | d != FURY && d != asset :: Surplus(m, d) == Surplus(l, d)
    ensures SameSurplus(l, m) <==> native == 0 && external == 0
    ensures forall d :: Surplus(l, d) <= Surplus(m, d)
  {
    forall d
      ensures Surplus(l, d) <= Surplus(m, d) && (native == 0 && external == 0 ==> Surplus(l, d) == Surplus(m, d))
    {
      if d != FURY && d != asset { assert Surplus(m, d) == Surplus(l, d); }
    }
  }

  /** So a wind-up keeps every surplus exactly when the refunds use the pool up; otherwise it only adds to them. */
  lemma DecommissionKeepsSurplusIff(l: Ledger, asset: Denom, order: seq<Addr>)
    requires FURY !in l.pools && CLP !in order && HandleDecommission(l, asset, order).Some?
    ensures asset in l.pools
    ensures SameSurplus(l, HandleDecommission(l, asset, order).value) <==> UsesUp(l, asset, order)
    ensures forall d :: Surplus(l, d) <= Surplus(HandleDecommission(l, asset, order).value, d)
  {
    DecommissionSurplus(l, asset, order);
    var p, refunded := l.pools[asset], RefundTotals(l.pools[asset], asset, l.providers, order);
    SurplusRaised(l, HandleDecommission(l, asset, order).value, asset,
      p.nativeBalance + p.nativeCustody - refunded.0, p.externalBalance + p.externalCustody - refunded.1);
  }

  /** A provider who owns the whole of a pool without debts or custody is refunded all of it. */
  lemma SoleProviderUsesUp(l: Ledger, asset: Denom, a: Addr)
    requires asset in l.pools && (asset, a) in l.providers
    requires var p := l.pools[asset]; 0 < p.units && p == NewPool(p.nativeBalance, p.externalBalance, p.units)
    requires l.providers[(asset, a)].units == l.pools[asset].units
    ensures UsesUp(l, asset, [a])
  {
    var p := l.pools[asset];
    AllUnitsPayAll(p.units, p.nativeBalance, p.externalBalance);
    assert [a][..0] == [] && RefundTotals(p, asset, l.providers, []) == (0, 0);
  }
}
