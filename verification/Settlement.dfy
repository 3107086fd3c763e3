/**
 What each message does to every account, every pool and every provider: who pays, who is paid, at which fee rate, and
 that nothing else moves.
 */
module Settlement {
  import opened Options
  import opened Rational
  import opened Pools
  import opened Unlocks
  import opened PoolUnits
  import opened Withdrawal
  import opened Ledger
  import opened LedgerInvariants
  import opened Trades
  import Swap

  /** `external` of an asset and `native` went from one account to another, and no other balance changed. */
  ghost predicate Moved(before: Bank, after: Bank, from: Addr, to: Addr, asset: Denom, external: nat, native: nat) {
    forall a, c ::
      var n := if c == asset then external else if c == FURY then native else 0;
      Balance(after, a, c) == Balance(before, a, c) + (if a == to then n else 0) - (if a == from then n else 0)
  }

  lemma BothMoved(before: Bank, after: Bank, from: Addr, to: Addr, asset: Denom, external: nat, native: nat)
    requires from != to && asset != FURY && SendBoth(before, from, to, asset, external, FURY, native) == Some(after)
    ensures Moved(before, after, from, to, asset, external, native)
  {
  }

  /** The fee rate charged on an asset that is sent: its own where one is listed, the default otherwise. */
  ghost predicate Charged(env: Env, asset: Denom, fee: real) {
    && (asset in env.fees ==> fee == env.fees[asset])
    && (asset !in env.fees ==> fee == env.defaultFee)
  }

  // ---------------------------------------------------------------- swaps

  /** A curve value truncated, less its truncated fee. */
  ghost function AfterFee(value: real, fee: real): int {
    RatIntQuo(value) - RatIntQuo(value * fee)
  }

  /** One hop pays the curve value after the fee, takes in what was sent, and changes no other pool. */
  lemma HopPays(pools: map<Denom, Pool>, env: Env, asset: Denom, toFury: bool, amount: nat, fee: real)
    requires env.Valid() && 0.0 <= fee <= 1.0 && HopPools(pools, env, asset, toFury, amount, fee).Some?
    ensures asset in pools
    ensures var (after, paid) := HopPools(pools, env, asset, toFury, amount, fee).value;
      && paid == AfterFee(Swap.CurveValue(toFury, amount, pools[asset], env.rate), fee)
      && after == pools[asset := Traded(pools[asset], toFury, amount, paid)]
  {
    Swap.RefusedWhenPaidReaches(toFury, amount, pools[asset], env.rate, fee,
      Swap.CurveValue(toFury, amount, pools[asset], env.rate));
  }

  /** A pool that took `amount` in and paid `paid` out. */
  ghost function Traded(p: Pool, toFury: bool, amount: nat, paid: int): Pool
    requires paid <= if toFury then p.nativeBalance else p.externalBalance
  {
    if toFury then p.(externalBalance := p.externalBalance + amount, nativeBalance := p.nativeBalance - paid)
    else p.(nativeBalance := p.nativeBalance + amount, externalBalance := p.externalBalance - paid)
  }

  /** A swap to or from native: one pool, the fee rate of the asset sent, and the signer's two balances. */
  lemma OneHopSettles(l: Ledger, env: Env, signer: Addr, sent: Denom, received: Denom, amount: nat, min: nat, fee: real)
    requires env.Valid() && signer != CLP && HandleSwap(l, env, signer, sent, received, amount, min).Some?
    requires (sent == FURY || received == FURY) && Charged(env, sent, fee)
    ensures var m := HandleSwap(l, env, signer, sent, received, amount, min).value;
      var toFury, asset := received == FURY, if received == FURY then sent else received;
      && asset in l.pools
      && var paid := AfterFee(Swap.CurveValue(toFury, amount, l.pools[asset], env.rate), fee);
         && min <= paid < Swap.Outgoing(toFury, l.pools[asset])
         && Exchanged(l.bank, m.bank, signer, sent, amount, received, paid)
         && m == l.(bank := m.bank, pools := l.pools[asset := Traded(l.pools[asset], toFury, amount, paid)])
  {
    SwapExchanges(l, env, signer, sent, received, amount, min);
    var asset := if received == FURY then sent else received;
    HopPays(l.pools, env, asset, received == FURY, amount, fee);
  }

  /** A swap between two external assets: the native between them moves from the first pool to the second. */
  lemma TwoHopsSettle(l: Ledger, env: Env, signer: Addr, sent: Denom, received: Denom, amount: nat, min: nat, fee: real)
    requires env.Valid() && signer != CLP && HandleSwap(l, env, signer, sent, received, amount, min).Some?
    requires sent != FURY && received != FURY && Charged(env, sent, fee)
    ensures var m := HandleSwap(l, env, signer, sent, received, amount, min).value;
      && sent != received && sent in l.pools && received in l.pools
      && var hop := AfterFee(Swap.CurveValue(true, amount, l.pools[sent], env.rate), fee);
         && 0 <= hop < Swap.Outgoing(true, l.pools[sent])
         && var paid := AfterFee(Swap.CurveValue(false, hop, l.pools[received], env.rate), fee);
            && min <= paid < Swap.Outgoing(false, l.pools[received])
            && Exchanged(l.bank, m.bank, signer, sent, amount, received, paid)
            && m == l.(bank := m.bank,
                       pools := l.pools[sent := Traded(l.pools[sent], true, amount, hop)]
                                       [received := Traded(l.pools[received], false, hop, paid)])
  {
    SwapExchanges(l, env, signer, sent, received, amount, min);
    HopPays(l.pools, env, sent, true, amount, fee);
    var (pools, hop) := HopPools(l.pools, env, sent, true, amount, fee).value;
    HopPays(pools, env, received, false, hop, fee);
  }

  // ---------------------------------------------------------------- adding liquidity

  /** A new pool holds exactly what its creator paid, and its creator has all its units: as many as native tokens. */
  lemma CreateSettles(l: Ledger, env: Env, signer: Addr, asset: Denom, native: nat, external: nat)
    requires env.Valid() && signer != CLP
    ensures HandleCreatePool(l, env, signer, asset, native, external).Some?
       <==> && asset != FURY && asset !in l.pools && POOL_THRESHOLD <= native && 0 < external
            && native <= Balance(l.bank, signer, FURY) && external <= Balance(l.bank, signer, asset)
    ensures HandleCreatePool(l, env, signer, asset, native, external).Some? ==>
      var m := HandleCreatePool(l, env, signer, asset, native, external).value;
      && Moved(l.bank, m.bank, signer, CLP, asset, external, native)
      && m == l.(bank := m.bank, pools := l.pools[asset := NewPool(native, external, native)],
                 providers := l.providers[(asset, signer) := Provider(native, [])])
  {
    if asset != FURY {
      BothSent(l.bank, signer, CLP, asset, external, FURY, native);
      if HandleCreatePool(l, env, signer, asset, native, external).Some? {
        BothMoved(l.bank, HandleCreatePool(l, env, signer, asset, native, external).value.bank, signer, CLP, asset,
          external, native);
      }
    }
  }

  /**
   An add moves the deposit from the signer into the pool and credits the signer alone with the issued units, which are
   computed from the depths, the deposit, the rate charged on native and the rate charged on the external asset.
   */
  lemma AddSettles(l: Ledger, env: Env, signer: Addr, asset: Denom, native: nat, external: nat, sellFee: real,
                   buyFee: real)
    requires env.Valid() && signer != CLP && Charged(env, FURY, sellFee) && Charged(env, asset, buyFee)
    ensures HandleAddLiquidity(l, env, signer, asset, native, external).Some?
       <==> && asset != FURY && asset in l.pools && (native != 0 || external != 0)
            && (IsOpen(l.pools[asset]) || (native != 0 && external != 0))
            && native <= Balance(l.bank, signer, FURY) && external <= Balance(l.bank, signer, asset)
    ensures HandleAddLiquidity(l, env, signer, asset, native, external).Some? ==>
      var m, p := HandleAddLiquidity(l, env, signer, asset, native, external).value, l.pools[asset];
      var res := CalculatePoolUnits(p.units, p.NativeDepth(), p.ExternalDepth(), native, external, sellFee, buyFee,
                                    env.rate);
      var lp := if (asset, signer) in l.providers then l.providers[(asset, signer)] else Provider(0, []);
      && res.Issued? && Moved(l.bank, m.bank, signer, CLP, asset, external, native)
      && m == l.(bank := m.bank,
                 pools := l.pools[asset := p.(units := res.poolUnits, nativeBalance := p.nativeBalance + native,
                                              externalBalance := p.externalBalance + external)],
                 providers := l.providers[(asset, signer) := Provider(lp.units + res.lpUnits, lp.unlocks)])
  {
    if asset != FURY {
      BothSent(l.bank, signer, CLP, asset, external, FURY, native);
      if HandleAddLiquidity(l, env, signer, asset, native, external).Some? {
        BothMoved(l.bank, HandleAddLiquidity(l, env, signer, asset, native, external).value.bank, signer, CLP, asset,
          external, native);
      }
    }
  }

  // ---------------------------------------------------------------- removing liquidity

  /**
   The signer receives `out` from the module account, the pool loses exactly that and the burned units, and the signer's
   record keeps the units left, or is deleted when none are.
   */
  ghost predicate Withdrew(l: Ledger, m: Ledger, signer: Addr, asset: Denom, out: Withdrawn)
    requires asset in l.pools && (asset, signer) in l.providers && out.Withdrawn?
  {
    var p, lp, key := l.pools[asset], l.providers[(asset, signer)], (asset, signer);
    && out.unitsLeft <= lp.units <= p.units && out.native <= p.nativeBalance && out.external <= p.externalBalance
    && Moved(l.bank, m.bank, CLP, signer, asset, out.external, out.native)
    && m.pools == l.pools[asset := p.(units := p.units - lp.units + out.unitsLeft,
                                      nativeBalance := p.nativeBalance - out.native,
                                      externalBalance := p.externalBalance - out.external)]
    && (key in m.providers <==> out.unitsLeft != 0) && m.providers - {key} == l.providers - {key}
    && (key in m.providers ==> m.providers[key].units == out.unitsLeft)
    && m.height == l.height
  }

  lemma WithdrawnSettles(l: Ledger, env: Env, signer: Addr, asset: Denom, out: Withdrawn)
    requires signer != CLP && asset != FURY && asset in l.pools && (asset, signer) in l.providers
    requires out.Withdrawn? ==> out.unitsLeft <= l.providers[(asset, signer)].units
    requires HandleWithdrawn(l, env, signer, asset, out).Some?
    ensures out.Withdrawn? && Withdrew(l, HandleWithdrawn(l, env, signer, asset, out).value, signer, asset, out)
  {
    var m := HandleWithdrawn(l, env, signer, asset, out).value;
    BothMoved(l.bank, m.bank, CLP, signer, asset, out.external, out.native);
    assert m.providers - {(asset, signer)} == l.providers - {(asset, signer)};
  }

  /** A removal by basis points pays what the pool's depths and units and the signer's own units say. */
  lemma RemoveSettles(l: Ledger, env: Env, signer: Addr, asset: Denom, w: nat)
    requires signer != CLP && FURY !in l.pools && HandleRemoveLiquidity(l, env, signer, asset, w).Some?
    ensures 1 <= w <= MAX_W_BASIS && asset in l.pools && (asset, signer) in l.providers
    ensures var p, lp := l.pools[asset], l.providers[(asset, signer)];
      var out := CalculateWithdrawal(p.units, p.NativeDepth(), p.ExternalDepth(), lp.units, w);
      out.Withdrawn? && Withdrew(l, HandleRemoveLiquidity(l, env, signer, asset, w).value, signer, asset, out)
  {
    var p, lp := l.pools[asset], l.providers[(asset, signer)];
    WithdrawnSettles(l, env, signer, asset,
      CalculateWithdrawal(p.units, p.NativeDepth(), p.ExternalDepth(), lp.units, w));
  }

  /** The same for a removal by units, which burns exactly the units asked for. */
  lemma RemoveUnitsSettles(l: Ledger, env: Env, signer: Addr, asset: Denom, n: nat)
    requires signer != CLP && FURY !in l.pools && HandleRemoveLiquidityUnits(l, env, signer, asset, n).Some?
    ensures asset in l.pools && (asset, signer) in l.providers && 1 <= n <= l.providers[(asset, signer)].units
    ensures var p, lp := l.pools[asset], l.providers[(asset, signer)];
      var out := CalculateWithdrawalFromUnits(p.units, p.NativeDepth(), p.ExternalDepth(), lp.units, n);
      && out.Withdrawn? && out.unitsLeft == lp.units - n
      && Withdrew(l, HandleRemoveLiquidityUnits(l, env, signer, asset, n).value, signer, asset, out)
  {
    var p, lp := l.pools[asset], l.providers[(asset, signer)];
    UnitsLeftExact(lp.units, n);
    WithdrawnSettles(l, env, signer, asset,
      CalculateWithdrawalFromUnits(p.units, p.NativeDepth(), p.ExternalDepth(), lp.units, n));
  }

  /** With a lock period, what a removal burns comes out of the requests that are due; those still waiting stay. */
  lemma RemovalUsesRequests(l: Ledger, env: Env, signer: Addr, asset: Denom, out: Withdrawn, hi: int)
    requires asset in l.pools && (asset, signer) in l.providers && out.Withdrawn? && out.unitsLeft != 0
    requires out.unitsLeft <= l.providers[(asset, signer)].units
    requires HandleWithdrawn(l, env, signer, asset, out).Some?
    ensures (asset, signer) in HandleWithdrawn(l, env, signer, asset, out).value.providers
    ensures var lp := l.providers[(asset, signer)];
      var q := HandleWithdrawn(l, env, signer, asset, out).value.providers[(asset, signer)];
      var live, due := l.height - env.params.lock - env.params.cancel, l.height - env.params.lock;
      && UnitsIn(q.unlocks, live, due) == LeftOf(UnitsIn(lp.unlocks, live, due), lp.units - out.unitsLeft)
      && UnitsIn(q.unlocks, due, hi) == UnitsIn(lp.unlocks, due, hi)
  {
    var lp := l.providers[(asset, signer)];
    BurnTakes(lp, lp.units - out.unitsLeft, env.params, l.height, l.height - env.params.lock, hi);
  }

  // ---------------------------------------------------------------- unlock requests

  /** Only one provider's requests changed. */
  ghost predicate OnlyRequests(l: Ledger, m: Ledger, key: ProviderKey) {
    && key in l.providers && key in m.providers && m.providers[key].units == l.providers[key].units
    && m == l.(providers := l.providers[key := m.providers[key]])
  }

  /** An unlock request is accepted exactly when it and the live requests fit the units, and is then recorded. */
  lemma UnlockSettles(l: Ledger, env: Env, signer: Addr, asset: Denom, n: nat, lo: int, hi: int)
    requires AllCovered(l)
    ensures var live := l.height - env.params.lock - env.params.cancel;
      && (HandleUnlock(l, env, signer, asset, n).Some? <==>
            && (asset, signer) in l.providers
            && UnitsIn(l.providers[(asset, signer)].unlocks, live, l.height) + n <= l.providers[(asset, signer)].units)
      && (HandleUnlock(l, env, signer, asset, n).Some? ==>
            var m, key := HandleUnlock(l, env, signer, asset, n).value, (asset, signer);
            && OnlyRequests(l, m, key)
            && UnitsIn(m.providers[key].unlocks, lo, hi)
               == UnitsIn(l.providers[key].unlocks, Later(lo, live), hi) + (if lo < l.height <= hi then n else 0))
  {
    if (asset, signer) in l.providers {
      RequestIsRecorded(l.providers[(asset, signer)], n, env.params, l.height, lo, hi);
    }
  }

  /** A cancellation takes its units from the live requests; with a lock period there must be as many. */
  lemma CancelSettles(l: Ledger, env: Env, signer: Addr, asset: Denom, n: nat)
    requires AllCovered(l)
    ensures var live := l.height - env.params.lock - env.params.cancel;
      && (HandleCancelUnlock(l, env, signer, asset, n).Some? <==>
            && (asset, signer) in l.providers
            && (env.params.lock == 0 || n <= UnitsIn(l.providers[(asset, signer)].unlocks, live, l.height)))
      && (HandleCancelUnlock(l, env, signer, asset, n).Some? ==>
            var m, key := HandleCancelUnlock(l, env, signer, asset, n).value, (asset, signer);
            && OnlyRequests(l, m, key)
            && Total(m.providers[key].unlocks) == LeftOf(UnitsIn(l.providers[key].unlocks, live, l.height), n))
  {
    if (asset, signer) in l.providers { CancelTakes(l.providers[(asset, signer)], n, env.params, l.height); }
  }

  // ---------------------------------------------------------------- one provider's view

  /** A provider's record, or none at all, as a provider without units. */
  ghost function RecordOf(l: Ledger, key: ProviderKey): Provider {
    if key in l.providers then l.providers[key] else Provider(0, [])
  }

  /** To one provider, an add is a deposit of the units issued. */
  lemma AddIsDeposit(l: Ledger, env: Env, signer: Addr, asset: Denom, native: nat, external: nat)
    requires env.Valid() && HandleAddLiquidity(l, env, signer, asset, native, external).Some?
    ensures asset in l.pools
    ensures var m, key, p := HandleAddLiquidity(l, env, signer, asset, native, external).value, (asset, signer),
                             l.pools[asset];
      var res := CalculatePoolUnits(p.units, p.NativeDepth(), p.ExternalDepth(), native, external,
                                    env.SwapFeeRate(FURY), env.SwapFeeRate(asset), env.rate);
      && res.Issued?
      && Act(RecordOf(l, key), Deposit(res.lpUnits), env.params, l.height) == Some(RecordOf(m, key))
  {
  }

  /** A removal is the removal of the units it burns, and requests and cancellations are their own actions. */
  lemma RemovalIsAction(l: Ledger, env: Env, signer: Addr, asset: Denom, out: Withdrawn)
    requires asset in l.pools && (asset, signer) in l.providers && out.Withdrawn?
    requires out.unitsLeft <= l.providers[(asset, signer)].units
    requires HandleWithdrawn(l, env, signer, asset, out).Some?
    ensures var m, key := HandleWithdrawn(l, env, signer, asset, out).value, (asset, signer);
      Act(RecordOf(l, key), Remove(RecordOf(l, key).units - out.unitsLeft), env.params, l.height)
      == Some(RecordOf(m, key))
  {
  }

  lemma UnlockIsAction(l: Ledger, env: Env, signer: Addr, asset: Denom, n: nat)
    ensures HandleUnlock(l, env, signer, asset, n).Some? ==>
      Act(RecordOf(l, (asset, signer)), Request(n), env.params, l.height)
      == Some(RecordOf(HandleUnlock(l, env, signer, asset, n).value, (asset, signer)))
    ensures HandleCancelUnlock(l, env, signer, asset, n).Some? ==>
      Act(RecordOf(l, (asset, signer)), Cancel(n), env.params, l.height)
      == Some(RecordOf(HandleCancelUnlock(l, env, signer, asset, n).value, (asset, signer)))
  {
  }
}
