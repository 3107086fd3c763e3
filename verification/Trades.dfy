/** What messages do for the account that signs them: who pays, who is paid, and that a round trip never profits. */
module Trades {
  import opened Options
  import opened Pools
  import opened Unlocks
  import opened PoolUnits
  import opened Withdrawal
  import opened Sums
  import opened Ledger
  import opened LedgerInvariants
  import Swap

  // ---------------------------------------------------------------- swaps

  /** The pools after a swap of one or two hops, and the amount it pays; `None` when a hop is refused. */
  function SwapPools(pools: map<Denom, Pool>, env: Env, sent: Denom, received: Denom, amount: nat)
    : Option<(map<Denom, Pool>, nat)>
    requires env.Valid()
  {
    if sent != FURY && received != FURY then
      match HopPools(pools, env, sent, true, amount, env.SwapFeeRate(sent))
      case None => None
      case Some((after, hop)) => HopPools(after, env, received, false, hop, env.SwapFeeRate(sent))
    else HopPools(pools, env, if received == FURY then sent else received, received == FURY, amount,
      env.SwapFeeRate(sent))
  }

  function HopPools(pools: map<Denom, Pool>, env: Env, asset: Denom, toFury: bool, amount: nat,
                    fee: real): Option<(map<Denom, Pool>, nat)>
    requires env.Valid() && 0.0 <= fee <= 1.0
  {
    if asset !in pools then None
    else match Swap.SwapOne(toFury, amount, pools[asset], env.rate, fee)
      case NotEnoughAssetTokens => None
      case Swapped(result, _, pool) => Some((pools[asset := pool], result))
  }

  /** `amount` of one asset went from the signer to the module, `paid` of another came back, and nothing else moved. */
  ghost predicate Exchanged(before: Bank, after: Bank, signer: Addr, sent: Denom, amount: nat, received: Denom,
                            paid: nat) {
    forall a, c :: Balance(after, a, c) == Balance(before, a, c)
      + (if (a, c) == (CLP, sent) then amount else if (a, c) == (signer, received) then paid else 0)
      - (if (a, c) == (signer, sent) then amount else if (a, c) == (CLP, received) then paid else 0)
  }

  /** A swap exchanges exactly what the pools say, at least the minimum asked for, with the signer alone. */
  lemma SwapExchanges(l: Ledger, env: Env, signer: Addr, sent: Denom, received: Denom, amount: nat, minReceiving: nat)
    requires env.Valid() && signer != CLP && HandleSwap(l, env, signer, sent, received, amount, minReceiving).Some?
    ensures sent != received
    ensures SwapPools(l.pools, env, sent, received, amount).Some?
    ensures var m := HandleSwap(l, env, signer, sent, received, amount, minReceiving).value;
      var (pools, paid) := SwapPools(l.pools, env, sent, received, amount).value;
      m.pools == pools && minReceiving <= paid && Exchanged(l.bank, m.bank, signer, sent, amount, received, paid)
  {
  }

  /** Two hops there and two hops back, with the same asset on the way in both times. */
  lemma TwoHopsBack(pools: map<Denom, Pool>, env: Env, env': Env, sent: Denom, received: Denom, amount: nat,
                    returned: nat)
    requires env.Valid() && env'.Valid() && env.rate == env'.rate && sent != FURY && received != FURY
    requires sent != received
    requires SwapPools(pools, env, sent, received, amount).Some?
    requires var (after, paid) := SwapPools(pools, env, sent, received, amount).value;
      returned <= paid && SwapPools(after, env', received, sent, returned).Some?
    ensures var after := SwapPools(pools, env, sent, received, amount).value.0;
      SwapPools(after, env', received, sent, returned).value.1 <= amount
  {
    var f, f' := env.SwapFeeRate(sent), env'.SwapFeeRate(received);
    var (first, hop) := HopPools(pools, env, sent, true, amount, f).value;
    var (after, paid) := HopPools(first, env, received, false, hop, f).value;
    var (third, back) := HopPools(after, env', received, true, returned, f').value;
    Swap.ReverseSwapNeverProfits(false, hop, first[received], returned, env.rate, f, f');
    assert third[sent] == first[sent];
    Swap.ReverseSwapNeverProfits(true, amount, pools[sent], back, env.rate, f, f');
  }

  lemma SwappedBack(pools: map<Denom, Pool>, env: Env, env': Env, sent: Denom, received: Denom, amount: nat,
                    returned: nat)
    requires env.Valid() && env'.Valid() && env.rate == env'.rate && sent != received
    requires SwapPools(pools, env, sent, received, amount).Some?
    requires var (after, paid) := SwapPools(pools, env, sent, received, amount).value;
      returned <= paid && SwapPools(after, env', received, sent, returned).Some?
    ensures var after := SwapPools(pools, env, sent, received, amount).value.0;
      SwapPools(after, env', received, sent, returned).value.1 <= amount
  {
    if sent != FURY && received != FURY {
      TwoHopsBack(pools, env, env', sent, received, amount, returned);
    } else {
      var asset := if received == FURY then sent else received;
      Swap.ReverseSwapNeverProfits(received == FURY, amount, pools[asset], returned, env.rate, env.SwapFeeRate(sent),
        env'.SwapFeeRate(received));
    }
  }

  /**
   A swap message followed by a swap of its proceeds, or part of them, back leaves the signer with no more of the asset
   first sent: for one hop and for two, at the same running rate, whatever the fees are at either time.
   */
  lemma SwapBackNeverProfits(l: Ledger, env: Env, env': Env, signer: Addr, sent: Denom, received: Denom, amount: nat,
                             minReceiving: nat, returned: nat, minBack: nat)
    requires env.Valid() && env'.Valid() && env.rate == env'.rate && signer != CLP
    requires HandleSwap(l, env, signer, sent, received, amount, minReceiving).Some?
    requires var m := HandleSwap(l, env, signer, sent, received, amount, minReceiving).value;
      && returned <= Balance(m.bank, signer, received) - Balance(l.bank, signer, received)
      && HandleSwap(m, env', signer, received, sent, returned, minBack).Some?
    ensures var m := HandleSwap(l, env, signer, sent, received, amount, minReceiving).value;
      var n := HandleSwap(m, env', signer, received, sent, returned, minBack).value;
      Balance(n.bank, signer, sent) <= Balance(l.bank, signer, sent)
  {
    var m := HandleSwap(l, env, signer, sent, received, amount, minReceiving).value;
    SwapExchanges(l, env, signer, sent, received, amount, minReceiving);
    SwapExchanges(m, env', signer, received, sent, returned, minBack);
    SwappedBack(l.pools, env, env', sent, received, amount, returned);
  }

  // ---------------------------------------------------------------- payments never fail from a backed ledger

  ghost predicate Backed(l: Ledger) {
    forall d :: 0 <= Surplus(l, d)
  }

  lemma BackedHolds(l: Ledger, asset: Denom)
    requires Backed(l) && FURY !in l.pools && asset in l.pools
    ensures l.pools[asset].externalBalance <= Balance(l.bank, CLP, asset)
    ensures l.pools[asset].nativeBalance <= Balance(l.bank, CLP, FURY)
  {
    assert 0 <= Surplus(l, asset) && 0 <= Surplus(l, FURY);
    MapSumMember(NativeHoldings(l.pools), asset);
  }

  lemma HopPaysFromBalance(pools: map<Denom, Pool>, env: Env, asset: Denom, toFury: bool, amount: nat, fee: real)
    requires env.Valid() && 0.0 <= fee <= 1.0 && HopPools(pools, env, asset, toFury, amount, fee).Some?
    ensures asset in pools
    ensures HopPools(pools, env, asset, toFury, amount, fee).value.1
         < if toFury then pools[asset].nativeBalance else pools[asset].externalBalance
  {
  }

  /** From a backed ledger the module can always pay: a swap fails only for the reasons the signer can see. */
  lemma SwapSucceedsIff(l: Ledger, env: Env, signer: Addr, sent: Denom, received: Denom, amount: nat, minReceiving: nat)
    requires env.Valid() && signer != CLP && Backed(l) && FURY !in l.pools
    ensures HandleSwap(l, env, signer, sent, received, amount, minReceiving).Some?
       <==> && sent != received && amount != 0 && amount <= Balance(l.bank, signer, sent)
            && SwapPools(l.pools, env, sent, received, amount).Some?
            && minReceiving <= SwapPools(l.pools, env, sent, received, amount).value.1
  {
    if SwapPools(l.pools, env, sent, received, amount).Some? {
      var out := if received == FURY then sent else received;
      BackedHolds(l, out);
      if sent != FURY && received != FURY {
        var (pools, hop) := HopPools(l.pools, env, sent, true, amount, env.SwapFeeRate(sent)).value;
        if sent != received { HopPaysFromBalance(pools, env, received, false, hop, env.SwapFeeRate(sent)); }
      } else {
        HopPaysFromBalance(l.pools, env, out, received == FURY, amount, env.SwapFeeRate(sent));
      }
    }
  }

  lemma BothSent(bank: Bank, from: Addr, to: Addr, d1: Denom, n1: nat, d2: Denom, n2: nat)
    requires from != to && d1 != d2
    ensures SendBoth(bank, from, to, d1, n1, d2, n2).Some?
        <==> n1 <= Balance(bank, from, d1) && n2 <= Balance(bank, from, d2)
  {
  }

  /** What a removal of either kind needs besides its amounts: a part of what the pool holds, and unlocked in time. */
  ghost predicate Removable(l: Ledger, env: Env, signer: Addr, asset: Denom, out: Withdrawn)
    requires asset in l.pools && (asset, signer) in l.providers && out.Withdrawn?
    requires out.unitsLeft <= l.providers[(asset, signer)].units
  {
    var p, lp := l.pools[asset], l.providers[(asset, signer)];
    && out.native <= p.nativeBalance && out.native < p.NativeDepth()
    && out.external <= p.externalBalance && out.external < p.ExternalDepth()
    && UnlockedInTime(lp, lp.units - out.unitsLeft, env.params, l.height)
  }

  lemma WithdrawnPaidWhenHeld(l: Ledger, env: Env, signer: Addr, asset: Denom, out: Withdrawn)
    requires signer != CLP && asset != FURY && (asset, signer) in l.providers && asset in l.pools && out.Withdrawn?
    requires out.unitsLeft <= l.providers[(asset, signer)].units <= l.pools[asset].units
    requires l.pools[asset].nativeBalance <= Balance(l.bank, CLP, FURY)
    requires l.pools[asset].externalBalance <= Balance(l.bank, CLP, asset)
    ensures HandleWithdrawn(l, env, signer, asset, out).Some? <==> Removable(l, env, signer, asset, out)
  {
    var lp := l.providers[(asset, signer)];
    BurnSucceedsIff(lp, lp.units - out.unitsLeft, env.params, l.height);
    BothSent(l.bank, CLP, signer, asset, out.external, FURY, out.native);
  }

  /** A removal whose amounts are known: the module account can always pay, so only the pool and the lock refuse it. */
  lemma WithdrawnSucceedsIff(l: Ledger, env: Env, signer: Addr, asset: Denom, out: Withdrawn)
    requires Backed(l) && Invariant(l) && signer != CLP && (asset, signer) in l.providers && asset in l.pools
    requires out.Withdrawn? && out.unitsLeft <= l.providers[(asset, signer)].units
    ensures HandleWithdrawn(l, env, signer, asset, out).Some? <==> Removable(l, env, signer, asset, out)
  {
    BackedHolds(l, asset);
    ProviderWithinPool(l, (asset, signer));
    WithdrawnPaidWhenHeld(l, env, signer, asset, out);
  }

  /**
   Removal by basis points from any backed ledger: it succeeds exactly for a valid fraction of a provider's own units,
   unlocked in time, that pays less than both depths and, where the pool is owed, no more than it holds. A provider
   without units cannot remove.
   */
  lemma RemoveLiquiditySucceedsIff(l: Ledger, env: Env, signer: Addr, asset: Denom, w: nat)
    requires Backed(l) && Invariant(l) && signer != CLP
    ensures HandleRemoveLiquidity(l, env, signer, asset, w).Some?
       <==> && 1 <= w <= MAX_W_BASIS && (asset, signer) in l.providers && 0 < l.providers[(asset, signer)].units
            && var p, lp := l.pools[asset], l.providers[(asset, signer)];
               var out := CalculateWithdrawal(p.units, p.NativeDepth(), p.ExternalDepth(), lp.units, w);
               out.Withdrawn? && out.unitsLeft <= lp.units && Removable(l, env, signer, asset, out)
  {
    if 1 <= w <= MAX_W_BASIS && (asset, signer) in l.providers {
      var p, lp := l.pools[asset], l.providers[(asset, signer)];
      ProviderWithinPool(l, (asset, signer));
      if lp.units == 0 {
        ClaimWithinUnits(0, w);
      } else {
        WithdrawalSafe(p.units, p.NativeDepth(), p.ExternalDepth(), lp.units, w);
        WithdrawnSucceedsIff(l, env, signer, asset,
          CalculateWithdrawal(p.units, p.NativeDepth(), p.ExternalDepth(), lp.units, w));
      }
    }
  }

  /** The same for removal by units. */
  lemma RemoveLiquidityUnitsSucceedsIff(l: Ledger, env: Env, signer: Addr, asset: Denom, n: nat)
    requires Backed(l) && Invariant(l) && signer != CLP
    ensures HandleRemoveLiquidityUnits(l, env, signer, asset, n).Some?
       <==> && (asset, signer) in l.providers && 1 <= n <= l.providers[(asset, signer)].units
            && var p, lp := l.pools[asset], l.providers[(asset, signer)];
               var out := CalculateWithdrawalFromUnits(p.units, p.NativeDepth(), p.ExternalDepth(), lp.units, n);
               out.Withdrawn? && out.unitsLeft <= lp.units && Removable(l, env, signer, asset, out)
  {
    if (asset, signer) in l.providers && 1 <= n <= l.providers[(asset, signer)].units {
      var p, lp := l.pools[asset], l.providers[(asset, signer)];
      ProviderWithinPool(l, (asset, signer));
      UnitsWithdrawalSafe(p.units, p.NativeDepth(), p.ExternalDepth(), lp.units, n);
      WithdrawnSucceedsIff(l, env, signer, asset,
        CalculateWithdrawalFromUnits(p.units, p.NativeDepth(), p.ExternalDepth(), lp.units, n));
    }
  }

  // ---------------------------------------------------------------- adding liquidity

  /**
   An add never lowers anyone's claim on the asset it brings too much of; a proportional add lowers none. `u` is any
   number of units held before.
   */
  lemma AddNeverDilutes(l: Ledger, env: Env, signer: Addr, asset: Denom, native: nat, external: nat, u: nat)
    requires env.Valid() && HandleAddLiquidity(l, env, signer, asset, native, external).Some?
    requires asset in l.pools && IsOpen(l.pools[asset]) && 0 < l.pools[asset].units
    ensures asset in HandleAddLiquidity(l, env, signer, asset, native, external).value.pools
    ensures var p, q := l.pools[asset], HandleAddLiquidity(l, env, signer, asset, native, external).value.pools[asset];
      && 0 < q.units
      && (p.NativeDepth() * external <= native * p.ExternalDepth()
          ==> Claim(u, p.units, p.NativeDepth()) <= Claim(u, q.units, q.NativeDepth()))
      && (native * p.ExternalDepth() <= p.NativeDepth() * external
          ==> Claim(u, p.units, p.ExternalDepth()) <= Claim(u, q.units, q.ExternalDepth()))
  {
    var p := l.pools[asset];
    UnitsNeverDilute(u, p.units, p.NativeDepth(), p.ExternalDepth(), native, external,
      env.SwapFeeRate(FURY), env.SwapFeeRate(asset), env.rate);
  }

  lemma UnitsNeverDilute(u: nat, P: nat, R: nat, A: nat, r: nat, a: nat, sellFee: real, buyFee: real, p: real)
    requires BothFeesValid(sellFee, buyFee, p) && 0 < P && 0 < R && 0 < A && (r != 0 || a != 0)
    ensures var res := CalculatePoolUnits(P, R, A, r, a, sellFee, buyFee, p);
      && res.Issued? && 0 < res.poolUnits
      && (R * a <= r * A ==> Claim(u, P, R) <= Claim(u, res.poolUnits, R + r))
      && (r * A <= R * a ==> Claim(u, P, A) <= Claim(u, res.poolUnits, A + a))
  {
    if R * a == r * A {
      SymmetryStateByCrossProduct(A, a, R, r);
      SymmetricAddNeverDilutes(u, P, R, A, r, a);
    } else if R * a < r * A {
      NativeAddIsWorthASwap(u, P, R, A, r, a, sellFee, buyFee, p);
    } else {
      ExternalAddIsWorthASwap(u, P, R, A, r, a, sellFee, buyFee, p);
    }
  }
}
