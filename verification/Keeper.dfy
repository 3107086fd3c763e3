/**
 The message handlers as they run: step by step over the stores and the bank. A handler that fails part-way leaves its
 partial writes behind; `Deliver` discards them, as the transaction runner does.
 */
module Keeper {
  import opened Options
  import opened Pools
  import opened Unlocks
  import opened PoolUnits
  import opened Withdrawal
  import opened Ledger
  import opened UnlockRecords
  import Curve = Swap

  lemma OneMoreRefund(pool: Pool, asset: Denom, r: Refunding, order: seq<Addr>, i: nat)
    requires i < |order| && RefundAll(pool, asset, r, order[..i]).Some?
    ensures RefundAll(pool, asset, r, order[..i + 1])
         == RefundOne(pool, asset, RefundAll(pool, asset, r, order[..i]).value, order[i])
  {
    assert order[..i + 1][..i] == order[..i];
  }

  lemma {:induction false} FailedRefundStays(pool: Pool, asset: Denom, r: Refunding, order: seq<Addr>, i: nat)
    requires i <= |order| && RefundAll(pool, asset, r, order[..i]).None?
    ensures RefundAll(pool, asset, r, order).None?
  {
    if i == |order| {
      assert order[..i] == order;
    } else {
      assert order[..|order| - 1][..i] == order[..i];
      FailedRefundStays(pool, asset, r, order[..|order| - 1], i);
    }
  }

  /** Writing a record twice, or writing and deleting it, leaves nothing of the first write. */
  lemma Restored(m: map<ProviderKey, Provider>, key: ProviderKey, x: Provider, y: Provider)
    ensures m[key := x] - {key} == m - {key} && m[key := x][key := y] == m[key := y]
  {
  }

  class Keeper {
    var pools: map<Denom, Pool>
    var providers: map<ProviderKey, Provider>
    var bank: Bank
    var height: nat

    ghost function State(): Ledger
      reads this
    {
      Ledger(pools, providers, bank, height)
    }

    constructor (l: Ledger)
      ensures State() == l
    {
      pools, providers, bank, height := l.pools, l.providers, l.bank, l.height;
    }

    method SendCoins(from: Addr, to: Addr, d: Denom, n: nat) returns (ok: bool)
      modifies this`bank
      ensures ok == Send(old(bank), from, to, d, n).Some?
      ensures bank == if ok then Send(old(bank), from, to, d, n).value else old(bank)
    {
      var sent := Send(bank, from, to, d, n);
      ok := sent.Some?;
      if ok { bank := sent.value; }
    }

    /** Two coins in one transfer: both or neither. */
    method SendTwoCoins(from: Addr, to: Addr, d1: Denom, n1: nat, d2: Denom, n2: nat) returns (ok: bool)
      modifies this`bank
      ensures ok == SendBoth(old(bank), from, to, d1, n1, d2, n2).Some?
      ensures bank == if ok then SendBoth(old(bank), from, to, d1, n1, d2, n2).value else old(bank)
    {
      var before := bank;
      ok := SendCoins(from, to, d1, n1);
      if !ok { return; }
      ok := SendCoins(from, to, d2, n2);
      if !ok { bank := before; }
    }

    method CreatePool(env: Env, signer: Addr, asset: Denom, native: nat, external: nat) returns (ok: bool)
      requires env.Valid()
      modifies this
      ensures ok == HandleCreatePool(old(State()), env, signer, asset, native, external).Some?
      ensures ok ==> State() == HandleCreatePool(old(State()), env, signer, asset, native, external).value
    {
      if asset == FURY || native == 0 || external == 0 || native < POOL_THRESHOLD || asset in pools { return false; }
      var units := CalculatePoolUnits(0, 0, 0, native, external, env.SwapFeeRate(FURY), env.SwapFeeRate(asset),
        env.rate);
      if units.InvalidAmount? { return false; }
      ok := SendTwoCoins(signer, CLP, asset, external, FURY, native);
      if !ok { return; }
      pools := pools[asset := NewPool(native, external, units.poolUnits)];
      providers := providers[(asset, signer) := Provider(units.lpUnits, [])];
    }

    method Swap(env: Env, signer: Addr, sent: Denom, received: Denom, amount: nat, minReceiving: nat) returns (ok: bool)
      requires env.Valid()
      modifies this
      ensures ok == HandleSwap(old(State()), env, signer, sent, received, amount, minReceiving).Some?
      ensures ok ==> State() == HandleSwap(old(State()), env, signer, sent, received, amount, minReceiving).value
    {
      if sent == received || amount == 0 || (sent != FURY && sent !in pools) { return false; }
      ok := SendCoins(signer, CLP, sent, amount);
      if !ok { return; }
      var sentAmount := amount;
      if sent != FURY && received != FURY {
        var first := Curve.SwapOne(true, amount, pools[sent], env.rate, env.SwapFeeRate(sent));
        if first.NotEnoughAssetTokens? { return false; }
        pools := pools[sent := first.pool];
        sentAmount := first.result;
      }
      var out := if received == FURY then sent else received;
      if out !in pools { return false; }
      var last := Curve.SwapOne(received == FURY, sentAmount, pools[out], env.rate, env.SwapFeeRate(sent));
      if last.NotEnoughAssetTokens? || last.result < minReceiving { return false; }
      pools := pools[out := last.pool];
      ok := SendCoins(CLP, signer, received, last.result);
    }

    method AddLiquidity(env: Env, signer: Addr, asset: Denom, native: nat, external: nat) returns (ok: bool)
      requires env.Valid()
      modifies this
      ensures ok == HandleAddLiquidity(old(State()), env, signer, asset, native, external).Some?
      ensures ok ==> State() == HandleAddLiquidity(old(State()), env, signer, asset, native, external).value
    {
      if asset == FURY || (native == 0 && external == 0) || asset !in pools { return false; }
      var pool := pools[asset];
      var units := CalculatePoolUnits(pool.units, pool.NativeDepth(), pool.ExternalDepth(), native, external,
                                      env.SwapFeeRate(FURY), env.SwapFeeRate(asset), env.rate);
      if units.InvalidAmount? { return false; }
      ok := SendTwoCoins(signer, CLP, asset, external, FURY, native);
      if !ok { return; }
      pool := pool.(units := units.poolUnits,
                    nativeBalance := pool.nativeBalance + native,
                    externalBalance := pool.externalBalance + external);
      var lp := Provider(0, []);
      if (asset, signer) in providers { lp := providers[(asset, signer)]; }
      pools := pools[asset := pool];
      providers := providers[(asset, signer) := lp.(units := lp.units + units.lpUnits)];
    }

    /** `UseUnlockedLiquidity` for a removal: stores its own copy, and leaves the handler's in `burned`. */
    method UseUnlocked(env: Env, key: ProviderKey, n: nat) returns (ok: bool, burned: Provider)
      requires key in providers && n <= providers[key].units
      modifies this`providers
      ensures BurnUnits(old(providers)[key], n, env.params, height) == if ok then Some(burned) else None
      ensures key in providers && providers == old(providers)[key := providers[key]]
    {
      var calleeStored;
      ok, calleeStored, burned := BurnThroughSharedRecords(providers[key], n, env.params, height);
      if ok { providers := providers[key := calleeStored]; }
    }

    /** The second half of both removals: use the unlocked units, update the pool, pay, and store the provider. */
    method Withdraw(env: Env, signer: Addr, asset: Denom, out: Withdrawn) returns (ok: bool)
      requires asset in pools && (asset, signer) in providers
      requires out.Withdrawn? ==> out.unitsLeft <= providers[(asset, signer)].units
      modifies this
      ensures ok == HandleWithdrawn(old(State()), env, signer, asset, out).Some?
      ensures ok ==> State() == HandleWithdrawn(old(State()), env, signer, asset, out).value
    {
      if out.Panic? { return false; }
      var lp, key := providers[(asset, signer)], (asset, signer);
      var burned;
      ok, burned := UseUnlocked(env, key, lp.units - out.unitsLeft);
      if !ok { return; }
      ok := PayFromPool(asset, signer, lp.units, out);
      if !ok { return; }
      Restored(old(providers), key, providers[key], burned);
      StoreProvider(key, burned);
    }

    /** The executor's half: the pool's subtractions and its depth guard, then the transfer. */
    method PayFromPool(asset: Denom, signer: Addr, lpUnits: nat, out: Withdrawn) returns (ok: bool)
      requires asset in pools && out.Withdrawn?
      modifies this`pools, this`bank
      ensures ok == (WithdrawFromPool(old(pools)[asset], lpUnits, out).Some?
                     && SendBoth(old(bank), CLP, signer, asset, out.external, FURY, out.native).Some?)
      ensures ok ==> pools == old(pools)[asset := WithdrawFromPool(old(pools)[asset], lpUnits, out).value]
      ensures ok ==> bank == SendBoth(old(bank), CLP, signer, asset, out.external, FURY, out.native).value
    {
      var pool := pools[asset];
      if pool.units < lpUnits { return false; }
      if pool.nativeBalance < out.native || pool.externalBalance < out.external { return false; }
      if out.external >= pool.ExternalDepth() || out.native >= pool.NativeDepth() { return false; }
      pools := pools[asset := pool.(units := pool.units - lpUnits + out.unitsLeft,
                                    nativeBalance := pool.nativeBalance - out.native,
                                    externalBalance := pool.externalBalance - out.external)];
      ok := SendTwoCoins(CLP, signer, asset, out.external, FURY, out.native);
    }

    /** Saves the handler's copy of a provider, or deletes the record of one without units. */
    method StoreProvider(key: ProviderKey, lp: Provider)
      modifies this`providers
      ensures providers == if lp.units == 0 then old(providers) - {key} else old(providers)[key := lp]
    {
      if lp.units == 0 { providers := providers - {key}; } else { providers := providers[key := lp]; }
    }

    method RemoveLiquidity(env: Env, signer: Addr, asset: Denom, w: nat) returns (ok: bool)
      modifies this
      ensures ok == HandleRemoveLiquidity(old(State()), env, signer, asset, w).Some?
      ensures ok ==> State() == HandleRemoveLiquidity(old(State()), env, signer, asset, w).value
    {
      if !(1 <= w <= MAX_W_BASIS) || asset !in pools || (asset, signer) !in providers { return false; }
      var pool, lp := pools[asset], providers[(asset, signer)];
      var out := CalculateWithdrawal(pool.units, pool.NativeDepth(), pool.ExternalDepth(), lp.units, w);
      ok := Withdraw(env, signer, asset, out);
    }

    method RemoveLiquidityUnits(env: Env, signer: Addr, asset: Denom, units: nat) returns (ok: bool)
      modifies this
      ensures ok == HandleRemoveLiquidityUnits(old(State()), env, signer, asset, units).Some?
      ensures ok ==> State() == HandleRemoveLiquidityUnits(old(State()), env, signer, asset, units).value
    {
      if units == 0 || asset !in pools || (asset, signer) !in providers { return false; }
      if units > providers[(asset, signer)].units { return false; }
      var pool, lp := pools[asset], providers[(asset, signer)];
      UnitsLeftExact(lp.units, units);
      var out := CalculateWithdrawalFromUnits(pool.units, pool.NativeDepth(), pool.ExternalDepth(), lp.units, units);
      ok := Withdraw(env, signer, asset, out);
    }

    method ChangeUnlocks(env: Env, signer: Addr, asset: Denom, units: nat, cancel: bool) returns (ok: bool)
      modifies this`providers
      ensures var res := if cancel then HandleCancelUnlock(old(State()), env, signer, asset, units)
                         else HandleUnlock(old(State()), env, signer, asset, units);
        ok == res.Some? && (ok ==> State() == res.value)
    {
      if (asset, signer) !in providers { return false; }
      var lp := providers[(asset, signer)];
      var saved;
      if cancel {
        ok, saved := CancelThroughRecords(lp, units, env.params, height);
      } else {
        ok, saved := RequestThroughRecords(lp, units, env.params, height);
      }
      if ok { providers := providers[(asset, signer) := saved]; }
    }

    /** One turn of the refund loop: the running subtractions, the transfer, and the provider's record deleted. */
    method RefundProvider(pool: Pool, asset: Denom, a: Addr, native: nat, external: nat, units: nat)
      returns (ok: bool, nativeLeft: nat, externalLeft: nat, unitsLeft: nat)
      modifies this`bank, this`providers
      ensures RefundOne(pool, asset, Refunding(old(bank), old(providers), native, external, units), a)
           == if ok then Some(Refunding(bank, providers, nativeLeft, externalLeft, unitsLeft)) else None
    {
      nativeLeft, externalLeft, unitsLeft := native, external, units;
      if (asset, a) !in providers { return false, native, external, units; }
      var lp := providers[(asset, a)];
      var out := CalculateWithdrawal(pool.units, pool.NativeDepth(), pool.ExternalDepth(), lp.units, MAX_W_BASIS);
      if out.Panic? { return false, native, external, units; }
      if units < lp.units || native < out.native || external < out.external { return false, native, external, units; }
      nativeLeft, externalLeft, unitsLeft := native - out.native, external - out.external, units - lp.units;
      ok := SendTwoCoins(CLP, a, asset, out.external, FURY, out.native);
      if ok { providers := providers - {(asset, a)}; }
    }

    /** `DecommissionPool`, with the providers listed in store order. */
    method DecommissionPool(asset: Denom, order: seq<Addr>) returns (ok: bool)
      modifies this
      ensures ok == HandleDecommission(old(State()), asset, order).Some?
      ensures ok ==> State() == HandleDecommission(old(State()), asset, order).value
    {
      if asset !in pools || pools[asset].nativeBalance >= POOL_THRESHOLD { return false; }
      var pool := pools[asset];
      var native, external, units := pool.nativeBalance, pool.externalBalance, pool.units;
      ghost var start := Refunding(bank, providers, native, external, units);
      for i := 0 to |order|
        invariant pools == old(pools) && height == old(height)
        invariant RefundAll(pool, asset, start, order[..i]) == Some(Refunding(bank, providers, native, external, units))
      {
        OneMoreRefund(pool, asset, start, order, i);
        ok, native, external, units := RefundProvider(pool, asset, order[i], native, external, units);
        if !ok {
          FailedRefundStays(pool, asset, start, order, i + 1);
          return;
        }
      }
      assert order[..|order|] == order;
      pools := pools - {asset};
      return true;
    }

    /** Runs one message; a failure restores every store. */
    method Deliver(env: Env, msg: Msg) returns (ok: bool)
      requires env.Valid()
      modifies this
      ensures ok == Handle(old(State()), env, msg).Some?
      ensures State() == if ok then Handle(old(State()), env, msg).value else old(State())
    {
      var pools0, providers0, bank0, height0 := pools, providers, bank, height;
      match msg {
        case CreatePool(signer, asset, native, external) => ok := CreatePool(env, signer, asset, native, external);
        case SwapCoins(signer, sent, received, amount, min) => ok := Swap(env, signer, sent, received, amount, min);
        case AddLiquidity(signer, asset, native, external) => ok := AddLiquidity(env, signer, asset, native, external);
        case RemoveLiquidity(signer, asset, w) => ok := RemoveLiquidity(env, signer, asset, w);
        case RemoveLiquidityUnits(signer, asset, units) => ok := RemoveLiquidityUnits(env, signer, asset, units);
        case UnlockLiquidity(signer, asset, units) => ok := ChangeUnlocks(env, signer, asset, units, false);
        case CancelUnlockLiquidity(signer, asset, units) => ok := ChangeUnlocks(env, signer, asset, units, true);
      }
      if !ok {
        pools, providers, bank, height := pools0, providers0, bank0, height0;
      }
    }
  }
}
