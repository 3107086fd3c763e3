/**
 The stored state of the liquidity module together with the bank, and what each message does to it. A handler
 that fails or panics leaves the state unchanged; it is a function to `Option`, with `None` for failure.
 */
module Ledger {
  import opened Options
  import opened Pools
  import opened Unlocks
  import opened PoolUnits
  import opened Withdrawal
  import Swap

  type Denom = string
  type Addr = string
  type ProviderKey = (Denom, Addr)
  type Bank = map<(Addr, Denom), nat>

  const FURY: Denom := "fury"
  /** The module account, which holds the coins of all pools. */
  const CLP: Addr := "clp"
  const POOL_THRESHOLD: nat := 1_000_000_000_000_000_000

  datatype Ledger = Ledger(
    pools: map<Denom, Pool>,
    providers: map<ProviderKey, Provider>,
    bank: Bank,
    height: nat)

  /** Parameters read by the handlers; governance may change them between any two messages. */
  datatype Env = Env(rate: real, defaultFee: real, fees: map<Denom, real>, params: Params) {
    /** `GetSwapFeeRate`. */
    function SwapFeeRate(asset: Denom): real {
      if asset in fees then fees[asset] else defaultFee
    }

    ghost predicate Valid() {
      0.0 <= rate && 0.0 <= defaultFee <= 1.0 && forall d | d in fees :: 0.0 <= fees[d] <= 1.0
    }
  }

  datatype Msg =
    | CreatePool(signer: Addr, asset: Denom, native: nat, external: nat)
    | SwapCoins(signer: Addr, sent: Denom, received: Denom, amount: nat, minReceiving: nat)
    | AddLiquidity(signer: Addr, asset: Denom, native: nat, external: nat)
    | RemoveLiquidity(signer: Addr, asset: Denom, wBasisPoints: nat)
    | RemoveLiquidityUnits(signer: Addr, asset: Denom, units: nat)
    | UnlockLiquidity(signer: Addr, asset: Denom, units: nat)
    | CancelUnlockLiquidity(signer: Addr, asset: Denom, units: nat)

  // ---------------------------------------------------------------- bank

  function Balance(bank: Bank, a: Addr, d: Denom): nat {
    if (a, d) in bank then bank[(a, d)] else 0
  }

  /** Moves coins between two accounts; fails when the sender has too few. */
  function Send(bank: Bank, from: Addr, to: Addr, d: Denom, n: nat): (res: Option<Bank>)
    ensures res.None? <==> Balance(bank, from, d) < n
    ensures res.Some? && from != to ==>
      forall a, c :: Balance(res.value, a, c) ==
        if (a, c) == (from, d) then Balance(bank, a, c) - n
        else if (a, c) == (to, d) then Balance(bank, a, c) + n
        else Balance(bank, a, c)
  {
    if Balance(bank, from, d) < n then None
    else
      var debited := bank[(from, d) := Balance(bank, from, d) - n];
      Some(debited[(to, d) := Balance(debited, to, d) + n])
  }

  function SendBoth(bank: Bank, from: Addr, to: Addr, d1: Denom, n1: nat, d2: Denom, n2: nat): Option<Bank> {
    match Send(bank, from, to, d1, n1)
    case None => None
    case Some(first) => Send(first, from, to, d2, n2)
  }

  // ---------------------------------------------------------------- handlers

  function HandleCreatePool(l: Ledger, env: Env, signer: Addr, asset: Denom, native: nat, external: nat): Option<Ledger>
    requires env.Valid()
  {
    if asset == FURY || native == 0 || external == 0 || native < POOL_THRESHOLD || asset in l.pools then None
    else match CalculatePoolUnits(0, 0, 0, native, external, env.SwapFeeRate(FURY), env.SwapFeeRate(asset), env.rate)
      case InvalidAmount => None
      case Issued(poolUnits, lpUnits, _, _) =>
        match SendBoth(l.bank, signer, CLP, asset, external, FURY, native)
        case None => None
        case Some(bank) =>
          Some(l.(bank := bank,
                  pools := l.pools[asset := NewPool(native, external, poolUnits)],
                  providers := l.providers[(asset, signer) := Provider(lpUnits, [])]))
  }

  /** The first hop of a swap between two external assets: the sent asset for native. */
  function FirstHop(l: Ledger, env: Env, sent: Denom, received: Denom, amount: nat): Option<(map<Denom, Pool>, nat)>
    requires env.Valid()
  {
    if sent == FURY || received == FURY then Some((l.pools, amount))
    else if sent !in l.pools then None
    else match Swap.SwapOne(true, amount, l.pools[sent], env.rate, env.SwapFeeRate(sent))
      case NotEnoughAssetTokens => None
      case Swapped(result, _, pool) => Some((l.pools[sent := pool], result))
  }

  function HandleSwap(l: Ledger, env: Env, signer: Addr, sent: Denom, received: Denom, amount: nat,
                      minReceiving: nat): Option<Ledger>
    requires env.Valid()
  {
    if sent == received || amount == 0 || (sent != FURY && sent !in l.pools) then None
    else match Send(l.bank, signer, CLP, sent, amount)
      case None => None
      case Some(initiated) =>
        match FirstHop(l, env, sent, received, amount)
        case None => None
        case Some((pools, hopAmount)) =>
          var out := if received == FURY then sent else received;
          if out !in pools then None
          else match Swap.SwapOne(received == FURY, hopAmount, pools[out], env.rate, env.SwapFeeRate(sent))
            case NotEnoughAssetTokens => None
            case Swapped(emitted, _, pool) =>
              if emitted < minReceiving then None
              else match Send(initiated, CLP, signer, received, emitted)
                case None => None
                case Some(finalized) => Some(l.(bank := finalized, pools := pools[out := pool]))
  }

  function HandleAddLiquidity(l: Ledger, env: Env, signer: Addr, asset: Denom, native: nat,
                              external: nat): Option<Ledger>
    requires env.Valid()
  {
    if asset == FURY || (native == 0 && external == 0) || asset !in l.pools then None
    else
      var pool := l.pools[asset];
      match CalculatePoolUnits(pool.units, pool.NativeDepth(), pool.ExternalDepth(), native, external,
                               env.SwapFeeRate(FURY), env.SwapFeeRate(asset), env.rate)
      case InvalidAmount => None
      case Issued(poolUnits, lpUnits, _, _) =>
        match SendBoth(l.bank, signer, CLP, asset, external, FURY, native)
        case None => None
        case Some(bank) =>
          var key := (asset, signer);
          var lp := if key in l.providers then l.providers[key] else Provider(0, []);
          Some(l.(bank := bank,
                  pools := l.pools[asset := pool.(units := poolUnits,
                                                  nativeBalance := pool.nativeBalance + native,
                                                  externalBalance := pool.externalBalance + external)],
                  providers := l.providers[key := lp.(units := lp.units + lpUnits)]))
  }

  /** A pool after a removal; `None` when a subtraction would go below zero or a whole side would be paid out. */
  function WithdrawFromPool(pool: Pool, lpUnits: nat, out: Withdrawn): Option<Pool>
    requires out.Withdrawn?
  {
    if pool.units < lpUnits || pool.nativeBalance < out.native || pool.externalBalance < out.external then None
    else if out.external >= pool.ExternalDepth() || out.native >= pool.NativeDepth() then None
    else Some(pool.(units := pool.units - lpUnits + out.unitsLeft,
                    nativeBalance := pool.nativeBalance - out.native,
                    externalBalance := pool.externalBalance - out.external))
  }

  /** The part shared by both removals, once the amounts are known. */
  function HandleWithdrawn(l: Ledger, env: Env, signer: Addr, asset: Denom, out: Withdrawn): Option<Ledger>
    requires asset in l.pools && (asset, signer) in l.providers
    requires out.Withdrawn? ==> out.unitsLeft <= l.providers[(asset, signer)].units
  {
    var lp := l.providers[(asset, signer)];
    if out.Panic? then None
    else match BurnUnits(lp, lp.units - out.unitsLeft, env.params, l.height)
      case None => None
      case Some(burned) =>
        match WithdrawFromPool(l.pools[asset], lp.units, out)
        case None => None
        case Some(pool) =>
          match SendBoth(l.bank, CLP, signer, asset, out.external, FURY, out.native)
          case None => None
          case Some(bank) =>
            Some(l.(bank := bank,
                    pools := l.pools[asset := pool],
                    providers := if out.unitsLeft == 0 then l.providers - {(asset, signer)}
                                 else l.providers[(asset, signer) := burned]))
  }

  function HandleRemoveLiquidity(l: Ledger, env: Env, signer: Addr, asset: Denom, w: nat): Option<Ledger> {
    if !(1 <= w <= MAX_W_BASIS) || asset !in l.pools || (asset, signer) !in l.providers then None
    else
      var pool, lp := l.pools[asset], l.providers[(asset, signer)];
      HandleWithdrawn(l, env, signer, asset,
                      CalculateWithdrawal(pool.units, pool.NativeDepth(), pool.ExternalDepth(), lp.units, w))
  }

  function HandleRemoveLiquidityUnits(l: Ledger, env: Env, signer: Addr, asset: Denom, units: nat): Option<Ledger> {
    if units == 0 || asset !in l.pools || (asset, signer) !in l.providers then None
    else if units > l.providers[(asset, signer)].units then None
    else
      var pool, lp := l.pools[asset], l.providers[(asset, signer)];
      UnitsLeftExact(lp.units, units);
      HandleWithdrawn(l, env, signer, asset,
                      CalculateWithdrawalFromUnits(pool.units, pool.NativeDepth(), pool.ExternalDepth(), lp.units,
                        units))
  }

  function HandleUnlock(l: Ledger, env: Env, signer: Addr, asset: Denom, units: nat): Option<Ledger> {
    if (asset, signer) !in l.providers then None
    else match RequestUnlock(l.providers[(asset, signer)], units, env.params, l.height)
      case None => None
      case Some(lp) => Some(l.(providers := l.providers[(asset, signer) := lp]))
  }

  function HandleCancelUnlock(l: Ledger, env: Env, signer: Addr, asset: Denom, units: nat): Option<Ledger> {
    if (asset, signer) !in l.providers then None
    else match CancelUnlock(l.providers[(asset, signer)], units, env.params, l.height)
      case None => None
      case Some(lp) => Some(l.(providers := l.providers[(asset, signer) := lp]))
  }

  function Handle(l: Ledger, env: Env, msg: Msg): Option<Ledger>
    requires env.Valid()
  {
    match msg
    case CreatePool(signer, asset, native, external) => HandleCreatePool(l, env, signer, asset, native, external)
    case SwapCoins(signer, sent, received, amount, minReceiving) =>
      HandleSwap(l, env, signer, sent, received, amount, minReceiving)
    case AddLiquidity(signer, asset, native, external) => HandleAddLiquidity(l, env, signer, asset, native, external)
    case RemoveLiquidity(signer, asset, w) => HandleRemoveLiquidity(l, env, signer, asset, w)
    case RemoveLiquidityUnits(signer, asset, units) => HandleRemoveLiquidityUnits(l, env, signer, asset, units)
    case UnlockLiquidity(signer, asset, units) => HandleUnlock(l, env, signer, asset, units)
    case CancelUnlockLiquidity(signer, asset, units) => HandleCancelUnlock(l, env, signer, asset, units)
  }

  // ---------------------------------------------------------------- decommissioning

  /** A pool being wound up: the refunds made so far, and what the running subtractions have left. */
  datatype Refunding = Refunding(bank: Bank, providers: map<ProviderKey, Provider>, native: nat, external: nat,
                                 units: nat)

  /** Refunds one provider its whole share, computed from the pool as it was before any refund. */
  function RefundOne(pool: Pool, asset: Denom, r: Refunding, a: Addr): Option<Refunding> {
    if (asset, a) !in r.providers then None
    else
      var lp := r.providers[(asset, a)];
      match CalculateWithdrawal(pool.units, pool.NativeDepth(), pool.ExternalDepth(), lp.units, MAX_W_BASIS)
      case Panic => None
      case Withdrawn(native, external, _) =>
        if r.units < lp.units || r.native < native || r.external < external then None
        else match SendBoth(r.bank, CLP, a, asset, external, FURY, native)
          case None => None
          case Some(bank) =>
            Some(Refunding(bank, r.providers - {(asset, a)}, r.native - native, r.external - external,
              r.units - lp.units))
  }

  function RefundAll(pool: Pool, asset: Denom, r: Refunding, order: seq<Addr>): Option<Refunding> {
    if order == [] then Some(r)
    else match RefundAll(pool, asset, r, order[..|order| - 1])
      case None => None
      case Some(before) => RefundOne(pool, asset, before, order[|order| - 1])
  }

  /** `DecommissionPool`, with the providers listed in store order. Rounding leaves dust with the module account. */
  function HandleDecommission(l: Ledger, asset: Denom, order: seq<Addr>): Option<Ledger> {
    if asset !in l.pools || l.pools[asset].nativeBalance >= POOL_THRESHOLD then None
    else
      var pool := l.pools[asset];
      match RefundAll(pool, asset, Refunding(l.bank, l.providers, pool.nativeBalance, pool.externalBalance,
        pool.units), order)
      case None => None
      case Some(r) => Some(l.(bank := r.bank, providers := r.providers, pools := l.pools - {asset}))
  }
}
