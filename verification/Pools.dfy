/** A liquidity pool: one external asset against the native one, with the margin module's debts and custody. */
module Pools {

  datatype Pool = Pool(
    nativeBalance: nat,
    externalBalance: nat,
    units: nat,
    nativeLiabilities: nat,
    externalLiabilities: nat,
    nativeCustody: nat,
    externalCustody: nat)
  {
    /** Balances as seen by a swap towards native (`toFury`) or away from it: what comes in, what goes out. */
    function ExtractValues(toFury: bool): (nat, nat) {
      if toFury then (externalBalance, nativeBalance) else (nativeBalance, externalBalance)
    }

    /** Adds the outstanding debts to a pair of balances. */
    function ExtractDebt(X: nat, Y: nat, toFury: bool): (nat, nat) {
      if toFury then (X + externalLiabilities, Y + nativeLiabilities)
      else (X + nativeLiabilities, Y + externalLiabilities)
    }

    function NativeDepth(): nat { ExtractDebt(nativeBalance, externalBalance, false).0 }

    function ExternalDepth(): nat { ExtractDebt(nativeBalance, externalBalance, false).1 }

    function UpdateBalances(toFury: bool, X: nat, x: nat, Y: nat, swapResult: nat): Pool
      requires swapResult <= Y
    {
      if toFury then this.(externalBalance := X + x, nativeBalance := Y - swapResult)
      else this.(nativeBalance := X + x, externalBalance := Y - swapResult)
    }
  }

  /** `NewPool`: a fresh pool owes nothing and holds nothing in custody. */
  function NewPool(native: nat, external: nat, units: nat): Pool {
    Pool(native, external, units, 0, 0, 0, 0)
  }
}
