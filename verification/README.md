# The liquidity module of furynode, modelled and proved in Dafny

This project models `x/clp`, the constant-product liquidity module of furynode: its exact swap and pool-unit
arithmetic, its pools, providers and coins as one ledger, the blocks that pay providers and distribute rewards, the
ratio-shifting ("PMTP") policy, the liquidity-protection threshold, and time-locked withdrawals. `dafny verify
dfyconfig.toml` checks all of it.

## How the files fit together

| file | what it holds |
|---|---|
| `Rational`, `Decimal`, `Sums`, `Options`, `Pools` | `big.Rat` as `real`, `sdk.Dec` as an integer scaled by 10^18 with half-to-even rounding, sums over maps, the pool record |
| `Swap`, `SpotPrice` | one swap along the shifted curve; spot prices and the decimal/rational conversions |
| `AsymmetricAdd`, `PoolUnits` | the two quadratic solvers behind unbalanced deposits; units issued and what they are worth |
| `AddRemove` | adding and removing again, against keeping the coins and against swapping them |
| `Withdrawal` | chained rounded divisions that turn units back into coins |
| `Unlocks`, `UnlockRecords` | unlock requests as values; the same code over records shared by pointer |
| `Ledger`, `LedgerInvariants`, `Trades` | every message as a function on pools, providers and bank; what each keeps; what signers gain and lose |
| `Settlement` | what each message does to every account, pool and provider, and at which fee rate |
| `Payout`, `Rewards`, `LedgerDistribution` | the distribution loops over three maps; minting and burning; both as ledger steps |
| `Shares` | each pool's reward, each provider's amount, and what every address ends up with |
| `LedgerRun`, `LedgerCases` | arbitrary sequences of messages and blocks; runs from genesis that reach the exceptional states |
| `WindUp` | when a pool can be wound up; runs from genesis in which rounding leaves coins behind, or refuses it |
| `Keeper`, `KeeperBlocks` | the handlers and block hooks as stateful methods, proved equal to the ledger functions |
| `Pmtp`, `LiquidityProtection`, `Emission` | the three block-driven state machines |

Main results:

- Both square-root arguments of the asymmetric add are never negative, which the source leaves open. Each returned
  swap amount lies below the deposit, does not exceed the exact root of the documented equation, and is less than 3/2
  below it. So `CalculatePoolUnits` is total.
- Over every sequence of messages and blocks from genesis both of the module's disabled invariant checks hold in every
  state, as long as no step is one of the following. Which steps do it is stated as an equivalence on the state before
  the step, and for each kind a run from genesis shows it:
  - a reward distribution that pays out while a rewarded pool has no provider list loses backing, by exactly the reward
    credited there (`x/clp/keeper/rewards.go:72-78` against the burn at 112-117). While unit totals
    match and lists are complete, this needs a pool without units, which only a removal of its last unit leaves;
  - winding a pool up leaves with the module account exactly what the pool held and did not refund, so the equality
    check survives only when the refunds use the pool up;
  - a payout that delivers a pool's whole native depth leaves an empty side, which rates up to one half never do, and
    the next add to such a pool starts counting units afresh.
- A pool can be wound up exactly when it is below the threshold, all its providers have units, and the refunds fit both
  balances. Refunds are rounded one by one, and a run from genesis reaches a pool they do not fit.
- A distribution divides by the pool's units and panics exactly when a pool with listed providers has none. Such a pool
  can be reached from genesis in four messages. A removal leaves a pool without units exactly when its only provider
  asks for a fraction that rounds up to all of its units without paying out a whole side; over every run without such a
  removal, and without payouts of a whole depth, no distribution panics.
- Whatever transfers fail and in whatever order the maps are walked, each pool gives up exactly what was delivered on
  its behalf, and no subtraction underflows.
- A swap message followed by swapping its proceeds back never profits, over one hop or two.
- The documented law of liquidity adds is that adding and removing again never returns more of both assets. It is false
  of the code, by rounding alone. It fails if and only if one rounded quotient, the pool's units over the issued ones, is
  small enough against both depths; so it holds at every depth when that quotient was not rounded down, and one pool and
  add show the failure.
- The documented equivalence with swapping holds from both sides: what is paid back is what was not swapped and what an
  ordinary swap would have paid, to within one unit's worth, the solver's 3/2 and the rounding of the withdrawal.
- A swap is refused exactly when the balance to pay from and the exact fee together stay below the next whole token
  above the curve value, for every fee, amount, direction and debt. Without a fee that is one cross multiplication.
- Every message moves coins between the signer and the module account alone, by amounts stated from the depths, the units
  and the listed fee rates, and changes no other pool or provider.
- Withdrawals, provider amounts and pool rewards are the exact shares to within stated rounding: a reward against the sum
  of all weighted depths, an amount against the provider's own units, and both carried to what each address is paid.
- The policy counters and rates are closed forms of the block height over every run. At the end of its window a policy
  hands over the power of its start rate over its whole epochs, on top of the rate it started from.

Modelling assumptions:

- `sdk.Uint` is a natural number. A subtraction below zero is a failure, or is proved impossible. 256-bit overflow is
  not modelled.
- Fee rates lie in [0,1], the running rate is not negative, and a provider distribution rate is at most one. Message
  validation enforces the first and the last (`x/clp/types/msgs.go:657-681`, 614-626).
- A handler that returns an error or panics leaves the state unchanged. `Keeper.Deliver` restores it explicitly.
- The signer of a message is never the module account, and neither is a listed provider.
- Liabilities and custody are fields of the pool that no modelled step changes.
- Stores are maps. A block's provider lists name only providers, and results that need them complete say so. Iteration
  over a Go map visits the keys in an arbitrary order.
- A panic outside a message halts the chain. The methods that can panic return `ok`, false exactly then, and a run has
  no such step.
- The comment at `x/clp/keeper/calculations.go:575` calls the refusal of a swap impossible, before ratio shifting at
  least. Before ratio shifting it is impossible for pools without liabilities (`Swap.DebtFreeRefusal`) and not for others;
  `Swap.RefusedByRate` and `Swap.RefusedByDebt` give a refused swap of each kind.

## Model

| member | source | states |
|---|---|---|
| `Rational.IntSqrt` | x/clp/keeper/pureCalculation.go:54-57 | the floor of the square root, by its square bracketing the argument |
| `Rational.RatIntQuo` | x/clp/keeper/pureCalculation.go:46-52 | truncation toward zero, for both signs |
| `Rational.ApproxRatSquareRootIsFloorRoot` | x/clp/keeper/pureCalculation.go:54-57 | truncating before taking the integer root still gives the floor of the exact root |
| `Swap.SwapResultWithinCurve` | x/clp/keeper/calculations.go:222-265 | payment plus fee is the largest number of tokens y with (X+x)·y within x·Y scaled by the running rate, in both directions, and the fee is its own part of the exact value, truncated |
| `Swap.SwapOneMovesExactly` | x/clp/keeper/calculations.go:560-583 | a swap adds what was sent, removes what is paid, never empties the side it pays from, and changes nothing else |
| `Swap.CurveMonotone` | x/clp/keeper/calculations.go:253-265 | a payment allowed for some input is allowed for every larger input |
| `Swap.ReverseSwapNeverProfits` | x/clp/keeper/calculations.go:222-274 | swapping back the proceeds or part of them returns at most the amount sent, at any rate and any two fees, and is never refused from a pool that had a balance |
| `Swap.SwapKeepsDepthProduct` | x/clp/keeper/calculations.go:560-583 | the product of depths never falls when buying native, nor when selling it at rate zero |
| `Swap.RefusedIff` | x/clp/keeper/calculations.go:573-578 | a swap is refused if and only if the balance to pay from plus the exact fee is below the next whole token above the exact curve value, for any fee, direction, debts and amount, empty sides included |
| `Swap.RefusedWithinOneToken` | x/clp/keeper/calculations.go:573-578 | so it is refused whenever the curve value after the fee reaches the balance, and never when it is a whole token short |
| `Swap.RefusedWithoutFeeIff` | x/clp/keeper/calculations.go:573-578 | without a fee the refusal is exactly one cross multiplication of depths, amount, balance and rate, with any debts |
| `Swap.DebtFreeRefusal` | x/clp/keeper/calculations.go:575-578 | from a pool without liabilities only a sale of native whose amount times the rate reaches the native depth is refused, at any fee, and without a fee always then |
| `Swap.RefusedByRate` | x/clp/keeper/calculations.go:575-578 | a swap refused by the rate alone, from a pool without debts |
| `Swap.RefusedByDebtIff` | x/clp/keeper/calculations.go:573-578 | at rate zero and without a fee a sale of native is refused if and only if the amount times the external debt reaches the native depth times the external balance |
| `Swap.RefusedByDebt` | x/clp/keeper/calculations.go:575-578 | a swap refused by a debt alone, at rate zero |
| `AsymmetricAdd.FlooredRootBrackets` | x/clp/keeper/calculations.go:404-449 | the rounded quadratic formula lands at or below the positive root and within 3/2 of it |
| `AsymmetricAdd.ExternalRadicandFactored` | x/clp/keeper/calculations.go:404-435 | the 13-term polynomial under the root is a product of visibly non-negative factors |
| `AsymmetricAdd.ExternalRadicandNonNegative` | x/clp/keeper/calculations.go:400-403 | the external square-root argument is never negative |
| `AsymmetricAdd.ExternalRadicandIsDiscriminant` | x/clp/keeper/calculations.go:379-435 | that polynomial is the discriminant of the documented balance equation |
| `AsymmetricAdd.ExternalSwapAmountCorrect` | x/clp/keeper/calculations.go:379-449 | the amount fits in the deposit, does not overshoot, overshoots 3/2 later, and every solution of the documented equation lies in [s, s+3/2) |
| `AsymmetricAdd.NativeRadicandNonNegative` | x/clp/keeper/calculations.go:481-484 | the native square-root argument is never negative |
| `AsymmetricAdd.NativeRadicandIsDiscriminant` | x/clp/keeper/calculations.go:460-513 | it is the discriminant of the other balance equation |
| `AsymmetricAdd.NativeSwapAmountCorrect` | x/clp/keeper/calculations.go:460-525 | the same guarantee for a native-heavy deposit, an external amount of zero included |
| `PoolUnits.SymmetryStateByCrossProduct` | x/clp/keeper/calculations.go:193-220 | the classifier decides by exact cross multiplication, three exclusive outcomes |
| `PoolUnits.SwapAmountFits` | x/clp/keeper/calculations.go:148-168 | neither correction of the deposit underflows |
| `PoolUnits.CalculatePoolUnits` | x/clp/keeper/calculations.go:123-172 | total for every pool and deposit; refused exactly when a side of the pool and a side of the deposit are empty; units add up exactly when the pool is not empty or had no units |
| `PoolUnits.ProportionalAddIssues` | x/clp/keeper/calculations.go:145-181 | a proportional add swaps nothing and gets the largest whole number of units its part of either depth is worth |
| `PoolUnits.SymmetricAddNeverDilutes` | x/clp/keeper/calculations.go:174-181 | a proportional add lowers nobody's claim on either asset |
| `PoolUnits.SwappedSideClaims` | x/clp/keeper/calculations.go:148-168 | after an unbalanced add the newcomer claims what was kept of the deposit, to within one unit's worth and never more, and nobody's claim on that asset falls |
| `PoolUnits.ExternalAddIsWorthASwap` | docs/proposals/asymmetric-adds.md:116-135 | an external-heavy add earns, with one unit more, over what an ordinary swap of s would pay, and less than one of s+3/2 would, plus 3/2 at the final ratio |
| `PoolUnits.NativeAddIsWorthASwap` | docs/proposals/asymmetric-adds.md:116-135 | the same two bounds for a native-heavy add |
| `AddRemove.AddThenRemoveReturnsKept` | docs/proposals/asymmetric-adds.md:116-121 | an add removed again pays back, of each asset it did not fall short of, at most what was not swapped, half a token and depth+2 parts in 10^18 |
| `AddRemove.PaysMoreIff` | x/clp/keeper/calculations.go:79-109 | a withdrawal by units pays more than a given amount if and only if the rounded quotient of the units is at most the depth over that amount and a half, up to the ties |
| `AddRemove.PaysNearClaim` | x/clp/keeper/calculations.go:79-109 | it pays the exact claim, half a token and depth+2 parts in 10^18 either way |
| `AddRemove.MoreOfBothIff` | docs/proposals/asymmetric-adds.md:116-119 | for every add that earned units, more of both assets comes back if and only if that quotient is small enough against both depths |
| `AddRemove.NeverMoreOfBoth` | docs/proposals/asymmetric-adds.md:116-119 | never more of both assets back at any depth when the quotient was not rounded down, and then at most what was not swapped; and however it was rounded while the depth stays below 10^18/2 plus 10^18 per token swapped |
| `AddRemove.DustCanBeGained` | docs/proposals/asymmetric-adds.md:116-119 | rounded down, the law can fail: a pool and an add that return one unit more of each asset |
| `AddRemove.NativeAddThenRemoveIsASwap` | docs/proposals/asymmetric-adds.md:116-135 | a native-heavy add removed again pays what was not swapped and what swapping would have paid, bounded from both sides by one unit's worth, 3/2 at the final ratio and rounding |
| `AddRemove.ExternalAddThenRemoveIsASwap` | docs/proposals/asymmetric-adds.md:116-135 | the same for an external-heavy add |
| `SpotPrice.RoundTrip` | x/clp/keeper/pureCalculation.go:16-44 | decimal to rational and back is the identity if and only if the value fits in 315 bits |
| `SpotPrice.TruncatesTowardsZero` | x/clp/keeper/pureCalculation.go:27-44 | rational to decimal loses less than one unit of the last digit, toward zero |
| `SpotPrice.MultiplierIsQuotient` | x/clp/keeper/calculations.go:330-340 | the denomination multiplier is the quotient of the powers of ten, whichever is larger |
| `SpotPrice.NativePriceIs` | x/clp/keeper/calculations.go:290-340 | the exact price of native is the ratio of depths times one plus the running rate times the quotient of the powers of ten |
| `SpotPrice.ExternalPriceIs` | x/clp/keeper/calculations.go:290-340 | the price of the external asset likewise, divided by one plus the running rate |
| `SpotPrice.PricesOfPool` | x/clp/keeper/calculations.go:276-310 | what is stored for a pool are the 18 digits of those two prices at its depths, debts included, and zero where there is none |
| `SpotPrice.PriceMissingIff` | x/clp/keeper/calculations.go:290-310 | there is no price exactly when the depth is zero or the price needs more than 315 bits |
| `SpotPrice.ExactPricesAreReciprocal` | x/clp/keeper/calculations.go:276-310 | before truncation the native and external prices are reciprocal at every rate and any decimals |
| `SpotPrice.NoSwapBeatsSpot` | x/clp/keeper/calculations.go:222-310 | no swap, at any fee, pays better than the spot price of the asset sold |
| `SpotPrice.PricesAreConsistent` | x/clp/keeper/pmtp.go:74-86 | the stored prices multiply to at most one, errors stored as zero included |
| `SpotPrice.PriceKeeper.PolicyRun` | x/clp/keeper/pmtp.go:59-92 | every pool with known decimals is repriced, all others keep their prices, and stored prices stay consistent |
| `Withdrawal.WithdrawalSafe` | x/clp/keeper/calculations.go:27-75 | no divisor is zero, payments stay within the depths, burned units are the claimed ones rounded up, and 10000 basis points leave none |
| `Withdrawal.WithdrawalMonotone` | x/clp/keeper/calculations.go:27-75 | more basis points never pay less of either asset |
| `Withdrawal.ShareIsFair` | x/clp/keeper/calculations.go:53-54 | two chained rounded divisions give the exact share to within depth+2 parts in 10^18 |
| `Withdrawal.ClaimIsFair` | x/clp/keeper/calculations.go:51-52 | the units claimed are w ten-thousandths of the provider's, to within units+2 parts in 10^18 |
| `Withdrawal.WithdrawalIsFair` | x/clp/keeper/calculations.go:27-75 | all four divisions together pay the exact share truncated, give or take 4·depth+2 parts in 10^18 |
| `Withdrawal.UnitsWithdrawalSafe` | x/clp/keeper/calculations.go:79-109 | payments within the depths and exactly the requested units burned |
| `Withdrawal.UnitsWithdrawalIsFair` | x/clp/keeper/calculations.go:79-109 | payments are the exact shares to the nearest token, give or take depth+2 parts in 10^18 |
| `Withdrawal.AllUnitsPayAll` | x/clp/keeper/calculations.go:27-109 | removing every unit of a pool, by units or by 10000 basis points, pays out both depths exactly |
| `Withdrawal.LeavesNothingIff` | x/clp/keeper/calculations.go:51-75 | a removal by basis points leaves no units if and only if less than one unit would be left, or just one and 10000/w was rounded down |
| `Withdrawal.ThreeQuartersOfFour` | x/clp/keeper/calculations.go:51-75 | three quarters of four units are all of them |
| `Unlocks.UseConserves` | x/clp/keeper/rewards.go:243-258 | what is taken from the requests is exactly what was served |
| `Unlocks.UseRecordByRecord` | x/clp/keeper/rewards.go:243-258 | only usable requests shrink, heights stay, and a shortfall means every usable request is empty |
| `Unlocks.UseWithinWindow` | x/clp/keeper/rewards.go:243-258 | use never adds to a window of heights, and takes all of it from there if only it is usable |
| `Unlocks.UseIsFirstInFirstOut` | x/clp/keeper/rewards.go:243-258 | of the first requests, what is usable falls by what was asked for, as far as it goes, before any later one is touched |
| `Unlocks.PruneIsWindow` | x/clp/keeper/rewards.go:285-316 | pruning leaves exactly the units requested after the last lapsed height |
| `Unlocks.RequestIsRecorded` | x/clp/keeper/msg_server.go:272-307 | a request is accepted if and only if it and the live requests fit the units; it is recorded at its height and every live request stays |
| `Unlocks.CancelTakes` | x/clp/keeper/msg_server.go:48-77 | a cancellation takes its units from the live requests, and with a lock is refused if and only if there are fewer |
| `Unlocks.BurnTakes` | x/clp/keeper/msg_server.go:799-813 | burning takes its units from the requests that are due and none from those still waiting |
| `Unlocks.Prune` | x/clp/keeper/rewards.go:285-316 | what remains has neither lapsed nor run empty |
| `Unlocks.BurnSucceedsIff` | x/clp/keeper/rewards.go:235-262 | units can be burned if and only if nothing is locked or enough were requested in (h−L−C, h−L] |
| `Unlocks.RequestStaysCovered` | x/clp/keeper/msg_server.go:272-307 | after a request the records still sum to at most the provider's units |
| `Unlocks.CancelStaysCovered` | x/clp/keeper/msg_server.go:48-77 | so they do after a cancellation |
| `Unlocks.BurnStaysCovered` | x/clp/keeper/msg_server.go:799-813 | and after a removal, with or without a lock period |
| `Unlocks.RemovalsWereRequestedInTime` | x/clp/keeper/msg_server.go:904-929 | over every run, units removed at heights first..last were requested in (first−L−C, last−L] |
| `UnlockRecords.UseRecords` | x/clp/keeper/rewards.go:235-262 | the in-place loop over record pointers computes first-in first-out use |
| `UnlockRecords.KeepNonEmpty` | x/clp/keeper/rewards.go:264-279 | the kept records are the same pointers, without the empty ones |
| `UnlockRecords.PruneUnlockRecords` | x/clp/keeper/rewards.go:285-316 | the pruning loop computes the pruned values on distinct records |
| `UnlockRecords.BurnThroughSharedRecords` | x/clp/keeper/msg_server.go:799-813 | writes through the by-value copy reach the handler's copy, and the two stored versions differ only by empty records |
| `UnlockRecords.CancelThroughRecords` | x/clp/keeper/msg_server.go:48-77 | a cancellation over the records stores what the value function says |
| `UnlockRecords.RequestThroughRecords` | x/clp/keeper/msg_server.go:272-307 | so does an unlock request, its loop over earlier requests included |
| `LedgerInvariants.HandleKeepsSurplus` | x/clp/keeper/executors.go:13-231 | every message moves the module account exactly with the pools' records, for every denomination |
| `LedgerInvariants.HandleKeepsInvariant` | x/clp/keeper/invariants.go:89-118 | every message keeps unit totals, both sides of every pool, provider records and unlock coverage |
| `LedgerInvariants.TwoHopKeepsSurplus` | x/clp/keeper/msg_server.go:456-642 | the native leg between two external assets moves between pools without touching the bank |
| `LedgerInvariants.ProviderWithinPool` | x/clp/keeper/executors.go:151-195 | no provider owns more units than its pool has |
| `LedgerInvariants.DecommissionSurplus` | x/clp/keeper/msg_server.go:309-388 | winding a pool up raises the backing of both its assets by exactly what it held, custody included, less the refunds, and changes no other |
| `LedgerInvariants.DecommissionKeepsSurplusIff` | x/clp/keeper/msg_server.go:309-388 | it keeps the backing if and only if the refunds use the pool up, and never lowers it |
| `LedgerInvariants.SoleProviderUsesUp` | x/clp/keeper/msg_server.go:309-388 | a provider who owns all of a pool without debts or custody is refunded all of it |
| `Trades.SwapExchanges` | x/clp/keeper/msg_server.go:456-642 | a swap message exchanges exactly what the pools say, at least the minimum, with the signer alone |
| `Trades.SwapBackNeverProfits` | x/clp/keeper/msg_server.go:456-642 | a swap and a swap back leave the signer with no more than before, over one or two hops and any fees |
| `Trades.SwapSucceedsIff` | x/clp/keeper/msg_server.go:456-642 | from a backed ledger a swap succeeds if and only if the signer can pay, the hops are accepted and the minimum is met |
| `Trades.WithdrawnSucceedsIff` | x/clp/keeper/executors.go:151-195 | once its amounts are known, a removal from a backed ledger is refused only by the pool's balances, the depth guard or the lock |
| `Trades.RemoveLiquiditySucceedsIff` | x/clp/keeper/msg_server.go:880-1038 | from a backed ledger, debts included, a removal by basis points succeeds if and only if the fraction is valid, the provider has units unlocked in time, and the amounts fit below both depths and balances |
| `Trades.RemoveLiquidityUnitsSucceedsIff` | x/clp/keeper/msg_server.go:771-878 | the same equivalence for a removal by units |
| `Trades.AddNeverDilutes` | x/clp/keeper/msg_server.go:644-769 | an add lowers nobody's claim on the asset it brings too much of, and a proportional one lowers none |
| `Settlement.OneHopSettles` | x/clp/keeper/msg_server.go:456-642 | a swap to or from native pays the truncated curve value less the truncated fee at the sent asset's own listed rate, or the default one, and moves nothing but the signer's two balances, the module's and that pool |
| `Settlement.TwoHopsSettle` | x/clp/keeper/msg_server.go:456-642 | the same over two hops, both at the rate of the asset sent, the native between them moving from pool to pool |
| `Settlement.CreateSettles` | x/clp/keeper/msg_server.go:390-454 | exactly when a pool can be created; it then holds what its creator paid and issues as many units as native tokens |
| `Settlement.AddSettles` | x/clp/keeper/executors.go:61-127 | exactly when an add succeeds; the signer pays it, the pool gains it, and the signer alone gets the units issued at the rates listed for native and for the external asset |
| `Settlement.RemoveSettles` | x/clp/keeper/executors.go:151-195 | a removal by basis points pays the signer what the module account loses, takes it and the burned units from the pool, and keeps or deletes the signer's record alone |
| `Settlement.RemoveUnitsSettles` | x/clp/keeper/executors.go:151-195 | the same by units, burning exactly the units asked for |
| `Settlement.RemovalUsesRequests` | x/clp/keeper/msg_server.go:799-813 | the stored record has the burned units taken from its due requests and all waiting ones left |
| `Settlement.UnlockSettles` | x/clp/keeper/msg_server.go:272-307 | exactly when an unlock request succeeds, and that it records the units and changes nothing else |
| `Settlement.CancelSettles` | x/clp/keeper/msg_server.go:48-77 | exactly when a cancellation succeeds, and what it leaves |
| `Settlement.AddIsDeposit` | x/clp/keeper/executors.go:61-127 | to one provider an add is the deposit of the units issued, so that the runs of one provider are those of the ledger |
| `Settlement.RemovalIsAction` | x/clp/keeper/executors.go:151-195 | and a removal is the removal of the units it burns |
| `Settlement.UnlockIsAction` | x/clp/keeper/msg_server.go:272-307 | and unlock requests and cancellations are their own actions |
| `Payout.ProviderAmountIsFair` | x/clp/keeper/provider_distribution.go:250-258 | a provider's amount is its exact share rounded to the nearest token, up to one last digit per token |
| `Payout.CapWithinDepth` | x/clp/keeper/provider_distribution.go:205-207 | at rates up to one the cap never exceeds the depth, and up to one half never reaches it |
| `Payout.HigherRatesCanEmpty` | x/clp/keeper/provider_distribution.go:205-207 | above one half the cap on a pool of depth one is the whole depth |
| `Payout.FailingOneMore` | x/clp/keeper/provider_distribution.go:45-62 | one more failed address takes exactly its own entries off every pool and off the total |
| `Payout.Distribution.CollectProviderDistribution` | x/clp/keeper/provider_distribution.go:201-237 | panics exactly for listed providers of a pool without units; otherwise one pool's capped shares extend both maps by address, and the returned total is their sum |
| `Payout.Distribution.CollectProviderDistributions` | x/clp/keeper/provider_distribution.go:130-152 | panics exactly when some pool does; otherwise the three maps are three views of one list of amounts |
| `Payout.Distribution.TransferProviderDistributionGeneric` | x/clp/keeper/provider_distribution.go:45-62 | for every visiting order and failing set the pools' totals end as what was delivered, and each address has its due or nothing |
| `Rewards.PoolPartIsFair` | x/clp/keeper/rewards.go:206-211 | a pool's part is its exact weighted share truncated, up to one last digit per token |
| `Rewards.TuplesSumToMinted` | x/clp/keeper/rewards.go:165-193 | what is minted is the sum of the rewards |
| `Rewards.RewardedOnce` | x/clp/keeper/rewards.go:165-193 | no pool is rewarded twice |
| `Rewards.CollectPoolRewardTuples` | x/clp/keeper/rewards.go:165-193 | the loop, with its early exit, gives every pool its part cut at what remains |
| `Rewards.RewardsWithinBlock` | x/clp/keeper/rewards.go:165-193 | a block's rewards sum to at most its distribution |
| `Rewards.OwedWithinMinted` | x/clp/keeper/rewards.go:213-216 | amounts owed to providers and rewards left in pools never exceed what was minted |
| `Rewards.RewardKeeper.PayRewards` | x/clp/keeper/rewards.go:94-118 | the burn brings the module account back to where it was before minting, and supply keeps only what was delivered |
| `Rewards.RewardKeeper.DistributeDepthRewards` | x/clp/keeper/rewards.go:28-125 | panics exactly when it pays out for a pool with listed providers and no units; otherwise pools, bank and supply afterwards, in either mode and for every failing set |
| `Shares.TotalIsSum` | x/clp/keeper/rewards.go:218-233 | the total depth is the sum over all pools of native balance times the pool's own multiplier, or the default one |
| `Shares.RewardsAreFair` | x/clp/keeper/rewards.go:165-211 | every pool's reward is its part of the distribution by that sum, truncated, up to the stated digits, or all that the earlier pools left |
| `Shares.PoolKeepsReward` | x/clp/keeper/rewards.go:69-85 | each pool's balance grows by its own reward when it is not paid out, and by nothing when it is |
| `Shares.EntriesAreFair` | x/clp/keeper/provider_distribution.go:201-258 | each provider is owed its share of rate times depth by its own units, to the nearest token, up to the stated digits, or all that the earlier ones left under the cap |
| `Shares.OwedItsEntry` | x/clp/keeper/provider_distribution.go:201-237 | an address listed once is owed that one entry, and an unlisted one nothing |
| `Shares.PayoutReaches` | x/clp/keeper/provider_distribution.go:36-62 | after a payout every address has gained the sum of what each pool owes it, or nothing if its transfer failed |
| `Shares.RewardReaches` | x/clp/keeper/rewards.go:94-118 | the same for a paid-out reward, each pool's whole reward being shared |
| `LedgerDistribution.PoolsPayWhatIsDelivered` | x/clp/keeper/provider_distribution.go:36-62 | what pools give up together is what addresses receive together |
| `LedgerDistribution.PayoutKeepsSurplus` | x/clp/keeper/provider_distribution.go:36-43 | a payout block leaves every denomination's backing where it was |
| `LedgerDistribution.PayoutKeepsInvariantIff` | x/clp/keeper/provider_distribution.go:36-43 | it keeps the ledger invariant if and only if it delivers less than every pool's native depth |
| `LedgerDistribution.CollectedWithinCap` | x/clp/keeper/provider_distribution.go:201-237 | a pool's whole collection stays within its cap |
| `LedgerDistribution.RewardSurplus` | x/clp/keeper/rewards.go:69-118 | a distribution lowers the native backing by exactly the rewards credited to pools without a provider list |
| `LedgerDistribution.RewardsKeepSurplusIff` | x/clp/keeper/rewards.go:69-118 | it keeps the backing if and only if every rewarded pool has one, or nothing is paid out |
| `LedgerRun.NextKeepsSurplusIff` | x/clp/keeper/invariants.go:14-48 | a step keeps the backing of every denomination if and only if it is no paid-out reward to a pool without a provider list and no wind-up that leaves something over |
| `LedgerRun.RunKeepsSurplus` | x/clp/keeper/invariants.go:14-48 | so over every run of such steps the module account moves exactly with the records |
| `LedgerRun.RunStaysBacked` | x/clp/keeper/msg_server.go:309-388 | with decommissioning allowed it never holds less |
| `LedgerRun.CheckSurvivesDecommissionIff` | x/clp/keeper/invariants.go:14-48 | the balance check survives a wind-up if and only if the refunds are all the native the pool held |
| `LedgerRun.NextKeepsInvariantIff` | x/clp/keeper/invariants.go:89-118 | a step keeps the invariant if and only if it is no payout that delivers a pool's whole native depth |
| `LedgerRun.RunKeepsInvariant` | x/clp/keeper/invariants.go:89-118 | so over every run of such steps unit totals match, no pool has an empty side, and unlock requests stay within units |
| `LedgerRun.CapKeepsOpen` | x/clp/keeper/provider_distribution.go:205-207 | caps below every depth are enough for that |
| `LedgerRun.HalfKeepsOpen` | x/clp/keeper/provider_distribution.go:201-237 | payouts at up to half a pool per block never empty a side |
| `LedgerRun.ChecksHoldFromGenesis` | x/clp/abci.go:43-53 | both disabled checks hold in every state of every run from genesis whose steps meet those two conditions |
| `LedgerRun.CompleteListsKeepBacking` | x/clp/keeper/liquidityprovider.go:116-140 | with every provider's pool listed and units in every pool, a reward distribution keeps the backing |
| `LedgerRun.ChecksHoldWhileUnitsLast` | x/clp/abci.go:43-53 | with complete lists both checks hold in every state of every run from genesis without a removal of a pool's last unit, a payout of a whole depth or a wind-up that leaves something over, and every pool keeps its units |
| `LedgerRun.RemoveKeepsUnitsIff` | x/clp/keeper/msg_server.go:880-1038 | a removal by basis points leaves every pool its units if and only if it is not the only provider's request that rounds up to all of them |
| `LedgerRun.RemoveUnitsKeepsUnits` | x/clp/keeper/msg_server.go:771-878 | a removal by units never takes a pool's last unit, because paying out a whole depth is refused |
| `LedgerRun.NextKeepsUnitsIff` | x/clp/keeper/provider_distribution.go:250-258 | a step leaves every pool its units if and only if it is no such removal |
| `LedgerRun.UnitsMakePayable` | x/clp/keeper/provider_distribution.go:250-258 | with units in every pool no payout or reward divides by zero, whatever providers are listed |
| `LedgerRun.DistributionsNeverPanic` | x/clp/keeper/provider_distribution.go:250-258 | over every run from genesis without those removals and without emptied sides, no payout or reward divides by zero |
| `LedgerCases.PoolWithoutUnitsIsReachable` | x/clp/keeper/provider_distribution.go:250-258 | four messages from genesis that reach a pool with both sides, no units and a listed provider, so that the next payout divides by zero |
| `LedgerCases.RewardCanLoseBacking` | x/clp/keeper/rewards.go:69-118 | three messages and a block from genesis after which the module account is short by the whole distribution, for every size of it |
| `LedgerCases.PayoutCanEmptyPool` | x/clp/keeper/provider_distribution.go:201-237 | at every rate above one half, a run from genesis in which a payout empties a pool's native side and the next add breaks the unit totals |
| `WindUp.DecommissionSucceedsIff` | x/clp/keeper/msg_server.go:309-388 | from a backed ledger a pool is wound up if and only if it is below the threshold, every listed provider is listed once and has units, and the refunds together fit both balances |
| `WindUp.DecommissionSettles` | x/clp/keeper/msg_server.go:309-388 | each listed provider, and nobody else, is paid its own refund, and exactly the pool and those providers are deleted |
| `WindUp.WindUpLeavesDust` | x/clp/keeper/msg_server.go:309-388 | a run from genesis whose wind-up leaves one of each asset behind and fails the balance check |
| `WindUp.WindUpCanBeRefused` | x/clp/keeper/msg_server.go:340-346 | a run from genesis to a pool whose rounded refunds exceed its external balance, so that it cannot be wound up in either order of its providers |
| `LedgerRun.AddKeepsUnitsIff` | x/clp/keeper/calculations.go:130-144 | an add keeps the unit totals if and only if the pool has both sides or no units |
| `Keeper.Keeper.CreatePool` | x/clp/keeper/msg_server.go:390-454 | the handler computes the ledger function and fails exactly where it does |
| `Keeper.Keeper.Swap` | x/clp/keeper/msg_server.go:456-642 | the same for the swap handler, one and two hops |
| `Keeper.Keeper.AddLiquidity` | x/clp/keeper/executors.go:61-127 | the same for adds |
| `Keeper.Keeper.Withdraw` | x/clp/keeper/executors.go:151-195 | the same for the shared part of both removals, its unlock requests used through the shared records |
| `Keeper.Keeper.RemoveLiquidity` | x/clp/keeper/msg_server.go:880-1038 | the same for removal by basis points |
| `Keeper.Keeper.RemoveLiquidityUnits` | x/clp/keeper/msg_server.go:771-878 | the same for removal by units |
| `Keeper.Keeper.ChangeUnlocks` | x/clp/keeper/msg_server.go:272-307 | the same for unlock requests and cancellations, run on the records |
| `Keeper.Keeper.DecommissionPool` | x/clp/keeper/msg_server.go:309-388 | the refund loop winds a pool up as the ledger function says, failing if any refund fails |
| `Keeper.Keeper.Deliver` | x/clp/keeper/msg_server.go:456-642 | a delivered message changes the stores as its handler says or not at all |
| `KeeperBlocks.RemoveFuryFromPool` | x/clp/keeper/pool.go:137-144 | succeeds exactly when the balance covers the amount, and then takes only that |
| `KeeperBlocks.RemoveFromPools` | x/clp/keeper/provider_distribution.go:36-43 | in any order each pool loses its own total, or nothing when that exceeds its balance |
| `KeeperBlocks.PayoutFits` | x/clp/keeper/provider_distribution.go:201-237 | for rates up to one what a pool delivers fits in its balance, whichever transfers fail |
| `KeeperBlocks.ProviderDistributionPolicyRun` | x/clp/keeper/provider_distribution.go:15-62 | panics exactly for listed providers of a pool without units; otherwise collecting, transferring and removing together is one payout step of the ledger |
| `KeeperBlocks.RewardPolicyRun` | x/clp/abci.go:33-38 | likewise a reward distribution is one reward step, and supply grows by exactly what was minted and not burned, at most the block's distribution |
| `Pmtp.BlockKeepsCourse` | x/clp/abci.go:90-145 | each block keeps counters and rate on their closed form, recomputing exactly on the first N·L blocks |
| `Pmtp.UpdateKeepsCourse` | x/clp/keeper/msg_server.go:164-209 | an accepted policy change keeps them there |
| `Pmtp.ModifyKeepsCourse` | x/clp/keeper/msg_server.go:211-270 | so do manual rates and an early end |
| `Pmtp.RunStaysOnCourse` | x/clp/abci.go:90-145 | over every run of blocks and messages counters and rate are the stated functions of the height |
| `Pmtp.CountersInRange` | x/clp/keeper/pmtp_epoch.go:21-37 | neither counter goes negative, nor the block counter above an epoch |
| `Pmtp.RatesAgreeBetweenPolicies` | x/clp/keeper/msg_server.go:224-253 | outside a window the running rate is the inter-policy rate, across natural end, early end and manual changes |
| `Pmtp.PolicyFollows` | x/clp/abci.go:94-138 | over a window, whatever messages arrive short of an early end, the running rate is the power of the start rate over the blocks counted so far on top of the rate the policy started from |
| `Pmtp.PolicyHandsOver` | x/clp/abci.go:129-138 | at the last block both rates are that of the most blocks in whole epochs that fit the window, or the starting rate when there is none |
| `Pmtp.QuietBlocks` | x/clp/abci.go:90-138 | between windows any number of blocks changes neither rate |
| `Pmtp.EarlyEnd` | x/clp/keeper/msg_server.go:245-253 | an early end makes the running rate of that moment the inter-policy rate and closes the window |
| `Pmtp.ManualRates` | x/clp/keeper/msg_server.go:224-243 | between policies the rates given are stored, the running rate as both |
| `Pmtp.NewPolicyTakesEffect` | x/clp/keeper/msg_server.go:164-209 | an accepted policy runs its whole course: after its window both rates are its own |
| `Pmtp.AcceptedIff` | x/clp/keeper/msg_server.go:164-209 | exactly which policies are accepted, and that nothing but the policy is stored |
| `Pmtp.PmtpKeeper.BeginBlocker` | x/clp/abci.go:90-138 | the ordered reads and writes compute the block function |
| `Pmtp.PmtpKeeper.UpdatePmtpParams` | x/clp/keeper/msg_server.go:164-209 | refused while a policy runs or for a start not in the future, and otherwise stores the policy |
| `Pmtp.PmtpKeeper.ModifyPmtpRates` | x/clp/keeper/msg_server.go:211-270 | the stepwise writes compute the rate function |
| `LiquidityProtection.CalculateDiscountedSentAmount` | x/clp/keeper/calculations.go:602-606 | the fee never exceeds the amount, so the subtraction cannot underflow |
| `LiquidityProtection.ValueMonotone` | x/clp/keeper/calculations.go:312-315 | a larger amount never has a smaller rounded value |
| `LiquidityProtection.ValueIsNearest` | x/clp/keeper/calculations.go:312-315 | a value is price times amount, to the nearest token |
| `LiquidityProtection.DiscountIsNearest` | x/clp/keeper/calculations.go:602-606 | the discounted amount is the amount less the fee rate's part of it, to the nearest token |
| `LiquidityProtection.SaleNeverPanics` | x/clp/keeper/msg_server.go:486-500 | the guard on the whole amount makes the later update on the discounted amount panic-free |
| `LiquidityProtection.RunStaysWithinMax` | x/clp/keeper/liquidityprotection.go:29-57 | over every run with thresholds set within the maximum nothing panics and the threshold stays within it |
| `LiquidityProtection.BlockPanicsExactlyAboveMax` | x/clp/abci.go:68-88 | a block panics if and only if the active threshold exceeds its maximum |
| `LiquidityProtection.SettingAboveMaxPanics` | x/clp/keeper/msg_server.go:1072-1084 | from any state a threshold set by hand is accepted, and the next block panics if and only if it is above the maximum |
| `LiquidityProtection.StepIsExact` | x/clp/keeper/liquidityprotection.go:29-57 | the threshold after a block, a purchase, a sale or a refused sale, exactly |
| `LiquidityProtection.FreshThreshold` | x/clp/keeper/msg_server.go:1040-1056 | right after new active parameters a sale is accepted if and only if its value is within the maximum |
| `LiquidityProtection.BlocksRefill` | x/clp/abci.go:68-88 | blocks alone refill it by one part of the maximum each until it is full |
| `LiquidityProtection.SalesAreBounded` | x/clp/keeper/liquidityprotection.go:29-57 | value sold is at most the starting threshold, one replenishment per block, and value bought |
| `LiquidityProtection.ProtectionKeeper.MustUpdateLiquidityProtectionThreshold` | x/clp/keeper/liquidityprotection.go:29-57 | the stored threshold follows the update function and is untouched where the code panics |
| `LiquidityProtection.ProtectionKeeper.GuardedSale` | x/clp/keeper/msg_server.go:486-500 | a guarded sale either charges the threshold or is refused, never panics |
| `LiquidityProtection.ProtectionKeeper.BeginBlocker` | x/clp/abci.go:68-88 | replenishment up to the maximum without overflow |
| `Emission.CurrentPeriod` | x/clp/keeper/rewards.go:9-21 | the first period that contains the height, or none |
| `Emission.FindCurrentPeriod` | x/clp/keeper/rewards.go:9-21 | the loop finds that period |
| `Emission.MintedWithinAdded` | x/clp/abci.go:22-41 | supply growth plus the waiting accumulator never exceeds what blocks added |
| `Emission.GivenOutWithinAllocations` | x/clp/keeper/rewards.go:23-26 | the block distributions of a period sum to at most its allocation |
| `Emission.WholeAllocationAdded` | x/clp/keeper/rewards.go:23-26 | the blocks of a period add its whole allocation but for the remainder of the division |
| `Emission.DistributionHeights` | x/clp/abci.go:27 | distributions fall exactly on the start of the period and every interval after it |
| `Emission.AccumulatorIsExact` | x/clp/abci.go:29-41 | the accumulator holds the parts of the blocks since the last distribution, and each later distribution is of one interval's parts |
| `Emission.EmissionIsBounded` | x/clp/abci.go:22-41 | over every run supply grows by at most the initial accumulator plus the allocations of the periods visited |
| `Emission.DistributionWithinBlock` | x/clp/keeper/rewards.go:28-125 | a distribution adds to the supply at most what it was given, in either mode and for every failing set |
| `Emission.EndBlocker.Run` | x/clp/abci.go:22-41 | the accumulator and the exact supply after the reward part of a block, and exactly when it panics |
| `Emission.PayableNeverPanics` | x/clp/abci.go:22-41 | provider lists that no payout could divide by zero make no reward panic |

## Left out

- The removal queue: taken as disabled and empty, because its entries are written by handlers that return an error.
- Margin: liabilities and custody are carried by every pool but no margin step is modelled, nor the pool-health checks that depend on it.
- Liquidity protection inside the ledger: the guard and update are modelled as their own state machine and not as steps of `Ledger`.
- The asymmetric branch of `CalculateWithdrawal`: the only handler that passes an asymmetry rejects it.
- `PolicyStart`'s floating-point power and `Dec.Power`: the block rate and the power are abstract functions in `Pmtp`.
- The legacy queries, `calcPriceImpact`, `CalcFurySpotPrice` and the native price of the threshold asset: prices enter `LiquidityProtection` as parameters.
- Registry, permission and admin checks, events, logging, store encoding, pagination: each only narrows or reports what is modelled.
- `RewardPeriodNativeDistributed`: a running total kept for queries, with no effect on balances.
- Overflow of `sdk.Uint` and of `sdk.Dec` products: numbers are unbounded, except for the 315-bit limit of `RatToDec`.
- Parsing of decimal strings in messages: rates arrive as numbers, so parse errors are not modelled.
- The per-token fee list and the pool multipliers: maps instead of lists searched in order, which agree when no asset is listed twice.
- LedgerRun.ChecksHoldFromGenesis: says nothing of a run after a step that breaks a check; `LedgerRun.NextKeepsSurplusIff`, `LedgerRun.NextKeepsInvariantIff` and `LedgerInvariants.DecommissionSurplus` say which steps do and what they change.
