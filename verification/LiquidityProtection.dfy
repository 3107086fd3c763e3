/**
 The cap on how much native value may be sold: a threshold spent by sales, refilled by purchases and by every block.
 */
module LiquidityProtection {
  import opened Options
  import opened Decimal

  datatype Protection = Protection(max: nat, epochLength: nat, active: bool, current: nat)

  /** `CalcFuryValue`. */
  function CalcFuryValue(amount: nat, price: nat): nat {
    RoundInt(Mul(price, FromInt(amount)))
  }

  /** What a seller pays in fees on the amount sent, rounded. */
  function FeeOn(sent: nat, feeRate: nat): nat {
    RoundInt(Mul(FromInt(sent), feeRate))
  }

  lemma FeeWithinSent(sent: nat, feeRate: nat)
    requires feeRate <= ONE
    ensures FeeOn(sent, feeRate) <= sent
  {
    MulAtMost(FromInt(sent), feeRate);
    ChopMonotone(Mul(FromInt(sent), feeRate), FromInt(sent));
    ChopExact(sent);
  }

  /** `CalculateDiscountedSentAmount`: the subtraction cannot go below zero at a fee rate of at most one. */
  function CalculateDiscountedSentAmount(sent: nat, feeRate: nat): (discounted: nat)
    requires feeRate <= ONE
    ensures discounted <= sent
  {
    FeeWithinSent(sent, feeRate);
    sent - FeeOn(sent, feeRate)
  }

  /** A value is the price times the amount, to the nearest token. */
  lemma ValueIsNearest(amount: nat, price: nat)
    ensures Near(CalcFuryValue(amount, price) * ONE, price * amount, HALF)
  {
    assert price * FromInt(amount) == price * amount * ONE;
    ChopExact(price * amount);
  }

  /** And what is left after the fee is the amount less the fee rate's part of it, to the nearest token. */
  lemma DiscountIsNearest(sent: nat, feeRate: nat)
    requires feeRate <= ONE
    ensures Near(CalculateDiscountedSentAmount(sent, feeRate) * ONE, sent * (ONE - feeRate), HALF)
  {
    assert FromInt(sent) * feeRate == sent * feeRate * ONE;
    ChopExact(sent * feeRate);
    assert sent * (ONE - feeRate) == sent * ONE - sent * feeRate;
  }

  lemma ValueMonotone(m: nat, n: nat, price: nat)
    requires m <= n
    ensures CalcFuryValue(m, price) <= CalcFuryValue(n, price)
  {
    MulMonotone(price, FromInt(m), FromInt(n));
    ChopMonotone(Mul(price, FromInt(m)), Mul(price, FromInt(n)));
  }

  /** `IsBlockedByLiquidityProtection`. */
  predicate IsBlocked(p: Protection, amount: nat, price: nat) {
    p.current < CalcFuryValue(amount, price)
  }

  /** Adding up to the maximum without overflowing; `None` where the source's subtraction would panic. */
  function Refilled(p: Protection, amount: nat): (res: Option<nat>)
    ensures res.None? <==> p.max < p.current
    ensures res.Some? ==> res.value == (if p.current + amount < p.max then p.current + amount else p.max)
  {
    if p.max < p.current then None
    else if p.max - p.current < amount then Some(p.max)
    else Some(p.current + amount)
  }

  /** `MustUpdateLiquidityProtectionThreshold`; `None` is its panic. */
  function MustUpdate(p: Protection, sellNative: bool, amount: nat, price: nat): Option<Protection> {
    if !p.active then Some(p)
    else
      var value := CalcFuryValue(amount, price);
      if sellNative then
        if p.current < value then None else Some(p.(current := p.current - value))
      else match Refilled(p, value)
        case None => None
        case Some(c) => Some(p.(current := c))
  }

  /** The threshold part of `BeginBlocker`; `None` is a panic, which would halt the chain. */
  function BeginBlock(p: Protection): Option<Protection>
    requires p.epochLength != 0
  {
    if !p.active then Some(p)
    else match Refilled(p, p.max / p.epochLength)
      case None => None
      case Some(c) => Some(p.(current := c))
  }

  /** A sale as the handlers make it: checked against the whole amount, then charged for the amount less its fee. */
  datatype Sale = Refused | Panicked | Sold(after: Protection)

  function Sell(p: Protection, sent: nat, price: nat, feeRate: nat): Sale
    requires feeRate <= ONE
  {
    if p.active && IsBlocked(p, sent, price) then Refused
    else match MustUpdate(p, true, CalculateDiscountedSentAmount(sent, feeRate), price)
      case None => Panicked
      case Some(q) => Sold(q)
  }

  /** The check on the whole amount is enough for the later update on the smaller one: a sale never panics. */
  lemma SaleNeverPanics(p: Protection, sent: nat, price: nat, feeRate: nat)
    requires feeRate <= ONE
    ensures Sell(p, sent, price, feeRate) != Panicked
  {
    ValueMonotone(CalculateDiscountedSentAmount(sent, feeRate), sent, price);
  }

  // ---------------------------------------------------------------- runs

  datatype Event =
    | Block
    | SellNative(sent: nat, price: nat, feeRate: nat)
    | BuyNative(amount: nat, price: nat)
    | UpdateParams(max: nat, epochLength: nat, active: bool)
    | ModifyRates(current: nat)

  /** Rates and epoch lengths are as message validation leaves them. */
  predicate Valid(e: Event) {
    match e
    case SellNative(_, _, feeRate) => feeRate <= ONE
    case UpdateParams(_, epochLength, _) => epochLength != 0
    case _ => true
  }

  /** The threshold after an event; `None` when the code panics. A refused sale changes nothing. */
  function Step(p: Protection, e: Event): Option<Protection>
    requires p.epochLength != 0 && Valid(e)
  {
    match e
    case Block => BeginBlock(p)
    case SellNative(sent, price, feeRate) =>
      (match Sell(p, sent, price, feeRate)
       case Refused => Some(p)
       case Panicked => None
       case Sold(q) => Some(q))
    case BuyNative(amount, price) => MustUpdate(p, false, amount, price)
    case UpdateParams(max, epochLength, active) => Some(Protection(max, epochLength, active, max))
    case ModifyRates(current) => Some(p.(current := current))
  }

  /** The whole run, or `None` as soon as something panics. */
  function Run(p: Protection, events: seq<Event>): (res: Option<Protection>)
    requires p.epochLength != 0 && forall e | e in events :: Valid(e)
    ensures res.Some? ==> res.value.epochLength != 0
  {
    if events == [] then Some(p)
    else match Run(p, events[..|events| - 1])
      case None => None
      case Some(q) => Step(q, events[|events| - 1])
  }

  /** An administrator's threshold fits under the maximum in force when it is set. */
  ghost predicate SetsWithinMax(p: Protection, events: seq<Event>)
    requires p.epochLength != 0 && forall e | e in events :: Valid(e)
  {
    forall i | 0 <= i < |events| && events[i].ModifyRates? ::
      var before := Run(p, events[..i]); before.Some? ==> events[i].current <= before.value.max
  }

  lemma StepStaysWithinMax(p: Protection, e: Event)
    requires p.epochLength != 0 && Valid(e) && p.current <= p.max && (e.ModifyRates? ==> e.current <= p.max)
    ensures Step(p, e).Some? && Step(p, e).value.current <= Step(p, e).value.max
  {
    if e.SellNative? { SaleNeverPanics(p, e.sent, e.price, e.feeRate); }
  }

  /**
   Over every run in which thresholds are set within the maximum, nothing panics and the threshold stays within it.
   */
  lemma {:induction false} RunStaysWithinMax(p: Protection, events: seq<Event>)
    requires p.epochLength != 0 && (forall e | e in events :: Valid(e)) && p.current <= p.max
    requires SetsWithinMax(p, events)
    ensures Run(p, events).Some? && Run(p, events).value.current <= Run(p, events).value.max
  {
    if events != [] {
      var init, e := events[..|events| - 1], events[|events| - 1];
      assert forall i | 0 <= i < |init| :: init[i] == events[i] && init[..i] == events[..i];
      RunStaysWithinMax(p, init);
      StepStaysWithinMax(Run(p, init).value, e);
    }
  }

  /** The premise is needed: an active threshold above its maximum makes the next block panic, and only that does. */
  lemma BlockPanicsExactlyAboveMax(p: Protection)
    requires p.epochLength != 0
    ensures BeginBlock(p).None? <==> p.active && p.max < p.current
  {
  }

  /** Set up, change the threshold by hand, go on to the next block. */
  function SetSteps(max: nat, epochLength: nat, current: nat): seq<Event> {
    [UpdateParams(max, epochLength, true), ModifyRates(current), Block]
  }

  /** A threshold set by hand is always accepted, and the next block panics exactly if it is above the maximum. */
  lemma SettingAboveMaxPanics(p: Protection, max: nat, epochLength: nat, current: nat)
    requires p.epochLength != 0 && epochLength != 0
    ensures Run(p, SetSteps(max, epochLength, current)[..2]).Some?
    ensures Run(p, SetSteps(max, epochLength, current)).None? <==> max < current
  {
    var steps := SetSteps(max, epochLength, current);
    var changed := Protection(max, epochLength, true, current);
    assert steps[..2][..1] == steps[..1] && steps[..1][..0] == [] && Run(p, []) == Some(p);
    assert Run(p, steps[..1]) == Some(Protection(max, epochLength, true, max));
    assert Run(p, steps[..2]) == Some(changed);
    BlockPanicsExactlyAboveMax(changed);
  }

  function Least(x: nat, y: nat): nat { if x < y then x else y }

  /** What each event does to an active threshold within its maximum: exactly the charge, the purchase or the refill. */
  lemma StepIsExact(p: Protection, e: Event)
    requires p.epochLength != 0 && Valid(e) && p.active && p.current <= p.max && !e.UpdateParams? && !e.ModifyRates?
    ensures Step(p, e).Some? && Step(p, e).value == p.(current := Step(p, e).value.current)
    ensures var current := Step(p, e).value.current;
      match e
      case Block => current == Least(p.current + p.max / p.epochLength, p.max)
      case BuyNative(amount, price) => current == Least(p.current + CalcFuryValue(amount, price), p.max)
      case SellNative(sent, price, feeRate) =>
        current == p.current - (if p.current < CalcFuryValue(sent, price) then 0
                                else CalcFuryValue(CalculateDiscountedSentAmount(sent, feeRate), price))
  {
    if e.SellNative? {
      SaleNeverPanics(p, e.sent, e.price, e.feeRate);
      ValueMonotone(CalculateDiscountedSentAmount(e.sent, e.feeRate), e.sent, e.price);
    }
  }

  lemma OneRefillMore(current: nat, n: nat, each: nat, max: nat)
    ensures Least(Least(current + n * each, max) + each, max) == Least(current + (n + 1) * each, max)
  {
    ProductOneMore(n, each);
  }

  /** Blocks alone refill the threshold by one part of the maximum each, until it is full. */
  lemma {:induction false} BlocksRefill(p: Protection, events: seq<Event>, each: nat)
    requires p.epochLength != 0 && p.active && p.current <= p.max && forall e | e in events :: e.Block?
    requires each == p.max / p.epochLength
    ensures Run(p, events) == Some(p.(current := Least(p.current + |events| * each, p.max)))
  {
    if events != [] {
      var init := events[..|events| - 1];
      BlocksRefill(p, init, each);
      assert events[|events| - 1] in events;
      StepIsExact(Run(p, init).value, Block);
      OneRefillMore(p.current, |init|, each, p.max);
    }
  }

  /** New active parameters open the whole maximum: a sale right after them is accepted exactly up to that value. */
  lemma FreshThreshold(p: Protection, max: nat, epochLength: nat, sent: nat, price: nat, feeRate: nat)
    requires p.epochLength != 0 && epochLength != 0 && feeRate <= ONE
    ensures Step(p, UpdateParams(max, epochLength, true)).Some?
    ensures var q := Step(p, UpdateParams(max, epochLength, true)).value;
      && q.max == max && q.epochLength == epochLength
      && (Sell(q, sent, price, feeRate).Sold? <==> CalcFuryValue(sent, price) <= max)
  {
    SaleNeverPanics(Protection(max, epochLength, true, max), sent, price, feeRate);
  }

  /** Switched off, nothing but the parameters' own messages changes the threshold or refuses a sale. */
  lemma InactiveIsStill(p: Protection, e: Event)
    requires p.epochLength != 0 && Valid(e) && !p.active && !e.UpdateParams? && !e.ModifyRates?
    ensures Step(p, e) == Some(p) && (e.SellNative? ==> Sell(p, e.sent, e.price, e.feeRate) == Sold(p))
  {
  }

  // ---------------------------------------------------------------- how much can be sold

  /** The value charged for the run's sales. */
  function ValueSold(p: Protection, events: seq<Event>): nat
    requires p.epochLength != 0 && forall e | e in events :: Valid(e)
  {
    if events == [] then 0
    else
      var init, e := events[..|events| - 1], events[|events| - 1];
      assert Valid(e);
      ValueSold(p, init) +
      if e.SellNative? && Run(p, init).Some? && Sell(Run(p, init).value, e.sent, e.price, e.feeRate).Sold?
      then CalcFuryValue(CalculateDiscountedSentAmount(e.sent, e.feeRate), e.price) else 0
  }

  function ValueBought(events: seq<Event>): nat {
    if events == [] then 0
    else
      var e := events[|events| - 1];
      ValueBought(events[..|events| - 1]) + if e.BuyNative? then CalcFuryValue(e.amount, e.price) else 0
  }

  function Blocks(events: seq<Event>): nat {
    if events == [] then 0
    else Blocks(events[..|events| - 1]) + if events[|events| - 1].Block? then 1 else 0
  }

  /** No change of parameters or threshold by an administrator. */
  predicate Trading(events: seq<Event>) {
    forall e | e in events :: !e.UpdateParams? && !e.ModifyRates?
  }

  /** One event's charge, purchase and replenishment account for the change of the threshold. */
  lemma StepAccounts(p: Protection, e: Event)
    requires p.epochLength != 0 && Valid(e) && p.active && p.current <= p.max && !e.UpdateParams? && !e.ModifyRates?
    ensures Step(p, e).Some?
    ensures var q := Step(p, e).value;
      var sold := if e.SellNative? && Sell(p, e.sent, e.price, e.feeRate).Sold?
                  then CalcFuryValue(CalculateDiscountedSentAmount(e.sent, e.feeRate), e.price) else 0;
      var bought := if e.BuyNative? then CalcFuryValue(e.amount, e.price) else 0;
      && q == p.(current := q.current) && q.current <= q.max
      && sold + q.current <= p.current + bought + (if e.Block? then p.max / p.epochLength else 0)
  {
    if e.SellNative? { SaleNeverPanics(p, e.sent, e.price, e.feeRate); }
  }

  function Replenished(events: seq<Event>, each: nat): nat {
    if events == [] then 0
    else Replenished(events[..|events| - 1], each) + if events[|events| - 1].Block? then each else 0
  }

  lemma {:induction false} ReplenishedPerBlock(events: seq<Event>, each: nat)
    ensures Replenished(events, each) == Blocks(events) * each
  {
    if events != [] {
      ReplenishedPerBlock(events[..|events| - 1], each);
      ProductOneMore(Blocks(events[..|events| - 1]), each);
    }
  }

  lemma {:induction false} SalesAccounted(p: Protection, events: seq<Event>, each: nat)
    requires p.epochLength != 0 && (forall e | e in events :: Valid(e)) && p.active && p.current <= p.max
    requires Trading(events)
    requires each == p.max / p.epochLength
    ensures Run(p, events).Some?
    ensures var q := Run(p, events).value;
      && q == p.(current := q.current) && q.current <= q.max
      && ValueSold(p, events) + q.current <= p.current + Replenished(events, each) + ValueBought(events)
  {
    if events != [] {
      var init, e := events[..|events| - 1], events[|events| - 1];
      SalesAccounted(p, init, each);
      assert Valid(e) && e in events;
      StepAccounts(Run(p, init).value, e);
    }
  }

  /**
   With active parameters left alone, what is sold is paid for: by the threshold at the start, one replenishment per
   block, and the value bought.
   */
  lemma SalesAreBounded(p: Protection, events: seq<Event>)
    requires p.epochLength != 0 && (forall e | e in events :: Valid(e)) && p.active && p.current <= p.max
    requires Trading(events)
    ensures Run(p, events).Some?
    ensures ValueSold(p, events) + Run(p, events).value.current
         <= p.current + Blocks(events) * (p.max / p.epochLength) + ValueBought(events)
  {
    SalesAccounted(p, events, p.max / p.epochLength);
    ReplenishedPerBlock(events, p.max / p.epochLength);
  }

  class ProtectionKeeper {
    var params: Protection

    constructor (p: Protection)
      ensures params == p
    {
      params := p;
    }

    /** `MustUpdateLiquidityProtectionThreshold`; it panics, and nothing is stored, when `ok` is false. */
    method MustUpdateLiquidityProtectionThreshold(sellNative: bool, amount: nat, price: nat) returns (ok: bool)
      modifies this
      ensures MustUpdate(old(params), sellNative, amount, price) == if ok then Some(params) else None
      ensures !ok ==> params == old(params)
    {
      if params.active {
        var nativeValue := CalcFuryValue(amount, price);
        var updated;
        if sellNative {
          if params.current < nativeValue { return false; }
          updated := params.current - nativeValue;
        } else {
          if params.max < params.current { return false; }
          updated := if params.max - params.current < nativeValue then params.max else params.current + nativeValue;
        }
        params := params.(current := updated);
      }
      return true;
    }

    /** The selling handler's use of the threshold: the guard, the trade, the update, which never panics. */
    method GuardedSale(sent: nat, price: nat, feeRate: nat) returns (ok: bool)
      requires feeRate <= ONE
      modifies this
      ensures Sell(old(params), sent, price, feeRate) == if ok then Sold(params) else Refused
      ensures !ok ==> params == old(params)
    {
      if params.active && IsBlocked(params, sent, price) { return false; }
      SaleNeverPanics(params, sent, price, feeRate);
      ok := MustUpdateLiquidityProtectionThreshold(true, CalculateDiscountedSentAmount(sent, feeRate), price);
    }

    /** The threshold part of `BeginBlocker`; it panics when `ok` is false. */
    method BeginBlocker() returns (ok: bool)
      requires params.epochLength != 0
      modifies this
      ensures BeginBlock(old(params)) == if ok then Some(params) else None
      ensures !ok ==> params == old(params)
    {
      if params.active {
        var replenishment := params.max / params.epochLength;
        if params.max < params.current { return false; }
        if params.max - params.current < replenishment {
          params := params.(current := params.max);
        } else {
          params := params.(current := params.current + replenishment);
        }
      }
      return true;
    }
  }
}
