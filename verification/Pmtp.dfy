/**
 The ratio-shifting policy: a window of blocks during which the running rate is recomputed, driven by two decrementing
 counters. `power` stands for the decimal power of the block rate, and `startRate` for the block rate derived from the
 governance rate when a policy starts; both are left abstract.
 */
module Pmtp {
  import opened Options
  import opened Decimal

  datatype Policy = Policy(start: int, end: int, epochLength: int)

  datatype State = State(
    height: int,
    policy: Policy,
    blockRate: int,
    interRate: int,
    runningRate: int,
    epochCounter: int,
    blockCounter: int)
  {
    /** `IsInsidePmtpWindow`. */
    predicate InsideWindow() {
      policy.start <= height <= policy.end
    }
  }

  type Power = (int, int) -> int

  function Epochs(p: Policy): int
    requires 1 <= p.epochLength
  {
    (p.end - p.start + 1) / p.epochLength
  }

  // ---------------------------------------------------------------- one block, step by step

  /** `PolicyStart`, when the window opens and no policy is running. */
  function MaybeStart(s: State, startRate: int): State
    requires 1 <= s.policy.epochLength
  {
    if s.height == s.policy.start && s.epochCounter == 0 && s.blockCounter == 0
    then s.(blockRate := startRate, epochCounter := Epochs(s.policy), blockCounter := s.policy.epochLength)
    else s
  }

  /** Whether this block recomputes the running rate. */
  predicate Recomputes(s: State) {
    s.InsideWindow() && 0 < s.epochCounter
  }

  /** `PolicyCalculations` and the block counter. */
  function MaybeRecompute(s: State, power: Power): State {
    if Recomputes(s)
    then s.(runningRate := power(s.blockRate, s.height - s.policy.start + 1) - ONE + s.interRate,
      blockCounter := s.blockCounter - 1)
    else s
  }

  /** The epoch counter: a finished epoch starts the next, except at the very end. */
  function MaybeNextEpoch(s: State): State {
    if s.blockCounter == 0 && s.policy.start <= s.height < s.policy.end
    then s.(epochCounter := s.epochCounter - 1, blockCounter := s.policy.epochLength)
    else s
  }

  function MaybeEnd(s: State): State {
    if s.height == s.policy.end
    then s.(epochCounter := 0, blockCounter := 0, interRate := s.runningRate)
    else s
  }

  /** The policy part of `BeginBlocker` at the next height. */
  function BeginBlock(s: State, startRate: int, power: Power): State
    requires 1 <= s.policy.epochLength
  {
    var s0 := s.(height := s.height + 1);
    MaybeEnd(MaybeNextEpoch(MaybeRecompute(MaybeStart(s0, startRate), power)))
  }

  // ---------------------------------------------------------------- messages

  /** `UpdatePmtpParams`: refused while a policy is running or when the new one does not start in the future. */
  function UpdateParams(s: State, p: Policy): Option<State> {
    if s.InsideWindow() || p.start <= s.height || p.epochLength <= 0 || p.end < p.start then None
    else Some(s.(policy := p))
  }

  /** `ModifyPmtpRates`: rates only between policies, an early end only during one. */
  function ModifyRates(s: State, blockRate: Option<int>, runningRate: Option<int>, endPolicy: bool): State {
    var inside := s.InsideWindow();
    var s1 := if blockRate.Some? && !inside then s.(blockRate := blockRate.value) else s;
    var s2 := if runningRate.Some? && !inside then s1.(runningRate := runningRate.value,
      interRate := runningRate.value) else s1;
    if endPolicy && inside
    then s2.(policy := s2.policy.(end := s2.height), epochCounter := 0, blockCounter := 0, interRate := s2.runningRate)
    else s2
  }

  // ---------------------------------------------------------------- the closed form

  /** Blocks of the policy seen so far that belong to whole epochs. */
  function Counted(s: State): int
    requires 1 <= s.policy.epochLength
  {
    var t := s.height - s.policy.start + 1;
    var whole := Epochs(s.policy) * s.policy.epochLength;
    if t < whole then t else whole
  }

  function RateAfter(s: State, blocks: int, power: Power): int {
    if blocks <= 0 then s.interRate else power(s.blockRate, blocks) - ONE + s.interRate
  }

  /**
   Between policies both counters are zero and both rates agree; during one they follow a closed form of the height.
   */
  ghost predicate OnCourse(s: State, power: Power) {
    && 1 <= s.policy.epochLength && s.policy.start <= s.policy.end
    && if s.policy.start <= s.height < s.policy.end then
         var n, l, c := Epochs(s.policy), s.policy.epochLength, Counted(s);
         && s.epochCounter == n - c / l
         && s.blockCounter == l - c % l
         && s.runningRate == RateAfter(s, c, power)
       else
         s.epochCounter == 0 && s.blockCounter == 0 && s.runningRate == s.interRate
  }

  lemma BelowWhole(t: int, n: int, l: int)
    requires 0 <= t && 1 <= l
    ensures t < n * l <==> t / l < n
    ensures t == n * l ==> t / l == n && t % l == 0
  {
    var q, r := t / l, t % l;
    assert t == l * q + r;
    if q < n { assert l * (q + 1) <= l * n by { ProductMonotone(l, q + 1, n); } }
    if n <= q { assert l * n <= l * q by { ProductMonotone(l, n, q); } }
    if t == n * l { DivUnique(t, l, n, 0); }
  }

  // ---------------------------------------------------------------- one step keeps the course

  /** The state inside a block, before its own recomputation: the closed form for one block fewer. */
  ghost predicate Opened(s: State, c: int, power: Power) {
    && 1 <= s.policy.epochLength && 0 <= c <= Epochs(s.policy) * s.policy.epochLength
    && s.epochCounter == Epochs(s.policy) - c / s.policy.epochLength
    && s.blockCounter == s.policy.epochLength - c % s.policy.epochLength
    && s.runningRate == RateAfter(s, c, power)
  }

  lemma EpochsNonNegative(p: Policy)
    requires 1 <= p.epochLength && p.start <= p.end
    ensures 0 <= Epochs(p) && 0 <= Epochs(p) * p.epochLength <= p.end - p.start + 1
    ensures p.end - p.start + 1 < Epochs(p) * p.epochLength + p.epochLength
  {
    var x, l := p.end - p.start + 1, p.epochLength;
    assert x == l * (x / l) + x % l;
  }

  /** Entering a block inside the window, the counters stand at the blocks counted so far. */
  lemma StartOpens(s: State, startRate: int, power: Power)
    requires OnCourse(s, power) && s.policy.start <= s.height + 1 <= s.policy.end
    ensures var whole := Epochs(s.policy) * s.policy.epochLength;
      var c := if s.height + 1 - s.policy.start < whole then s.height + 1 - s.policy.start else whole;
      Opened(MaybeStart(s.(height := s.height + 1), startRate), c, power)
  {
    EpochsNonNegative(s.policy);
    if s.height + 1 == s.policy.start {
      DivUnique(0, s.policy.epochLength, 0, 0);
    }
  }

  /** The recomputation happens exactly while whole epochs remain. */
  lemma RecomputesWhileEpochsRemain(s: State, c: int, power: Power)
    requires Opened(s, c, power)
    ensures 0 < s.epochCounter <==> c < Epochs(s.policy) * s.policy.epochLength
  {
    BelowWhole(c, Epochs(s.policy), s.policy.epochLength);
  }

  lemma OneMoreBlock(s: State, c: int, power: Power)
    requires Opened(s, c, power) && s.policy.start <= s.height < s.policy.end
    requires c < Epochs(s.policy) * s.policy.epochLength && c == s.height - s.policy.start
    ensures Opened(MaybeNextEpoch(MaybeRecompute(s, power)), c + 1, power)
  {
    RecomputesWhileEpochsRemain(s, c, power);
    DivStep(c, s.policy.epochLength);
  }

  lemma NoMoreBlocks(s: State, c: int, power: Power)
    requires Opened(s, c, power) && c == Epochs(s.policy) * s.policy.epochLength
    ensures MaybeNextEpoch(MaybeRecompute(s, power)) == s
  {
    RecomputesWhileEpochsRemain(s, c, power);
    BelowWhole(c, Epochs(s.policy), s.policy.epochLength);
  }

  /**
   Every block keeps the state on course, and recomputes the rate exactly on the first `N * L` blocks of the window.
   */
  lemma BlockKeepsCourse(s: State, startRate: int, power: Power)
    requires OnCourse(s, power)
    ensures OnCourse(BeginBlock(s, startRate, power), power)
    ensures var h := s.height + 1;
      Recomputes(MaybeStart(s.(height := h), startRate)) <==>
        s.policy.start <= h <= s.policy.end && h - s.policy.start < Epochs(s.policy) * s.policy.epochLength
  {
    var s0 := s.(height := s.height + 1);
    if s.policy.start <= s0.height <= s.policy.end {
      EpochsNonNegative(s.policy);
      var whole := Epochs(s.policy) * s.policy.epochLength;
      var c := if s0.height - s.policy.start < whole then s0.height - s.policy.start else whole;
      StartOpens(s, startRate, power);
      var s1 := MaybeStart(s0, startRate);
      RecomputesWhileEpochsRemain(s1, c, power);
      if s0.height < s.policy.end {
        if c < whole { OneMoreBlock(s1, c, power); } else { NoMoreBlocks(s1, c, power); }
      }
    }
  }

  /** A new policy may be set only between policies, and only for the future: the state stays on course. */
  lemma UpdateKeepsCourse(s: State, p: Policy, power: Power)
    requires OnCourse(s, power) && UpdateParams(s, p).Some?
    ensures OnCourse(UpdateParams(s, p).value, power)
  {
  }

  /** Rates set by hand or a policy ended early leave the two rates equal and the counters at zero. */
  lemma ModifyKeepsCourse(s: State, blockRate: Option<int>, runningRate: Option<int>, endPolicy: bool, power: Power)
    requires OnCourse(s, power)
    ensures OnCourse(ModifyRates(s, blockRate, runningRate, endPolicy), power)
  {
  }

  // ---------------------------------------------------------------- runs

  datatype Event =
    | Block(startRate: int)
    | Update(policy: Policy)
    | Modify(blockRate: Option<int>, runningRate: Option<int>, endPolicy: bool)

  function Apply(s: State, e: Event, power: Power): State
    requires 1 <= s.policy.epochLength
  {
    match e
    case Block(startRate) => BeginBlock(s, startRate, power)
    case Update(p) => (match UpdateParams(s, p) case None => s case Some(t) => t)
    case Modify(blockRate, runningRate, endPolicy) => ModifyRates(s, blockRate, runningRate, endPolicy)
  }

  function Run(s: State, events: seq<Event>, power: Power): (t: State)
    requires 1 <= s.policy.epochLength
    ensures 1 <= t.policy.epochLength
  {
    if events == [] then s else Apply(Run(s, events[..|events| - 1], power), events[|events| - 1], power)
  }

  /**
   Over every run of blocks and policy messages that begins on course: between policies the counters are zero and the
   running rate is the inter-policy rate; during one, the counters and the rate are the stated functions of the height.
   */
  lemma {:induction false} RunStaysOnCourse(s: State, events: seq<Event>, power: Power)
    requires OnCourse(s, power)
    ensures OnCourse(Run(s, events, power), power)
  {
    if events != [] {
      var before, e := Run(s, events[..|events| - 1], power), events[|events| - 1];
      RunStaysOnCourse(s, events[..|events| - 1], power);
      match e
      case Block(startRate) => BlockKeepsCourse(before, startRate, power);
      case Update(p) => if UpdateParams(before, p).Some? { UpdateKeepsCourse(before, p, power); }
      case Modify(blockRate, runningRate, endPolicy) =>
        ModifyKeepsCourse(before, blockRate, runningRate, endPolicy, power);
    }
  }

  /** So neither counter ever goes below zero, and the block counter never exceeds an epoch. */
  lemma CountersInRange(s: State, events: seq<Event>, power: Power)
    requires OnCourse(s, power)
    ensures var t := Run(s, events, power); 0 <= t.epochCounter && 0 <= t.blockCounter <= t.policy.epochLength
  {
    RunStaysOnCourse(s, events, power);
    var t := Run(s, events, power);
    if t.policy.start <= t.height < t.policy.end {
      EpochsNonNegative(t.policy);
      BelowWhole(Counted(t), Epochs(t.policy), t.policy.epochLength);
    }
  }

  /**
   Rate hand-over: at every height outside a window, or at its last block, the running rate is the inter-policy rate.
   */
  lemma RatesAgreeBetweenPolicies(s: State, events: seq<Event>, power: Power)
    requires OnCourse(s, power)
    ensures var t := Run(s, events, power);
      !(t.policy.start <= t.height < t.policy.end) ==> t.runningRate == t.interRate
  {
    RunStaysOnCourse(s, events, power);
  }

  // ---------------------------------------------------------------- which rate is handed over

  /** The rate after `blocks` counted blocks of a policy that started from inter-policy rate `inter`. */
  function PolicyRate(startRate: int, inter: int, blocks: int, power: Power): int {
    if blocks <= 0 then inter else power(startRate, blocks) - ONE + inter
  }

  /** Outside a window a block changes nothing but the height. */
  lemma QuietBlock(s: State, startRate: int, power: Power)
    requires OnCourse(s, power) && !(s.policy.start <= s.height + 1 <= s.policy.end)
    ensures BeginBlock(s, startRate, power) == s.(height := s.height + 1)
  {
  }

  /** During a window a message does nothing, unless it ends the policy. */
  lemma QuietMessage(s: State, e: Event, power: Power)
    requires s.InsideWindow() && 1 <= s.policy.epochLength && !e.Block? && !EndsPolicy(e)
    ensures Apply(s, e, power) == s
  {
  }

  predicate EndsPolicy(e: Event) {
    e.Modify? && e.endPolicy
  }

  /** An early end makes the running rate the inter-policy rate, closes the window at this height and does no more. */
  lemma EarlyEnd(s: State, blockRate: Option<int>, runningRate: Option<int>)
    requires s.InsideWindow()
    ensures ModifyRates(s, blockRate, runningRate, true)
         == s.(policy := Policy(s.policy.start, s.height, s.policy.epochLength), epochCounter := 0, blockCounter := 0,
               interRate := s.runningRate)
  {
  }

  /** Between policies the given rates are stored, the running rate as both rates. */
  lemma ManualRates(s: State, blockRate: Option<int>, runningRate: Option<int>, endPolicy: bool)
    requires !s.InsideWindow()
    ensures var t := ModifyRates(s, blockRate, runningRate, endPolicy);
      && t == s.(blockRate := t.blockRate, runningRate := t.runningRate, interRate := t.interRate)
      && t.blockRate == (match blockRate case Some(r) => r case None => s.blockRate)
      && (match runningRate
          case Some(r) => t.runningRate == r == t.interRate
          case None => t.runningRate == s.runningRate && t.interRate == s.interRate)
  {
  }

  /** A policy at height `h` of its window, started at `startRate` from `inter`. */
  ghost predicate Follows(t: State, policy: Policy, h: int, startRate: int, inter: int, power: Power)
    requires 1 <= policy.epochLength
  {
    var whole, blocks := Epochs(policy) * policy.epochLength, h - policy.start + 1;
    && t.policy == policy && t.height == h && t.blockRate == startRate
    && t.runningRate == PolicyRate(startRate, inter, if blocks < whole then blocks else whole, power)
    && t.interRate == if h < policy.end then inter else t.runningRate
  }

  lemma FirstBlockFollows(s: State, startRate: int, power: Power)
    requires OnCourse(s, power) && s.height + 1 == s.policy.start
    ensures Follows(BeginBlock(s, startRate, power), s.policy, s.policy.start, startRate, s.interRate, power)
  {
    EpochsNonNegative(s.policy);
    BlockKeepsCourse(s, startRate, power);
    WindowBlock(s, startRate, power);
  }

  /** A block inside the window: the rate recomputed while whole epochs remain, and kept after that. */
  lemma WindowBlock(s: State, startRate: int, power: Power)
    requires OnCourse(s, power) && s.policy.start <= s.height + 1 <= s.policy.end
    ensures var t, h := BeginBlock(s, startRate, power), s.height + 1;
      var rate := if h == s.policy.start then startRate else s.blockRate;
      && t.policy == s.policy && t.height == h && t.blockRate == rate
      && t.runningRate == (if h - s.policy.start < Epochs(s.policy) * s.policy.epochLength
                           then power(rate, h - s.policy.start + 1) - ONE + s.interRate else s.runningRate)
      && t.interRate == if h == s.policy.end then t.runningRate else s.interRate
  {
    BlockKeepsCourse(s, startRate, power);
    EpochsNonNegative(s.policy);
    if s.policy.start <= s.height { CountersInWindow(s, power); }
  }

  lemma CountersInWindow(s: State, power: Power)
    requires OnCourse(s, power) && s.policy.start <= s.height < s.policy.end
    ensures 0 < s.blockCounter
  {
    EpochsNonNegative(s.policy);
    BelowWhole(Counted(s), Epochs(s.policy), s.policy.epochLength);
  }

  lemma NextBlockFollows(t: State, policy: Policy, h: int, startRate: int, inter: int, later: int, power: Power)
    requires OnCourse(t, power) && t.policy == policy && policy.start <= h < policy.end
    requires Follows(t, policy, h, startRate, inter, power)
    ensures Follows(BeginBlock(t, later, power), policy, h + 1, startRate, inter, power)
  {
    EpochsNonNegative(policy);
    WindowBlock(t, later, power);
  }

  function Blocks(events: seq<Event>): nat {
    if events == [] then 0 else Blocks(events[..|events| - 1]) + if events[|events| - 1].Block? then 1 else 0
  }

  /**
   A policy over its window, whatever messages arrive, as long as none ends it: the rate is that of the blocks counted
   so far, and the last block hands over the rate of all its whole epochs as the new inter-policy rate.
   */
  lemma {:induction false} PolicyFollows(s: State, events: seq<Event>, power: Power)
    requires OnCourse(s, power) && s.height + 1 == s.policy.start && events != [] && events[0].Block?
    requires (forall e | e in events :: !EndsPolicy(e)) && s.height + Blocks(events) <= s.policy.end
    ensures Follows(Run(s, events, power), s.policy, s.height + Blocks(events), events[0].startRate, s.interRate, power)
    ensures 1 <= Blocks(events)
  {
    var init, e := events[..|events| - 1], events[|events| - 1];
    if init == [] {
      assert events == [e] && Run(s, init, power) == s;
      FirstBlockFollows(s, e.startRate, power);
    } else {
      PolicyFollows(s, init, power);
      RunStaysOnCourse(s, init, power);
      var t := Run(s, init, power);
      assert e in events;
      if e.Block? {
        NextBlockFollows(t, s.policy, t.height, events[0].startRate, s.interRate, e.startRate, power);
      } else {
        QuietMessage(t, e, power);
      }
    }
  }

  /**
   So at the last block of its window both rates are the policy's own: the power of the start rate over `whole` blocks,
   all the whole epochs that fit the window, on top of the inter-policy rate it started from, or that rate alone when
   the window holds no whole epoch.
   */
  lemma PolicyHandsOver(s: State, events: seq<Event>, whole: int, power: Power)
    requires OnCourse(s, power) && s.height + 1 == s.policy.start && events != [] && events[0].Block?
    requires (forall e | e in events :: !EndsPolicy(e)) && s.height + Blocks(events) == s.policy.end
    requires WholeEpochs(s.policy, whole)
    ensures var t := Run(s, events, power);
      && t.height == s.policy.end && t.runningRate == t.interRate
      && t.interRate == if whole == 0 then s.interRate else power(events[0].startRate, whole) - ONE + s.interRate
  {
    EpochsAreWhole(s.policy, whole);
    PolicyFollows(s, events, power);
  }

  /** The largest number of blocks that is made of whole epochs and fits the window. */
  ghost predicate WholeEpochs(p: Policy, whole: int)
    requires 1 <= p.epochLength
  {
    whole % p.epochLength == 0 && whole <= p.end - p.start + 1 < whole + p.epochLength
  }

  lemma EpochsAreWhole(p: Policy, whole: int)
    requires 1 <= p.epochLength && p.start <= p.end && WholeEpochs(p, whole)
    ensures whole == Epochs(p) * p.epochLength && 0 <= whole
  {
    var x, l := p.end - p.start + 1, p.epochLength;
    assert whole == l * (whole / l);
    DivUnique(x, l, whole / l, x - whole);
    EpochsNonNegative(p);
  }

  /** Between windows blocks only pass the time, however many there are. */
  lemma {:induction false} QuietBlocks(s: State, events: seq<Event>, power: Power)
    requires OnCourse(s, power) && (forall e | e in events :: e.Block?)
    requires s.height + |events| < s.policy.start || s.policy.end <= s.height
    ensures Run(s, events, power) == s.(height := s.height + |events|)
  {
    if events != [] {
      var init := events[..|events| - 1];
      QuietBlocks(s, init, power);
      RunStaysOnCourse(s, init, power);
      assert events[|events| - 1] in events;
      QuietBlock(Run(s, init, power), events[|events| - 1].startRate, power);
    }
  }

  lemma RunOneMore(s: State, events: seq<Event>, e: Event, power: Power)
    requires 1 <= s.policy.epochLength
    ensures Run(s, events + [e], power) == Apply(Run(s, events, power), e, power)
  {
    assert (events + [e])[..|events|] == events;
  }

  lemma {:induction false} RunConcat(s: State, first: seq<Event>, second: seq<Event>, power: Power)
    requires 1 <= s.policy.epochLength
    ensures Run(s, first + second, power) == Run(Run(s, first, power), second, power)
    decreases |second|
  {
    if second == [] {
      assert first + second == first;
    } else {
      var init, e := second[..|second| - 1], second[|second| - 1];
      assert second == init + [e] && first + second == (first + init) + [e];
      RunConcat(s, first, init, power);
      RunOneMore(s, first + init, e, power);
      RunOneMore(Run(s, first, power), init, e, power);
    }
  }

  /**
   A policy set between two others is accepted exactly when it lies in the future and has an epoch length, and then runs
   its whole course: after the blocks before it and the events of its window, both rates are its own.
   */
  lemma NewPolicyTakesEffect(s: State, p: Policy, waiting: seq<Event>, events: seq<Event>, whole: int, power: Power)
    requires OnCourse(s, power) && !s.InsideWindow() && s.height < p.start <= p.end && 1 <= p.epochLength
    requires (forall e | e in waiting :: e.Block?) && s.height + |waiting| + 1 == p.start
    requires events != [] && events[0].Block? && (forall e | e in events :: !EndsPolicy(e))
    requires Blocks(events) == p.end - p.start + 1 && WholeEpochs(p, whole)
    ensures var t := Run(s, [Update(p)] + waiting + events, power);
      && t.policy == p && t.height == p.end && t.runningRate == t.interRate
      && t.interRate == if whole == 0 then s.interRate else power(events[0].startRate, whole) - ONE + s.interRate
  {
    var planned := s.(policy := p);
    assert [Update(p)][..0] == [] && Run(s, [], power) == s;
    assert Run(s, [Update(p)], power) == planned;
    UpdateKeepsCourse(s, p, power);
    QuietBlocks(planned, waiting, power);
    RunStaysOnCourse(planned, waiting, power);
    var opening := Run(planned, waiting, power);
    PolicyFollows(opening, events, power);
    PolicyHandsOver(opening, events, whole, power);
    RunConcat(s, [Update(p)], waiting, power);
    RunConcat(s, [Update(p)] + waiting, events, power);
  }

  /** No other policy is accepted. */
  lemma AcceptedIff(s: State, p: Policy)
    ensures UpdateParams(s, p).Some?
       <==> !s.InsideWindow() && s.height < p.start <= p.end && 1 <= p.epochLength
    ensures UpdateParams(s, p).Some? ==> UpdateParams(s, p).value == s.(policy := p)
  {
  }

  // ---------------------------------------------------------------- the stored counters

  class PmtpKeeper {
    var state: State

    constructor (s: State)
      ensures state == s
    {
      state := s;
    }

    method SetEpoch(epochCounter: int, blockCounter: int)
      modifies this
      ensures state == old(state).(epochCounter := epochCounter, blockCounter := blockCounter)
    {
      state := state.(epochCounter := epochCounter, blockCounter := blockCounter);
    }

    method DecrementEpochCounter()
      modifies this
      ensures state == old(state).(epochCounter := old(state).epochCounter - 1)
    {
      state := state.(epochCounter := state.epochCounter - 1);
    }

    method DecrementBlockCounter()
      modifies this
      ensures state == old(state).(blockCounter := old(state).blockCounter - 1)
    {
      state := state.(blockCounter := state.blockCounter - 1);
    }

    /** The policy part of `BeginBlocker`, in its order of reads and writes. */
    method BeginBlocker(startRate: int, power: Power)
      requires 1 <= state.policy.epochLength
      modifies this
      ensures state == BeginBlock(old(state), startRate, power)
    {
      state := state.(height := state.height + 1);
      var start, end, height := state.policy.start, state.policy.end, state.height;
      if height == start && state.epochCounter == 0 && state.blockCounter == 0 {
        state := state.(blockRate := startRate);
        SetEpoch((end - start + 1) / state.policy.epochLength, state.policy.epochLength);
      }
      var runningRate := state.runningRate;
      if height >= start && height <= end && state.epochCounter > 0 {
        runningRate := power(state.blockRate, height - start + 1) - ONE + state.interRate;
        state := state.(runningRate := runningRate);
        DecrementBlockCounter();
      }
      if state.blockCounter == 0 && height < end && height >= start {
        DecrementEpochCounter();
        SetEpoch(state.epochCounter, state.policy.epochLength);
      }
      if height == end {
        SetEpoch(0, 0);
        state := state.(interRate := runningRate);
      }
    }

    /** `UpdatePmtpParams`. */
    method UpdatePmtpParams(p: Policy) returns (ok: bool)
      modifies this
      ensures UpdateParams(old(state), p) == if ok then Some(state) else None
      ensures !ok ==> state == old(state)
    {
      if state.InsideWindow() || p.start <= state.height || p.epochLength <= 0 || p.end < p.start { return false; }
      state := state.(policy := p);
      return true;
    }

    /**
     `ModifyPmtpRates`: the rates are stored before the policy is ended, and an ended policy hands over the stored rate.
     */
    method ModifyPmtpRates(blockRate: Option<int>, runningRate: Option<int>, endPolicy: bool)
      modifies this
      ensures state == ModifyRates(old(state), blockRate, runningRate, endPolicy)
    {
      if blockRate.Some? && !state.InsideWindow() {
        state := state.(blockRate := blockRate.value);
      }
      if runningRate.Some? && !state.InsideWindow() {
        state := state.(runningRate := runningRate.value, interRate := runningRate.value);
      }
      if endPolicy && state.InsideWindow() {
        state := state.(policy := state.policy.(end := state.height));
        SetEpoch(0, 0);
        state := state.(interRate := state.runningRate);
      }
    }
  }
}
