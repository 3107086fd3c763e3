/**
 Time-locked withdrawal rights. A provider asks to unlock units, may use the request once the lock period has
 passed, and loses it when the cancel period that follows has run out.
 */
module Unlocks {
  import opened Options

  datatype Unlock = Unlock(height: int, units: nat)

  /** The units in requests made after height `lo` and up to height `hi`. */
  function UnitsIn(rs: seq<Unlock>, lo: int, hi: int): nat {
    if rs == [] then 0
    else (if lo < rs[0].height <= hi then rs[0].units else 0) + UnitsIn(rs[1..], lo, hi)
  }

  function Total(rs: seq<Unlock>): nat {
    if rs == [] then 0 else rs[0].units + Total(rs[1..])
  }

  /** A request is usable at height `h` once the lock period has passed; a cancellation may use any request. */
  predicate Usable(r: Unlock, anyState: bool, lock: nat, h: int) {
    anyState || r.height + lock <= h
  }

  /** A request lapses when the cancel period is over as well. */
  predicate Lapsed(r: Unlock, lock: nat, cancel: nat, h: int) {
    h >= r.height + lock + cancel
  }

  /** `PruneUnlockRecords`. */
  function Prune(rs: seq<Unlock>, lock: nat, cancel: nat, h: int): (kept: seq<Unlock>)
    ensures forall i | 0 <= i < |kept| :: !Lapsed(kept[i], lock, cancel, h) && kept[i].units != 0
  {
    if rs == [] then []
    else
      var rest := Prune(rs[1..], lock, cancel, h);
      if Lapsed(rs[0], lock, cancel, h) || rs[0].units == 0 then rest else [rs[0]] + rest
  }

  /** The second loop of `UseUnlockedLiquidity`: drops used-up requests. */
  function DropEmpty(rs: seq<Unlock>): seq<Unlock> {
    if rs == [] then []
    else if rs[0].units == 0 then DropEmpty(rs[1..])
    else [rs[0]] + DropEmpty(rs[1..])
  }

  /** The first loop of `UseUnlockedLiquidity`: what is left unserved, and the requests after first-in first-out use. */
  function Use(rs: seq<Unlock>, units: nat, anyState: bool, lock: nat, h: int): (res: (nat, seq<Unlock>))
    ensures res.0 <= units && |res.1| == |rs|
  {
    if rs == [] then (units, [])
    else if !Usable(rs[0], anyState, lock, h) then
      var (left, rest) := Use(rs[1..], units, anyState, lock, h);
      (left, [rs[0]] + rest)
    else if units > rs[0].units then
      var (left, rest) := Use(rs[1..], units - rs[0].units, anyState, lock, h);
      (left, [rs[0].(units := 0)] + rest)
    else
      (0, [rs[0].(units := rs[0].units - units)] + rs[1..])
  }

  // ---------------------------------------------------------------- accounting

  /** What is taken from the requests is exactly what was served. */
  lemma {:induction false} UseConserves(rs: seq<Unlock>, units: nat, anyState: bool, lock: nat, h: int)
    ensures var (left, after) := Use(rs, units, anyState, lock, h); Total(after) + (units - left) == Total(rs)
  {
    if rs != [] {
      if !Usable(rs[0], anyState, lock, h) {
        UseConserves(rs[1..], units, anyState, lock, h);
      } else if units > rs[0].units {
        UseConserves(rs[1..], units - rs[0].units, anyState, lock, h);
      }
    }
  }

  /**
   Record by record: heights stay, units only fall, and only where the request is usable; and units are left unserved
   only when every usable request has been emptied.
   */
  lemma {:induction false} UseRecordByRecord(rs: seq<Unlock>, units: nat, anyState: bool, lock: nat, h: int, i: nat)
    requires i < |rs|
    ensures var (left, after) := Use(rs, units, anyState, lock, h);
      && after[i].height == rs[i].height && after[i].units <= rs[i].units
      && (after[i] != rs[i] ==> Usable(rs[i], anyState, lock, h))
      && (0 < left && Usable(rs[i], anyState, lock, h) ==> after[i].units == 0)
  {
    if 0 < i {
      assert rs[i] == rs[1..][i - 1];
      UseRecordByRecord(rs[1..], units, anyState, lock, h, i - 1);
      if rs[0].units < units { UseRecordByRecord(rs[1..], units - rs[0].units, anyState, lock, h, i - 1); }
    }
  }

  /** Units in a window of heights never grow by use, and fall by all that was served if only that window was usable. */
  lemma {:induction false} UseWithinWindow(rs: seq<Unlock>, units: nat, anyState: bool, lock: nat, h: int, lo: int,
                                           hi: int)
    ensures var (left, after) := Use(rs, units, anyState, lock, h);
      && UnitsIn(after, lo, hi) <= UnitsIn(rs, lo, hi)
      && ((forall i | 0 <= i < |rs| :: Usable(rs[i], anyState, lock, h) ==> lo < rs[i].height <= hi)
          ==> UnitsIn(after, lo, hi) + (units - left) == UnitsIn(rs, lo, hi))
  {
    if rs != [] {
      var tail := rs[1..];
      assert forall i | 0 <= i < |tail| :: tail[i] == rs[i + 1];
      if !Usable(rs[0], anyState, lock, h) {
        UseWithinWindow(tail, units, anyState, lock, h, lo, hi);
      } else if units > rs[0].units {
        UseWithinWindow(tail, units - rs[0].units, anyState, lock, h, lo, hi);
      }
    }
  }

  lemma {:induction false} PruneShrinks(rs: seq<Unlock>, lock: nat, cancel: nat, h: int, lo: int, hi: int)
    ensures Total(Prune(rs, lock, cancel, h)) <= Total(rs)
    ensures UnitsIn(Prune(rs, lock, cancel, h), lo, hi) <= UnitsIn(rs, lo, hi)
  {
    if rs != [] { PruneShrinks(rs[1..], lock, cancel, h, lo, hi); }
  }

  lemma {:induction false} DropEmptyKeeps(rs: seq<Unlock>, lo: int, hi: int)
    ensures Total(DropEmpty(rs)) == Total(rs) && UnitsIn(DropEmpty(rs), lo, hi) == UnitsIn(rs, lo, hi)
  {
    if rs != [] { DropEmptyKeeps(rs[1..], lo, hi); }
  }

  lemma {:induction false} AppendTotals(rs: seq<Unlock>, r: Unlock, lo: int, hi: int)
    ensures Total(rs + [r]) == Total(rs) + r.units
    ensures UnitsIn(rs + [r], lo, hi) == UnitsIn(rs, lo, hi) + (if lo < r.height <= hi then r.units else 0)
  {
    if rs != [] {
      assert (rs + [r])[1..] == rs[1..] + [r];
      AppendTotals(rs[1..], r, lo, hi);
    }
  }

  // ---------------------------------------------------------------- one provider over a run of messages

  datatype Provider = Provider(units: nat, unlocks: seq<Unlock>)

  datatype Params = Params(lock: nat, cancel: nat)

  /** The unlock part of a message: `None` when `UseUnlockedLiquidity` refuses. */
  function UseUnlocked(p: Provider, units: nat, anyState: bool, lock: nat, h: int): Option<Provider> {
    var (left, after) := Use(p.unlocks, units, anyState, lock, h);
    if lock != 0 && left != 0 then None else Some(p.(unlocks := after))
  }

  function Pruned(p: Provider, params: Params, h: int): Provider {
    p.(unlocks := Prune(p.unlocks, params.lock, params.cancel, h))
  }

  /** `UnlockLiquidity`. */
  function RequestUnlock(p: Provider, n: nat, params: Params, h: int): Option<Provider> {
    var q := Pruned(p, params, h);
    if Total(q.unlocks) + n > q.units then None
    else Some(q.(unlocks := q.unlocks + [Unlock(h, n)]))
  }

  /** `CancelUnlockLiquidity`. */
  function CancelUnlock(p: Provider, n: nat, params: Params, h: int): Option<Provider> {
    match UseUnlocked(Pruned(p, params, h), n, true, params.lock, h)
    case None => None
    case Some(q) => Some(q.(unlocks := DropEmpty(q.unlocks)))
  }

  /**
   The provider after burning `n` units. The requests were changed through pointers shared with the handler's
   copy of the provider, and that copy is what is stored last: the used-up requests are still in it, empty.
   */
  function BurnUnits(p: Provider, n: nat, params: Params, h: int): Option<Provider>
    requires n <= p.units
  {
    match UseUnlocked(Pruned(p, params, h), n, false, params.lock, h)
    case None => None
    case Some(q) => Some(q.(units := p.units - n))
  }

  /** Pruning cuts a window of heights at the live requests, and removes nothing from what is left of it. */
  lemma {:induction false} PruneIsWindow(rs: seq<Unlock>, lock: nat, cancel: nat, h: int, lo: int, hi: int)
    ensures UnitsIn(Prune(rs, lock, cancel, h), lo, hi) == UnitsIn(rs, Later(lo, h - lock - cancel), hi)
  {
    if rs != [] { PruneIsWindow(rs[1..], lock, cancel, h, lo, hi); }
  }

  function Later(x: int, y: int): int { if x < y then y else x }

  /** What is left unserved is what the usable requests fall short by. */
  lemma {:induction false} UseFallsShortBy(rs: seq<Unlock>, n: nat, lock: nat, h: int, lo: int)
    requires forall i | 0 <= i < |rs| :: lo < rs[i].height
    ensures var usable := UnitsIn(rs, lo, h - lock);
      Use(rs, n, false, lock, h).0 == if n <= usable then 0 else n - usable
  {
    if rs != [] {
      var tail := rs[1..];
      assert forall i | 0 <= i < |tail| :: tail[i] == rs[i + 1];
      UseFallsShortBy(tail, n, lock, h, lo);
      if n > rs[0].units { UseFallsShortBy(tail, n - rs[0].units, lock, h, lo); }
    }
  }

  /** `n` units were requested in `(h - L - C, h - L]` and not used since, or nothing is locked. */
  predicate UnlockedInTime(p: Provider, n: nat, params: Params, h: int) {
    params.lock == 0 || n <= UnitsIn(p.unlocks, h - params.lock - params.cancel, h - params.lock)
  }

  /** Units can be burned at height `h` exactly when they were unlocked in time. */
  lemma BurnSucceedsIff(p: Provider, n: nat, params: Params, h: int)
    requires n <= p.units
    ensures BurnUnits(p, n, params, h).Some? <==> UnlockedInTime(p, n, params, h)
  {
    PruneIsWindow(p.unlocks, params.lock, params.cancel, h, h - params.lock - params.cancel, h - params.lock);
    UseFallsShortBy(Pruned(p, params, h).unlocks, n, params.lock, h, h - params.lock - params.cancel);
  }

  // ---------------------------------------------------------------- what each message does to the requests

  function LeftOf(units: nat, n: nat): nat { if units <= n then 0 else units - n }

  function UsableUnits(rs: seq<Unlock>, anyState: bool, lock: nat, h: int): nat {
    if rs == [] then 0
    else (if Usable(rs[0], anyState, lock, h) then rs[0].units else 0) + UsableUnits(rs[1..], anyState, lock, h)
  }

  /** First in, first out: of the first `i` requests, what is usable falls by what is asked for, as far as it goes. */
  lemma {:induction false} UseIsFirstInFirstOut(rs: seq<Unlock>, n: nat, anyState: bool, lock: nat, h: int, i: nat)
    requires i <= |rs|
    ensures UsableUnits(Use(rs, n, anyState, lock, h).1[..i], anyState, lock, h)
         == LeftOf(UsableUnits(rs[..i], anyState, lock, h), n)
  {
    var after := Use(rs, n, anyState, lock, h).1;
    if i != 0 {
      assert rs[..i][1..] == rs[1..][..i - 1] && after[..i][1..] == after[1..][..i - 1];
      if !Usable(rs[0], anyState, lock, h) {
        UseIsFirstInFirstOut(rs[1..], n, anyState, lock, h, i - 1);
      } else if n > rs[0].units {
        UseIsFirstInFirstOut(rs[1..], n - rs[0].units, anyState, lock, h, i - 1);
      }
    }
  }

  /** Requests still waiting are not touched. */
  lemma {:induction false} UseKeepsWaiting(rs: seq<Unlock>, n: nat, lock: nat, h: int, lo: int, hi: int)
    requires h - lock <= lo
    ensures UnitsIn(Use(rs, n, false, lock, h).1, lo, hi) == UnitsIn(rs, lo, hi)
  {
    if rs != [] {
      UseKeepsWaiting(rs[1..], n, lock, h, lo, hi);
      if n > rs[0].units { UseKeepsWaiting(rs[1..], n - rs[0].units, lock, h, lo, hi); }
    }
  }

  lemma {:induction false} AllWithin(rs: seq<Unlock>, lo: int, hi: int)
    requires forall i | 0 <= i < |rs| :: lo < rs[i].height <= hi
    ensures UnitsIn(rs, lo, hi) == Total(rs) == UsableUnits(rs, true, 0, 0)
  {
    if rs != [] {
      assert forall i | 0 <= i < |rs[1..]| :: rs[1..][i] == rs[i + 1];
      AllWithin(rs[1..], lo, hi);
    }
  }

  /**
   A request is accepted exactly when the live requests and it fit the provider's units. It is recorded at its height;
   every live request stays as it was.
   */
  lemma RequestIsRecorded(p: Provider, n: nat, params: Params, h: int, lo: int, hi: int)
    requires NotAhead(p.unlocks, h)
    ensures var live := h - params.lock - params.cancel;
      && (RequestUnlock(p, n, params, h).Some? <==> UnitsIn(p.unlocks, live, h) + n <= p.units)
      && (RequestUnlock(p, n, params, h).Some? ==>
            var q := RequestUnlock(p, n, params, h).value;
            && q.units == p.units
            && UnitsIn(q.unlocks, lo, hi)
               == UnitsIn(p.unlocks, Later(lo, live), hi) + (if lo < h <= hi then n else 0))
  {
    var rs := Pruned(p, params, h).unlocks;
    LiveTotal(p, params, h);
    PruneIsWindow(p.unlocks, params.lock, params.cancel, h, lo, hi);
    AppendTotals(rs, Unlock(h, n), lo, hi);
  }

  lemma LiveTotal(p: Provider, params: Params, h: int)
    requires NotAhead(p.unlocks, h)
    ensures var rs, live := Pruned(p, params, h).unlocks, h - params.lock - params.cancel;
      && (forall i | 0 <= i < |rs| :: live < rs[i].height <= h)
      && Total(rs) == UnitsIn(rs, live, h) == UnitsIn(p.unlocks, live, h) == UsableUnits(rs, true, 0, 0)
  {
    var rs, live := Pruned(p, params, h).unlocks, h - params.lock - params.cancel;
    PruneSubset(p.unlocks, params.lock, params.cancel, h);
    forall i | 0 <= i < |rs| ensures live < rs[i].height <= h { assert rs[i] in rs; }
    AllWithin(rs, live, h);
    PruneIsWindow(p.unlocks, params.lock, params.cancel, h, live, h);
  }

  /**
   A cancellation takes what it asks for from the live requests, or all there is. With a lock period it is refused
   exactly when there is less.
   */
  lemma CancelTakes(p: Provider, n: nat, params: Params, h: int)
    requires NotAhead(p.unlocks, h)
    ensures var live := h - params.lock - params.cancel;
      && (CancelUnlock(p, n, params, h).Some? <==> params.lock == 0 || n <= UnitsIn(p.unlocks, live, h))
      && (CancelUnlock(p, n, params, h).Some? ==>
            var q := CancelUnlock(p, n, params, h).value;
            q.units == p.units && Total(q.unlocks) == LeftOf(UnitsIn(p.unlocks, live, h), n))
  {
    var rs := Pruned(p, params, h).unlocks;
    LiveTotal(p, params, h);
    var (left, after) := Use(rs, n, true, params.lock, h);
    UseIsFirstInFirstOut(rs, n, true, params.lock, h, |rs|);
    assert rs[..|rs|] == rs && after[..|rs|] == after;
    AnyUsable(rs, params.lock, h);
    AnyUsable(after, params.lock, h);
    UseConserves(rs, n, true, params.lock, h);
    DropEmptyKeeps(after, 0, 0);
  }

  lemma {:induction false} AnyUsable(rs: seq<Unlock>, lock: nat, h: int)
    ensures UsableUnits(rs, true, lock, h) == Total(rs)
  {
    if rs != [] { AnyUsable(rs[1..], lock, h); }
  }

  /** Burning takes its units from the requests whose lock has passed and none from those still waiting. */
  lemma BurnTakes(p: Provider, n: nat, params: Params, h: int, lo: int, hi: int)
    requires n <= p.units && BurnUnits(p, n, params, h).Some? && h - params.lock <= lo
    ensures var live, due := h - params.lock - params.cancel, h - params.lock;
      var q := BurnUnits(p, n, params, h).value;
      && q.units == p.units - n
      && UnitsIn(q.unlocks, live, due) == LeftOf(UnitsIn(p.unlocks, live, due), n)
      && UnitsIn(q.unlocks, lo, hi) == UnitsIn(p.unlocks, lo, hi)
  {
    var live, due := h - params.lock - params.cancel, h - params.lock;
    var rs := Pruned(p, params, h).unlocks;
    PruneIsWindow(p.unlocks, params.lock, params.cancel, h, live, due);
    PruneIsWindow(p.unlocks, params.lock, params.cancel, h, lo, hi);
    UseWithinWindow(rs, n, false, params.lock, h, live, due);
    UseFallsShortBy(rs, n, params.lock, h, live);
    UseKeepsWaiting(rs, n, params.lock, h, lo, hi);
  }

  /** Requests never exceed the provider's units, and none was made in the future. */
  ghost predicate Covered(p: Provider, h: int) {
    && Total(p.unlocks) <= p.units
    && NotAhead(p.unlocks, h)
  }

  ghost predicate NotAhead(rs: seq<Unlock>, h: int) {
    forall r | r in rs :: r.height <= h
  }

  lemma PrunedStaysCovered(p: Provider, params: Params, h: int)
    requires Covered(p, h)
    ensures Covered(Pruned(p, params, h), h)
  {
    PruneShrinks(p.unlocks, params.lock, params.cancel, h, 0, 0);
    PruneSubset(p.unlocks, params.lock, params.cancel, h);
  }

  lemma {:induction false} PruneSubset(rs: seq<Unlock>, lock: nat, cancel: nat, h: int)
    ensures forall r | r in Prune(rs, lock, cancel, h) :: r in rs
  {
    if rs != [] { PruneSubset(rs[1..], lock, cancel, h); }
  }

  lemma {:induction false} DropEmptySubset(rs: seq<Unlock>)
    ensures forall r | r in DropEmpty(rs) :: r in rs
  {
    if rs != [] { DropEmptySubset(rs[1..]); }
  }

  lemma UseNotAhead(rs: seq<Unlock>, n: nat, anyState: bool, lock: nat, h: int)
    requires NotAhead(rs, h)
    ensures NotAhead(Use(rs, n, anyState, lock, h).1, h)
  {
    var after := Use(rs, n, anyState, lock, h).1;
    forall r | r in after ensures r.height <= h {
      var i :| 0 <= i < |after| && after[i] == r;
      UseRecordByRecord(rs, n, anyState, lock, h, i);
      assert rs[i] in rs;
    }
  }

  lemma RequestStaysCovered(p: Provider, n: nat, params: Params, h: int)
    requires Covered(p, h) && RequestUnlock(p, n, params, h).Some?
    ensures Covered(RequestUnlock(p, n, params, h).value, h)
  {
    PrunedStaysCovered(p, params, h);
    AppendTotals(Pruned(p, params, h).unlocks, Unlock(h, n), 0, 0);
  }

  lemma CancelStaysCovered(p: Provider, n: nat, params: Params, h: int)
    requires Covered(p, h) && CancelUnlock(p, n, params, h).Some?
    ensures Covered(CancelUnlock(p, n, params, h).value, h)
  {
    PrunedStaysCovered(p, params, h);
    var rs := Pruned(p, params, h).unlocks;
    UseConserves(rs, n, true, params.lock, h);
    var after := Use(rs, n, true, params.lock, h).1;
    UseNotAhead(rs, n, true, params.lock, h);
    DropEmptyKeeps(after, 0, 0);
    DropEmptySubset(after);
  }

  /** Burning units uses at least as many requested units as would otherwise be left uncovered. */
  lemma BurnStaysCovered(p: Provider, n: nat, params: Params, h: int)
    requires Covered(p, h) && n <= p.units && BurnUnits(p, n, params, h).Some?
    ensures Covered(BurnUnits(p, n, params, h).value, h)
  {
    PrunedStaysCovered(p, params, h);
    var rs := Pruned(p, params, h).unlocks;
    UseConserves(rs, n, false, params.lock, h);
    UseNotAhead(rs, n, false, params.lock, h);
    if params.lock == 0 && Use(rs, n, false, 0, h).0 != 0 {
      AllUsed(rs, n, h);
    }
  }

  /** Without a lock period every request is usable, so serving less than asked leaves nothing. */
  lemma {:induction false} AllUsed(rs: seq<Unlock>, n: nat, h: int)
    requires NotAhead(rs, h) && 0 < Use(rs, n, false, 0, h).0
    ensures Total(Use(rs, n, false, 0, h).1) == 0
  {
    if rs != [] { AllUsed(rs[1..], n - rs[0].units, h); }
  }

  /** One provider's part of a message, at the height it arrives. */
  datatype Action =
    | Deposit(n: nat)
    | Request(n: nat)
    | Cancel(n: nat)
    | Remove(n: nat)

  /** The provider after an action, or nothing when the action fails. Removing every unit deletes the record. */
  function Act(p: Provider, a: Action, params: Params, h: int): Option<Provider> {
    match a
    case Deposit(n) => Some(p.(units := p.units + n))
    case Request(n) => RequestUnlock(p, n, params, h)
    case Cancel(n) => CancelUnlock(p, n, params, h)
    case Remove(n) =>
      if n > p.units then None
      else match BurnUnits(p, n, params, h)
        case None => None
        case Some(q) => Some(if q.units == 0 then Provider(0, []) else q)
  }

  /** A run of actions, each with its height; a failed action changes nothing. */
  function Run(p: Provider, run: seq<(int, Action)>, params: Params): Provider {
    if run == [] then p
    else
      var before := Run(p, run[..|run| - 1], params);
      var (h, a) := run[|run| - 1];
      match Act(before, a, params, h) case None => before case Some(q) => q
  }

  /** The units removed by the run's successful removals at heights in `[first, last]`. */
  function RemovedIn(p: Provider, run: seq<(int, Action)>, params: Params, first: int, last: int): nat {
    if run == [] then 0
    else
      var (h, a) := run[|run| - 1];
      var earlier := run[..|run| - 1];
      RemovedIn(p, earlier, params, first, last)
      + (if a.Remove? && first <= h <= last && Act(Run(p, earlier, params), a, params, h).Some? then a.n else 0)
  }

  /** The units asked for by the run's successful unlock requests at heights in `(lo, hi]`. */
  function RequestedIn(p: Provider, run: seq<(int, Action)>, params: Params, lo: int, hi: int): nat {
    if run == [] then 0
    else
      var (h, a) := run[|run| - 1];
      var earlier := run[..|run| - 1];
      RequestedIn(p, earlier, params, lo, hi)
      + (if a.Request? && lo < h <= hi && Act(Run(p, earlier, params), a, params, h).Some? then a.n else 0)
  }

  lemma ActInWindow(p: Provider, a: Action, params: Params, h: int, first: int, last: int)
    requires params.lock != 0 && Act(p, a, params, h).Some?
    ensures var lo, hi := first - params.lock - params.cancel, last - params.lock;
      UnitsIn(Act(p, a, params, h).value.unlocks, lo, hi) + (if a.Remove? && first <= h <= last then a.n else 0)
      <= UnitsIn(p.unlocks, lo, hi) + (if a.Request? && lo < h <= hi then a.n else 0)
  {
    var lo, hi := first - params.lock - params.cancel, last - params.lock;
    var rs := Pruned(p, params, h).unlocks;
    PruneShrinks(p.unlocks, params.lock, params.cancel, h, lo, hi);
    match a
    case Deposit(n) =>
    case Request(n) => AppendTotals(rs, Unlock(h, n), lo, hi);
    case Cancel(n) =>
      UseWithinWindow(rs, n, true, params.lock, h, lo, hi);
      DropEmptyKeeps(Use(rs, n, true, params.lock, h).1, lo, hi);
    case Remove(n) =>
      UseWithinWindow(rs, n, false, params.lock, h, lo, hi);
      if first <= h <= last { RemovalWindow(rs, params, h, first, last); }
  }

  lemma RemovalWindow(rs: seq<Unlock>, params: Params, h: int, first: int, last: int)
    requires first <= h <= last && forall i | 0 <= i < |rs| :: !Lapsed(rs[i], params.lock, params.cancel, h)
    ensures forall i | 0 <= i < |rs| :: Usable(rs[i], false, params.lock, h)
              ==> first - params.lock - params.cancel < rs[i].height <= last - params.lock
  {
  }

  /**
   Unlock timing over every run: with a lock period `L` and cancel period `C`, what is removed at heights
   `first..last` was requested at heights in `(first - L - C, last - L]`.
   */
  lemma {:induction false} RemovalsWereRequestedInTime(p: Provider, run: seq<(int, Action)>, params: Params,
                                                       first: int, last: int)
    requires params.lock != 0 && p.unlocks == []
    ensures var lo, hi := first - params.lock - params.cancel, last - params.lock;
      RemovedIn(p, run, params, first, last) + UnitsIn(Run(p, run, params).unlocks, lo, hi)
      <= RequestedIn(p, run, params, lo, hi)
  {
    if run != [] {
      var (h, a) := run[|run| - 1];
      var earlier := run[..|run| - 1];
      RemovalsWereRequestedInTime(p, earlier, params, first, last);
      var before := Run(p, earlier, params);
      if Act(before, a, params, h).Some? { ActInWindow(before, a, params, h, first, last); }
    }
  }
}
