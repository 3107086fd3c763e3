/**
 Unlock requests as the handlers see them: records behind pointers. `UseUnlockedLiquidity` receives the provider by
 value, but its record pointers are the handler's own, so the handler later stores records that the callee has changed.
 */
module UnlockRecords {
  import opened Options
  import opened Unlocks

  class UnlockRecord {
    var height: int
    var units: nat

    constructor (height: int, units: nat)
      ensures this.height == height && this.units == units
    {
      this.height, this.units := height, units;
    }
  }

  /** The value of a list of records: what is stored when it is marshalled. */
  function Values(rs: seq<UnlockRecord>): seq<Unlock>
    reads rs
  {
    seq(|rs|, i requires 0 <= i < |rs| reads rs => Unlock(rs[i].height, rs[i].units))
  }

  ghost predicate Distinct(rs: seq<UnlockRecord>) {
    forall i, j | 0 <= i < j < |rs| :: rs[i] != rs[j]
  }

  /** Reading a provider from the store makes new records. */
  method Unmarshal(vs: seq<Unlock>) returns (rs: seq<UnlockRecord>)
    ensures fresh(rs) && Distinct(rs) && Values(rs) == vs
  {
    rs := [];
    for i := 0 to |vs|
      invariant |rs| == i && fresh(rs) && Distinct(rs)
      invariant forall j | 0 <= j < i :: Unlock(rs[j].height, rs[j].units) == vs[j]
    {
      var r := new UnlockRecord(vs[i].height, vs[i].units);
      rs := rs + [r];
    }
  }

  /** Writing through one pointer changes that request and no other. */
  method SetUnits(rs: seq<UnlockRecord>, i: nat, units: nat)
    requires i < |rs| && Distinct(rs)
    modifies rs`units
    ensures Values(rs) == old(Values(rs))[i := Unlock(rs[i].height, units)]
  {
    rs[i].units := units;
  }

  /** `cur` is part-way to the result: the first `i` requests are done, the rest are as they were. */
  ghost predicate PartWay(vs: seq<Unlock>, units: nat, anyState: bool, lock: nat, h: int, cur: seq<Unlock>, left: nat,
                          i: nat) {
    && |cur| == |vs| && i <= |vs|
    && cur[i..] == vs[i..]
    && var (unserved, rest) := Use(vs[i..], left, anyState, lock, h);
       Use(vs, units, anyState, lock, h) == (unserved, cur[..i] + rest)
  }

  lemma PartWayStart(vs: seq<Unlock>, units: nat, anyState: bool, lock: nat, h: int)
    ensures PartWay(vs, units, anyState, lock, h, vs, units, 0)
  {
    assert vs[0..] == vs && vs[..0] == [];
    assert [] + Use(vs, units, anyState, lock, h).1 == Use(vs, units, anyState, lock, h).1;
  }

  lemma PartWayEnd(vs: seq<Unlock>, units: nat, anyState: bool, lock: nat, h: int, cur: seq<Unlock>, left: nat)
    requires PartWay(vs, units, anyState, lock, h, cur, left, |vs|)
    ensures Use(vs, units, anyState, lock, h) == (left, cur)
  {
    assert vs[|vs|..] == [] && cur[..|vs|] + [] == cur;
  }

  /** One request further: skipped when not usable, else emptied or, if it covers what is left, the last one. */
  lemma PartWayStep(vs: seq<Unlock>, units: nat, anyState: bool, lock: nat, h: int, cur: seq<Unlock>, left: nat, i: nat)
    requires i < |vs| && PartWay(vs, units, anyState, lock, h, cur, left, i)
    ensures cur[i] == vs[i]
    ensures !Usable(cur[i], anyState, lock, h) ==> PartWay(vs, units, anyState, lock, h, cur, left, i + 1)
    ensures Usable(cur[i], anyState, lock, h) && left > cur[i].units ==>
      PartWay(vs, units, anyState, lock, h, cur[i := cur[i].(units := 0)], left - cur[i].units, i + 1)
    ensures Usable(cur[i], anyState, lock, h) && left <= cur[i].units ==>
      Use(vs, units, anyState, lock, h) == (0, cur[i := cur[i].(units := cur[i].units - left)])
  {
    assert vs[i..][1..] == vs[i + 1..] && cur[i..][0] == vs[i..][0];
    assert cur[i + 1..] == cur[i..][1..];
    var done := cur[..i];
    forall u: Unlock, rest: seq<Unlock> ensures done + ([u] + rest) == cur[i := u][..i + 1] + rest {
      assert cur[i := u][..i + 1] == done + [u];
    }
    forall u: Unlock ensures done + ([u] + vs[i + 1..]) == cur[i := u] {
      assert cur[i := u][i + 1..] == vs[i + 1..];
      assert cur[i := u] == cur[i := u][..i + 1] + cur[i := u][i + 1..];
    }
    assert cur[i := cur[i]] == cur;
  }

  /** The first loop of `UseUnlockedLiquidity`: takes units from usable records in place, oldest first. */
  method UseRecords(rs: seq<UnlockRecord>, units: nat, anyState: bool, lock: nat, h: int) returns (left: nat)
    requires Distinct(rs)
    modifies rs`units
    ensures (left, Values(rs)) == Use(old(Values(rs)), units, anyState, lock, h)
  {
    left := units;
    ghost var vs := Values(rs);
    PartWayStart(vs, units, anyState, lock, h);
    for i := 0 to |rs|
      invariant PartWay(vs, units, anyState, lock, h, Values(rs), left, i)
    {
      ghost var cur := Values(rs);
      PartWayStep(vs, units, anyState, lock, h, cur, left, i);
      if anyState || rs[i].height + lock <= h {
        if left > rs[i].units {
          left := left - rs[i].units;
          SetUnits(rs, i, 0);
        } else {
          SetUnits(rs, i, rs[i].units - left);
          left := 0;
          return;
        }
      }
    }
    PartWayEnd(vs, units, anyState, lock, h, Values(rs), left);
  }

  lemma {:induction false} DropEmptyAppend(vs: seq<Unlock>, v: Unlock)
    ensures DropEmpty(vs + [v]) == DropEmpty(vs) + (if v.units == 0 then [] else [v])
  {
    if vs != [] {
      assert (vs + [v])[1..] == vs[1..] + [v];
      DropEmptyAppend(vs[1..], v);
    }
  }

  lemma {:induction false} PruneAppend(vs: seq<Unlock>, v: Unlock, lock: nat, cancel: nat, h: int)
    ensures Prune(vs + [v], lock, cancel, h)
         == Prune(vs, lock, cancel, h) + (if Lapsed(v, lock, cancel, h) || v.units == 0 then [] else [v])
  {
    if vs != [] {
      assert (vs + [v])[1..] == vs[1..] + [v];
      PruneAppend(vs[1..], v, lock, cancel, h);
    }
  }

  /** The second loop of `UseUnlockedLiquidity`: the records that still hold units, the same pointers. */
  method KeepNonEmpty(rs: seq<UnlockRecord>) returns (kept: seq<UnlockRecord>)
    ensures Values(kept) == DropEmpty(Values(rs)) && forall r | r in kept :: r in rs
  {
    kept := [];
    for i := 0 to |rs|
      invariant Values(kept) == DropEmpty(Values(rs)[..i]) && forall r | r in kept :: r in rs
    {
      assert Values(rs)[..i + 1] == Values(rs)[..i] + [Values(rs)[i]];
      DropEmptyAppend(Values(rs)[..i], Values(rs)[i]);
      if rs[i].units != 0 {
        assert Values(kept + [rs[i]]) == Values(kept) + [Values(rs)[i]];
        kept := kept + [rs[i]];
      }
    }
    assert Values(rs)[..|rs|] == Values(rs);
  }

  /** `PruneUnlockRecords`. */
  method PruneUnlockRecords(rs: seq<UnlockRecord>, params: Params, h: int) returns (kept: seq<UnlockRecord>)
    requires Distinct(rs)
    ensures Values(kept) == Prune(Values(rs), params.lock, params.cancel, h)
    ensures Distinct(kept) && forall r | r in kept :: r in rs
  {
    kept := [];
    for i := 0 to |rs|
      invariant Values(kept) == Prune(Values(rs)[..i], params.lock, params.cancel, h)
      invariant Distinct(kept) && forall r | r in kept :: r in rs[..i]
    {
      assert Values(rs)[..i + 1] == Values(rs)[..i] + [Values(rs)[i]];
      PruneAppend(Values(rs)[..i], Values(rs)[i], params.lock, params.cancel, h);
      if h >= rs[i].height + params.lock + params.cancel || rs[i].units == 0 {
        continue;
      }
      assert Values(kept + [rs[i]]) == Values(kept) + [Values(rs)[i]];
      assert rs[i] !in rs[..i] && rs[..i + 1] == rs[..i] + [rs[i]];
      kept := kept + [rs[i]];
    }
    assert Values(rs)[..|rs|] == Values(rs) && rs[..|rs|] == rs;
  }

  /** Loads a provider's requests from the store and prunes them, as every handler does first. */
  method Load(stored: Provider, params: Params, h: int) returns (records: seq<UnlockRecord>)
    ensures fresh(records) && Distinct(records) && Values(records) == Pruned(stored, params, h).unlocks
  {
    var loaded := Unmarshal(stored.unlocks);
    records := PruneUnlockRecords(loaded, params, h);
    forall i | 0 <= i < |records| ensures fresh(records[i]) {
      assert records[i] in records;
      var j :| 0 <= j < |loaded| && loaded[j] == records[i];
    }
  }

  /**
   The unlock part of a removal, through the shared pointers. The callee stores its own copy without the used-up
   records; the handler then stores its copy, and that one is the provider that `BurnUnits` describes.
   */
  method BurnThroughSharedRecords(stored: Provider, n: nat, params: Params, h: int)
    returns (ok: bool, calleeStored: Provider, handlerStored: Provider)
    requires n <= stored.units
    ensures ok == BurnUnits(stored, n, params, h).Some?
    ensures ok ==> handlerStored == BurnUnits(stored, n, params, h).value
    ensures ok ==> calleeStored == Provider(stored.units, DropEmpty(handlerStored.unlocks))
  {
    calleeStored, handlerStored := stored, stored;
    var records := Load(stored, params, h);
    var left := UseRecords(records, n, false, params.lock, h);
    ok := !(params.lock != 0 && left != 0);
    if ok {
      var kept := KeepNonEmpty(records);
      calleeStored := Provider(stored.units, Values(kept));
      handlerStored := Provider(stored.units - n, Values(records));
    }
  }

  /** The unlock part of a cancellation: any request may be used, and the callee's copy is what stays stored. */
  method CancelThroughRecords(stored: Provider, n: nat, params: Params, h: int) returns (ok: bool, saved: Provider)
    ensures CancelUnlock(stored, n, params, h) == if ok then Some(saved) else None
  {
    saved := stored;
    var records := Load(stored, params, h);
    var left := UseRecords(records, n, true, params.lock, h);
    ok := !(params.lock != 0 && left != 0);
    if ok {
      var kept := KeepNonEmpty(records);
      saved := Provider(stored.units, Values(kept));
    }
  }

  /** The loop of `UnlockLiquidity` over the requests already made. */
  method SumUnits(rs: seq<UnlockRecord>) returns (total: nat)
    ensures total == Total(Values(rs))
  {
    total := 0;
    for i := 0 to |rs|
      invariant total == Total(Values(rs)[..i])
    {
      assert Values(rs)[..i + 1] == Values(rs)[..i] + [Values(rs)[i]];
      AppendTotals(Values(rs)[..i], Values(rs)[i], 0, 0);
      total := total + rs[i].units;
    }
    assert Values(rs)[..|rs|] == Values(rs);
  }

  /** The whole of an unlock request: prune, add up, and append a new record when the units allow it. */
  method RequestThroughRecords(stored: Provider, n: nat, params: Params, h: int) returns (ok: bool, saved: Provider)
    ensures RequestUnlock(stored, n, params, h) == if ok then Some(saved) else None
  {
    saved := stored;
    var records := Load(stored, params, h);
    var totalUnlocks := SumUnits(records);
    ok := totalUnlocks + n <= stored.units;
    if ok {
      var r := new UnlockRecord(h, n);
      ghost var vs := Values(records);
      records := records + [r];
      assert Values(records) == vs + [Unlock(h, n)];
      saved := Provider(stored.units, Values(records));
    }
  }
}
