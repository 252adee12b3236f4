/** metrics/sinks/hawkular/client.go and driver.go as they run: the cache updated in place under its lock. */
module HawkularImpl {
  import opened Core
  import opened Hawkular
  import opened Sequences

  /**
   * What happens in a run, in some interleaving: a metric is registered if necessary, or a tag update under
   * way comes back.
   */
  datatype Step = Register(key: string, hash: int) | UpdateDone(key: string, hash: int, ok: bool)

  lemma OneMoreOp(c: Cache, runId: nat, ops: seq<Op>, op: Op)
    ensures DoAll(c, runId, ops + [op]) == Do(DoAll(c, runId, ops), runId, op)
  {
    assert (ops + [op])[..|ops|] == ops;
  }

  /** Operation i failed to find its entry. */
  ghost predicate Missed(c: Cache, runId: nat, ops: seq<Op>, i: nat, key: string, hash: int) {
    i < |ops| && ops[i] == Check(key, hash) && hash != 0 && !Matches(DoAll(c, runId, ops[..i]), key, hash)
  }

  /** Only what a check missed is pushed, later; hash 0 is neither checked nor pushed. */
  ghost predicate Justified(c: Cache, runId: nat, ops: seq<Op>) {
    forall i :: 0 <= i < |ops| ==>
      && ops[i].hash != 0
      && (ops[i].Push? ==> exists j: nat :: j < i && Missed(c, runId, ops, j, ops[i].key, ops[i].hash))
  }

  /** Every update under way was asked for by a check that missed. */
  ghost predicate Pending(c: Cache, runId: nat, ops: seq<Op>, pending: multiset<(string, int)>) {
    forall p :: p in pending ==> exists j: nat :: Missed(c, runId, ops, j, p.0, p.1)
  }

  lemma MissedStays(c: Cache, runId: nat, ops: seq<Op>, op: Op, j: nat, key: string, hash: int)
    requires Missed(c, runId, ops, j, key, hash)
    ensures Missed(c, runId, ops + [op], j, key, hash)
  {
    assert (ops + [op])[..j] == ops[..j];
  }

  lemma PendingStays(c: Cache, runId: nat, ops: seq<Op>, op: Op, pending: multiset<(string, int)>)
    requires Pending(c, runId, ops, pending)
    ensures Pending(c, runId, ops + [op], pending)
  {
    hide Missed;
    forall p | p in pending
      ensures exists j: nat :: Missed(c, runId, ops + [op], j, p.0, p.1)
    {
      var j: nat :| Missed(c, runId, ops, j, p.0, p.1);
      MissedStays(c, runId, ops, op, j, p.0, p.1);
    }
  }

  lemma JustifiedGrows(c: Cache, runId: nat, ops: seq<Op>, op: Op)
    requires Justified(c, runId, ops) && op.hash != 0
    requires op.Push? ==> exists j: nat :: Missed(c, runId, ops, j, op.key, op.hash)
    ensures Justified(c, runId, ops + [op])
  {
    hide Missed;
    var more := ops + [op];
    forall i | 0 <= i < |more| && more[i].Push?
      ensures exists j: nat :: j < i && Missed(c, runId, more, j, more[i].key, more[i].hash)
    {
      if i < |ops| {
        var j: nat :| j < i && Missed(c, runId, ops, j, ops[i].key, ops[i].hash);
        MissedStays(c, runId, ops, op, j, ops[i].key, ops[i].hash);
      } else {
        var j: nat :| Missed(c, runId, ops, j, op.key, op.hash);
        Earlier(c, runId, ops, j, op.key, op.hash);
        MissedStays(c, runId, ops, op, j, op.key, op.hash);
      }
    }
  }

  lemma Earlier(c: Cache, runId: nat, ops: seq<Op>, j: nat, key: string, hash: int)
    requires Missed(c, runId, ops, j, key, hash)
    ensures j < |ops|
  {}

  lemma NewlyPending(c: Cache, runId: nat, ops: seq<Op>, key: string, hash: int, pending: multiset<(string, int)>)
    requires Pending(c, runId, ops, pending) && hash != 0 && !Matches(DoAll(c, runId, ops), key, hash)
    ensures Pending(c, runId, ops + [Check(key, hash)], pending + multiset{(key, hash)})
  {
    var op := Check(key, hash);
    PendingStays(c, runId, ops, op, pending);
    assert (ops + [op])[..|ops|] == ops;
    assert Missed(c, runId, ops + [op], |ops|, key, hash);
  }

  class HawkularSink {
    var expReg: Cache
    var runId: nat

    constructor ()
      ensures expReg == map[] && runId == 0
    {
      expReg, runId := map[], 0;
    }

    method PushToCache(key: string, hash: int)
      modifies this
      ensures runId == old(runId) && expReg == Do(old(expReg), runId, Push(key, hash))
    {
      expReg := expReg[key := Item(hash, runId)];
    }

    method CheckCache(key: string, hash: int) returns (r: bool)
      modifies this
      ensures runId == old(runId) && expReg == Do(old(expReg), runId, Check(key, hash))
      ensures r <==> Matches(old(expReg), key, hash)
    {
      if key !in expReg || expReg[key].hash != hash {
        r := false;
      } else {
        expReg := expReg[key := expReg[key].(ttl := runId)];
        r := true;
      }
    }

    method ExpireCache(id: nat)
      modifies this
      ensures runId == old(runId) && expReg == Expire(old(expReg), id)
    {
      ghost var before := expReg;
      var todo := expReg.Keys;
      while todo != {}
        invariant runId == old(runId) && todo <= before.Keys
        invariant forall k :: k in expReg <==> k in before && (k in todo || before[k].ttl + CACHE_AGE > id)
        invariant forall k :: k in expReg ==> expReg[k] == before[k]
        decreases |todo|
      {
        var k :| k in todo;
        if expReg[k].ttl + CACHE_AGE <= id {
          expReg := expReg - {k};
        }
        todo := todo - {k};
      }
      assert expReg == Expire(before, id);
    }

    /** registerLabeledIfNecessaryInline up to the point where it starts the update. */
    method RegisterIfNecessary(key: string, hash: int) returns (update: bool)
      modifies this
      ensures runId == old(runId)
      ensures hash == 0 ==> !update && expReg == old(expReg)
      ensures hash != 0 ==> (update <==> !Matches(old(expReg), key, hash))
      ensures hash != 0 ==> expReg == Do(old(expReg), runId, Check(key, hash))
    {
      update := false;
      if hash != 0 {
        var current := CheckCache(key, hash);
        update := !current;
      }
    }

    /** A run: the id advances, metrics are registered while updates come back, and the cache is expired last. */
    method ExportData(script: seq<Step>) returns (ghost ops: seq<Op>)
      modifies this
      ensures runId == old(runId) + 1
      ensures ops == Performed(old(expReg), runId, script).ops && Justified(old(expReg), runId, ops)
      ensures expReg == Expire(DoAll(old(expReg), runId, ops), runId)
    {
      hide Do, Justified, Expire, Matches;
      runId := runId + 1;
      ops := [];
      var pending: multiset<(string, int)> := multiset{};
      Quiet(expReg, runId);
      for i := 0 to |script|
        invariant runId == old(runId) + 1
        invariant expReg == DoAll(old(expReg), runId, ops)
        invariant Progress(ops, pending) == Performed(old(expReg), runId, script[..i])
      {
        assert script[..i + 1][..i] == script[..i];
        ghost var before := ops;
        var key, hash := script[i].key, script[i].hash;
        match script[i] {
          case Register(_, _) =>
            var update := RegisterIfNecessary(key, hash);
            if hash != 0 {
              OneMoreOp(old(expReg), runId, before, Check(key, hash));
              ops := before + [Check(key, hash)];
              if update {
                pending := pending + multiset{(key, hash)};
              }
            }
          case UpdateDone(_, _, ok) =>
            if (key, hash) in pending {
              pending := pending - multiset{(key, hash)};
              if ok {
                PushToCache(key, hash);
                OneMoreOp(old(expReg), runId, before, Push(key, hash));
                ops := before + [Push(key, hash)];
              }
            }
        }
      }
      assert script[..|script|] == script;
      PerformedIsJustified(old(expReg), runId, script);
      ExpireCache(runId);
    }
  }

  // ----- What a run does -----

  /** The operations so far, and the updates under way. */
  datatype Progress = Progress(ops: seq<Op>, pending: multiset<(string, int)>)

  function Perform(c: Cache, runId: nat, p: Progress, s: Step): Progress {
    match s
    case Register(k, h) =>
      if h == 0 then p
      else if Matches(DoAll(c, runId, p.ops), k, h) then p.(ops := p.ops + [Check(k, h)])
      else Progress(p.ops + [Check(k, h)], p.pending + multiset{(k, h)})
    case UpdateDone(k, h, ok) =>
      if (k, h) !in p.pending then p
      else Progress(if ok then p.ops + [Push(k, h)] else p.ops, p.pending - multiset{(k, h)})
  }

  function Performed(c: Cache, runId: nat, script: seq<Step>): Progress {
    if script == [] then Progress([], multiset{})
    else Perform(c, runId, Performed(c, runId, script[..|script| - 1]), script[|script| - 1])
  }

  lemma OneMoreIsJustified(c: Cache, runId: nat, p: Progress, s: Step)
    requires Justified(c, runId, p.ops) && Pending(c, runId, p.ops, p.pending)
    ensures var q := Perform(c, runId, p, s); Justified(c, runId, q.ops) && Pending(c, runId, q.ops, q.pending)
  {
    hide Justified, Pending, Matches;
    match s
    case Register(k, h) =>
      if h != 0 {
        JustifiedGrows(c, runId, p.ops, Check(k, h));
        if Matches(DoAll(c, runId, p.ops), k, h) {
          PendingStays(c, runId, p.ops, Check(k, h), p.pending);
        } else {
          NewlyPending(c, runId, p.ops, k, h, p.pending);
        }
      }
    case UpdateDone(k, h, ok) =>
      if (k, h) in p.pending {
        var j := Asked(c, runId, p.ops, p.pending, k, h);
        FewerPending(c, runId, p.ops, p.pending, p.pending - multiset{(k, h)});
        if ok {
          JustifiedGrows(c, runId, p.ops, Push(k, h));
          PendingStays(c, runId, p.ops, Push(k, h), p.pending - multiset{(k, h)});
        }
      }
  }

  /** Only what a check missed is ever pushed. */
  lemma {:induction false} PerformedIsJustified(c: Cache, runId: nat, script: seq<Step>)
    ensures var p := Performed(c, runId, script); Justified(c, runId, p.ops) && Pending(c, runId, p.ops, p.pending)
  {
    hide Justified, Pending, Perform;
    if script == [] {
      Quiet(c, runId);
    } else {
      var n := |script| - 1;
      PerformedIsJustified(c, runId, script[..n]);
      OneMoreIsJustified(c, runId, Performed(c, runId, script[..n]), script[n]);
    }
  }

  predicate IsRegister(s: Step) {
    s.Register? && s.hash != 0
  }

  predicate IsCheck(op: Op) {
    op.Check?
  }

  /** The n-th check is for the n-th registration with a hash. */
  ghost predicate SameKeys(ops: seq<Op>, f: seq<nat>, script: seq<Step>, g: seq<nat>) {
    && |f| == |g|
    && forall i :: 0 <= i < |f| ==>
         f[i] < |ops| && g[i] < |script| && ops[f[i]].key == script[g[i]].key && ops[f[i]].hash == script[g[i]].hash
  }

  ghost predicate ChecksMatch(ops: seq<Op>, f: seq<nat>, script: seq<Step>, g: seq<nat>) {
    Picks(f, ops, IsCheck) && Picks(g, script, IsRegister) && SameKeys(ops, f, script, g)
  }

  /** Every metric registered with a hash is checked, in order, and nothing else is. */
  lemma {:induction false} ChecksAreRegistrations(c: Cache, runId: nat, script: seq<Step>)
      returns (f: seq<nat>, g: seq<nat>)
    ensures ChecksMatch(Performed(c, runId, script).ops, f, script, g)
  {
    hide Perform, ChecksMatch;
    if script == [] {
      f, g := [], [];
      NothingChecked();
    } else {
      var n := |script| - 1;
      var before := Performed(c, runId, script[..n]);
      f, g := ChecksAreRegistrations(c, runId, script[..n]);
      f, g := ChecksMatchNext(c, runId, before, f, script[..n], g, script[n]);
      assert script == script[..n] + [script[n]];
    }
  }

  lemma ChecksMatchNext(c: Cache, runId: nat, p: Progress, f: seq<nat>, script: seq<Step>, g: seq<nat>, s: Step)
      returns (f': seq<nat>, g': seq<nat>)
    requires ChecksMatch(p.ops, f, script, g)
    ensures ChecksMatch(Perform(c, runId, p, s).ops, f', script + [s], g')
  {
    hide Matches, DoAll, ChecksMatch;
    f', g' := f, g;
    if IsRegister(s) {
      OneMoreCheck(p.ops, f, script, g, s);
      f', g' := f + [|p.ops|], g + [|script|];
    } else {
      NoMoreChecks(p.ops, f, script, g, s, Perform(c, runId, p, s).ops);
    }
  }

  lemma NothingChecked()
    ensures ChecksMatch([], [], [], [])
  {}

  lemma OneMoreCheck(ops: seq<Op>, f: seq<nat>, script: seq<Step>, g: seq<nat>, s: Step)
    requires ChecksMatch(ops, f, script, g) && IsRegister(s)
    ensures ChecksMatch(ops + [Check(s.key, s.hash)], f + [|ops|], script + [s], g + [|script|])
  {
    hide Picks;
    PicksNext(g, script, s, IsRegister);
    PicksNext(f, ops, Check(s.key, s.hash), IsCheck);
  }

  lemma NoMoreChecks(ops: seq<Op>, f: seq<nat>, script: seq<Step>, g: seq<nat>, s: Step, more: seq<Op>)
    requires ChecksMatch(ops, f, script, g) && !IsRegister(s)
    requires more == ops || more == ops + [Push(s.key, s.hash)]
    ensures ChecksMatch(more, f, script + [s], g)
  {
    hide Picks;
    PicksNext(g, script, s, IsRegister);
    PicksNext(f, ops, Push(s.key, s.hash), IsCheck);
  }

  /** An update that comes back well while under way is pushed at once; one that fails is dropped. */
  lemma UpdateIsPushed(c: Cache, runId: nat, script: seq<Step>, key: string, hash: int, ok: bool)
    requires (key, hash) in Performed(c, runId, script).pending
    ensures var p, q := Performed(c, runId, script), Performed(c, runId, script + [UpdateDone(key, hash, ok)]);
            && q.ops == (if ok then p.ops + [Push(key, hash)] else p.ops)
            && q.pending[(key, hash)] == p.pending[(key, hash)] - 1
  {
    assert (script + [UpdateDone(key, hash, ok)])[..|script|] == script;
  }

  /** A registration whose check misses puts an update under way. */
  lemma MissStartsUpdate(c: Cache, runId: nat, script: seq<Step>, key: string, hash: int)
    requires hash != 0
    ensures var p, q := Performed(c, runId, script), Performed(c, runId, script + [Register(key, hash)]);
            var cache := DoAll(c, runId, p.ops);
            && q.ops == p.ops + [Check(key, hash)]
            && q.pending[(key, hash)] == p.pending[(key, hash)] +
               if key in cache && cache[key].hash == hash then 0 else 1
  {
    hide DoAll;
    assert (script + [Register(key, hash)])[..|script|] == script;
  }

  lemma Quiet(c: Cache, runId: nat)
    ensures DoAll(c, runId, []) == c && Justified(c, runId, []) && Pending(c, runId, [], multiset{})
  {}

  lemma Asked(c: Cache, runId: nat, ops: seq<Op>, pending: multiset<(string, int)>, key: string, hash: int)
      returns (j: nat)
    requires Pending(c, runId, ops, pending) && (key, hash) in pending
    ensures Missed(c, runId, ops, j, key, hash) && hash != 0
  {
    var p := (key, hash);
    j :| Missed(c, runId, ops, j, p.0, p.1);
  }

  lemma FewerPending(c: Cache, runId: nat, ops: seq<Op>, pending: multiset<(string, int)>,
        fewer: multiset<(string, int)>)
    requires Pending(c, runId, ops, pending) && fewer <= pending
    ensures Pending(c, runId, ops, fewer)
  {
    hide Missed;
    assert forall q :: q in fewer ==> q in pending;
  }
}
