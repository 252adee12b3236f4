/** metrics/sinks/hawkular: the definition cache, aged by run ids, and the batches the headers are sent in. */
module Hawkular {
  import opened Core
  import opened Sequences

  datatype Item = Item(hash: int, ttl: nat)
  type Cache = map<string, Item>

  const CACHE_AGE := 2

  /**
   * What happens to the cache within a run, in the order the lock is taken: checks, and pushes by those who updated
   * tags.
   */
  datatype Op = Check(key: string, hash: int) | Push(key: string, hash: int)

  predicate Matches(c: Cache, key: string, hash: int) {
    key in c && c[key].hash == hash
  }

  function Do(c: Cache, runId: nat, op: Op): Cache {
    match op
    case Check(k, h) => if Matches(c, k, h) then c[k := Item(h, runId)] else c
    case Push(k, h) => c[k := Item(h, runId)]
  }

  function DoAll(c: Cache, runId: nat, ops: seq<Op>): Cache {
    if ops == [] then c else Do(DoAll(c, runId, ops[..|ops| - 1]), runId, ops[|ops| - 1])
  }

  /** expireCache. */
  function Expire(c: Cache, runId: nat): Cache {
    map k | k in c && c[k].ttl + CACHE_AGE > runId :: c[k]
  }

  /** The cache after whole runs, the first with run id 1; c is what pre-caching left, with ttl 0. */
  function AfterRuns(c: Cache, runs: seq<seq<Op>>): Cache {
    if runs == [] then c else Expire(DoAll(AfterRuns(c, runs[..|runs| - 1]), |runs|, runs[|runs| - 1]), |runs|)
  }

  /** The cache within the run after those given. */
  function Within(c: Cache, runs: seq<seq<Op>>, ops: seq<Op>): Cache {
    DoAll(AfterRuns(c, runs), |runs| + 1, ops)
  }

  // ----- The same without expiry -----

  /** The last hash and run a key was touched with; nothing is ever forgotten. */
  type Touch = Option<Item>

  /** A touch is live through the two runs after its own. */
  predicate Live(t: Touch, runId: nat) {
    t.Some? && runId <= t.value.ttl + 2
  }

  function Touched(t: Touch, runId: nat, op: Op, k: string): Touch {
    if op.key != k then t
    else match op
      case Push(_, h) => Some(Item(h, runId))
      case Check(_, h) => if Live(t, runId) && t.value.hash == h then Some(Item(h, runId)) else t
  }

  function TouchedAll(t: Touch, runId: nat, ops: seq<Op>, k: string): Touch {
    if ops == [] then t else Touched(TouchedAll(t, runId, ops[..|ops| - 1], k), runId, ops[|ops| - 1], k)
  }

  function LastTouch(c: Cache, runs: seq<seq<Op>>, k: string): Touch {
    if runs == [] then (if k in c then Some(c[k]) else None)
    else TouchedAll(LastTouch(c, runs[..|runs| - 1], k), |runs|, runs[|runs| - 1], k)
  }

  predicate PreCached(c: Cache) {
    forall k :: k in c ==> c[k].ttl == 0
  }

  /** The cache holds key k in a run exactly if its last touch is live, and then that touch. */
  ghost predicate Shows(c: Cache, k: string, t: Touch, runId: nat) {
    (k in c <==> Live(t, runId)) && (k in c ==> c[k] == t.value)
  }

  lemma {:induction false} OpsShow(c: Cache, t: Touch, runId: nat, ops: seq<Op>, k: string)
    requires Shows(c, k, t, runId)
    ensures Shows(DoAll(c, runId, ops), k, TouchedAll(t, runId, ops, k), runId)
  {
    if ops != [] {
      OpsShow(c, t, runId, ops[..|ops| - 1], k);
    }
  }

  lemma ExpiryShows(c: Cache, t: Touch, runId: nat, k: string)
    requires Shows(c, k, t, runId)
    ensures Shows(Expire(c, runId), k, t, runId + 1)
  {}

  lemma {:induction false} RunsShow(c: Cache, runs: seq<seq<Op>>, k: string)
    requires PreCached(c)
    ensures Shows(AfterRuns(c, runs), k, LastTouch(c, runs, k), |runs| + 1)
  {
    hide Shows, Expire;
    if runs == [] {
      PreCachedShows(c, k);
    } else {
      var n := |runs| - 1;
      RunsShow(c, runs[..n], k);
      var before, t := AfterRuns(c, runs[..n]), LastTouch(c, runs[..n], k);
      OpsShow(before, t, n + 1, runs[n], k);
      ExpiryShows(DoAll(before, n + 1, runs[n]), TouchedAll(t, n + 1, runs[n], k), n + 1, k);
    }
  }

  lemma PreCachedShows(c: Cache, k: string)
    requires PreCached(c)
    ensures Shows(c, k, if k in c then Some(c[k]) else None, 1)
  {}

  /**
   * At any point of any run a check succeeds, and so the tag update is skipped, exactly when the key was
   * last pushed or matched with the same hash in this run or one of the two before.
   */
  lemma CheckMeaning(c: Cache, runs: seq<seq<Op>>, ops: seq<Op>, k: string, hash: int)
    requires PreCached(c)
    ensures var t := TouchedAll(LastTouch(c, runs, k), |runs| + 1, ops, k);
            Matches(Within(c, runs, ops), k, hash) <==> Live(t, |runs| + 1) && t.value.hash == hash
  {
    RunsShow(c, runs, k);
    OpsShow(AfterRuns(c, runs), LastTouch(c, runs, k), |runs| + 1, ops, k);
  }

  predicate Untouched(ops: seq<Op>, k: string) {
    forall i :: 0 <= i < |ops| ==> ops[i].key != k
  }

  lemma {:induction false} UntouchedStays(t: Touch, runId: nat, ops: seq<Op>, k: string)
    requires Untouched(ops, k)
    ensures TouchedAll(t, runId, ops, k) == t
  {
    if ops != [] {
      UntouchedStays(t, runId, ops[..|ops| - 1], k);
    }
  }

  lemma {:induction false} QuietRuns(c: Cache, runs: seq<seq<Op>>, quiet: seq<seq<Op>>, k: string)
    requires forall i :: 0 <= i < |quiet| ==> Untouched(quiet[i], k)
    ensures LastTouch(c, runs + quiet, k) == LastTouch(c, runs, k)
  {
    hide Untouched;
    if quiet == [] {
      assert runs + quiet == runs;
    } else {
      var n := |quiet| - 1;
      QuietRuns(c, runs, quiet[..n], k);
      assert (runs + quiet)[..|runs + quiet| - 1] == runs + quiet[..n];
      assert (runs + quiet)[|runs + quiet| - 1] == quiet[n];
      UntouchedStays(LastTouch(c, runs, k), |runs + quiet|, quiet[n], k);
    }
  }

  /**
   * An entry last touched in run t and left alone since is found, as it was, in the next two runs and gone
   * in every later one.
   */
  lemma EntryLifetime(c: Cache, runs: seq<seq<Op>>, quiet: seq<seq<Op>>, ops: seq<Op>, k: string)
    requires PreCached(c) && LastTouch(c, runs, k).Some? && LastTouch(c, runs, k).value.ttl == |runs|
    requires (forall i :: 0 <= i < |quiet| ==> Untouched(quiet[i], k)) && Untouched(ops, k)
    ensures k in Within(c, runs + quiet, ops) <==> |quiet| < 2
    ensures k in Within(c, runs + quiet, ops) ==> Within(c, runs + quiet, ops)[k] == LastTouch(c, runs, k).value
  {
    hide Untouched, DoAll, AfterRuns, TouchedAll, LastTouch, PreCached;
    QuietRuns(c, runs, quiet, k);
    RunsShow(c, runs + quiet, k);
    var t, id := LastTouch(c, runs, k), |runs + quiet| + 1;
    OpsShow(AfterRuns(c, runs + quiet), t, id, ops, k);
    UntouchedStays(t, id, ops, k);
  }

  // ----- Batches -----

  /** The ceiling of the division. */
  function Ceil(a: nat, b: nat): nat
    requires b > 0
  {
    (a + b - 1) / b
  }

  lemma CeilCovers(a: nat, b: nat, i: nat)
    requires b > 0
    ensures b * i < a ==> i < Ceil(a, b)
    ensures b * i >= a ==> Ceil(a, b) <= i
  {
    var q, r := (a + b - 1) / b, (a + b - 1) % b;
    assert a + b - 1 == b * q + r;
    assert q <= i - 1 ==> b * q <= b * (i - 1);
    assert b * (i - 1) == b * i - b;
    assert q <= i ==> b * q <= b * i;
    assert q >= i + 1 ==> b * q >= b * (i + 1);
    assert b * (i + 1) == b * i + b;
  }

  /** The channel filled with the parts, never beyond its capacity. */
  method ToBatches<T>(m: seq<T>, batchSize: nat) returns (c: seq<seq<T>>, capacity: nat)
    ensures Concat(c) == m && |c| == capacity
    ensures batchSize == 0 ==> c == [m]
    ensures batchSize > 0 ==> capacity == Ceil(|m|, batchSize)
    ensures batchSize > 0 ==> forall i :: 0 <= i < |c| ==>
              0 < |c[i]| <= batchSize && (i < |c| - 1 ==> |c[i]| == batchSize)
  {
    hide Ceil;
    c := [];
    if batchSize == 0 {
      capacity := 1;
      c := [m];
      assert Concat(c) == Concat([]) + m;
    } else {
      capacity := Ceil(|m|, batchSize);
      var i := 0;
      while i < |m|
        invariant i == batchSize * |c| && |c| <= capacity
        invariant Concat(c) == m[..if i < |m| then i else |m|]
        invariant forall j :: 0 <= j < |c| ==>
                  0 < |c[j]| <= batchSize && (j < |c| - 1 || i < |m| ==> |c[j]| == batchSize)
      {
        CeilCovers(|m|, batchSize, |c|);
        assert |c| < capacity;
        var n := i + batchSize;
        if |m| < n {
          n := |m|;
        }
        var part := m[i..n];
        ConcatOne(c, part);
        assert m[..i] + part == m[..n];
        assert batchSize * (|c| + 1) == i + batchSize;
        c := c + [part];
        i := i + batchSize;
      }
      CeilCovers(|m|, batchSize, |c|);
    }
  }
}
