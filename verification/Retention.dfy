/** metrics/sinks/metric/metric_sink.go: what the two stores hold and what is read from them, over whole runs. */
module Retention {
  import opened Sums
  import opened Core
  import opened Sequences

  /** multimetricStore: a batch reduced to the integers of the long-stored metrics. */
  datatype Store = Store(timestamp: int, store: map<string, map<string, int64>>)

  /** buildMultimetricStore. */
  function Project(metrics: seq<string>, b: Batch): Store {
    Store(b.timestamp,
          map m | m in metrics :: map k | k in b.sets && m in b.sets[k].values :: b.sets[k].values[m].intValue)
  }

  function ProjectAll(metrics: seq<string>, bs: seq<Batch>): seq<Store> {
    if bs == [] then [] else ProjectAll(metrics, bs[..|bs| - 1]) + [Project(metrics, bs[|bs| - 1])]
  }

  /** popOld and popOldStore. */
  function PopOld(s: seq<Batch>, cutoff: int): seq<Batch> {
    if s == [] then []
    else
      var last := s[|s| - 1];
      PopOld(s[..|s| - 1], cutoff) + if last.timestamp > cutoff then [last] else []
  }

  function PopOldStore(s: seq<Store>, cutoff: int): seq<Store> {
    if s == [] then []
    else
      var last := s[|s| - 1];
      PopOldStore(s[..|s| - 1], cutoff) + if last.timestamp > cutoff then [last] else []
  }

  /** The sink's settings and its state. */
  datatype Config = Config(shortDuration: int, longDuration: int, longMetrics: seq<string>)
  datatype State = State(short: seq<Batch>, long: seq<Store>)

  /** One ExportData call: the clock it reads and the batch it is given. */
  datatype Export = Export(now: int, batch: Batch)

  function Step(c: Config, s: State, e: Export): State {
    State(PopOld(s.short, e.now - c.shortDuration) + [e.batch],
          PopOldStore(s.long, e.now - c.longDuration) + [Project(c.longMetrics, e.batch)])
  }

  function Run(c: Config, exports: seq<Export>): State {
    if exports == [] then State([], []) else Step(c, Run(c, exports[..|exports| - 1]), exports[|exports| - 1])
  }

  /** Everything ever exported. */
  function History(exports: seq<Export>): seq<Batch> {
    if exports == [] then [] else History(exports[..|exports| - 1]) + [exports[|exports| - 1].batch]
  }

  // ----- Retention -----

  /** One store of full batches with the given duration. */
  function Retained(exports: seq<Export>, duration: int): seq<Batch> {
    if exports == [] then []
    else
      var last := exports[|exports| - 1];
      PopOld(Retained(exports[..|exports| - 1], duration), last.now - duration) + [last.batch]
  }

  ghost predicate MonotoneClock(exports: seq<Export>) {
    forall i, j :: 0 <= i < j < |exports| ==> exports[i].now <= exports[j].now
  }

  lemma {:induction false} PopOldAppend(a: seq<Batch>, b: seq<Batch>, cutoff: int)
    ensures PopOld(a + b, cutoff) == PopOld(a, cutoff) + PopOld(b, cutoff)
  {
    if b == [] {
      assert a + b == a;
    } else {
      assert (a + b)[..|a + b| - 1] == a + b[..|b| - 1];
      PopOldAppend(a, b[..|b| - 1], cutoff);
    }
  }

  /** Popping twice is popping once by the later cutoff. */
  lemma {:induction false} PopOldTwice(s: seq<Batch>, c: int, d: int)
    requires c <= d
    ensures PopOld(PopOld(s, c), d) == PopOld(s, d)
  {
    if s != [] {
      var n := |s| - 1;
      PopOldTwice(s[..n], c, d);
      PopOldAppend(PopOld(s[..n], c), if s[n].timestamp > c then [s[n]] else [], d);
    }
  }

  lemma PopOnce(s: seq<Batch>, b: Batch, c: int, d: int)
    requires c <= d
    ensures PopOld(PopOld(s, c) + [b], d) == PopOld(s + [b], d)
  {
    PopOldAppend(PopOld(s, c), [b], d);
    PopOldTwice(s, c, d);
    PopOldAppend(s, [b], d);
  }

  /** Retention is one filter of the earlier history by the last cutoff, then the last batch. */
  lemma {:induction false} RetainedIsOneFilter(exports: seq<Export>, duration: int)
    requires exports != [] && MonotoneClock(exports)
    ensures var n := |exports| - 1;
            Retained(exports, duration) == PopOld(History(exports[..n]), exports[n].now - duration) + [exports[n].batch]
  {
    hide PopOld;
    var n := |exports| - 1;
    var before := exports[..n];
    if n > 0 {
      var last := before[n - 1];
      RetainedIsOneFilter(before, duration);
      PopOnce(History(before[..n - 1]), last.batch, last.now - duration, exports[n].now - duration);
    }
  }

  /** Popping commutes with the projection. */
  lemma {:induction false} PopProjected(metrics: seq<string>, bs: seq<Batch>, cutoff: int)
    ensures PopOldStore(ProjectAll(metrics, bs), cutoff) == ProjectAll(metrics, PopOld(bs, cutoff))
  {
    hide Project;
    if bs != [] {
      var n := |bs| - 1;
      PopProjected(metrics, bs[..n], cutoff);
      StampKept(metrics, bs[n]);
      var s := ProjectAll(metrics, bs);
      assert s[..|s| - 1] == ProjectAll(metrics, bs[..n]);
      if bs[n].timestamp > cutoff {
        ProjectOneMore(metrics, PopOld(bs[..n], cutoff), bs[n]);
      } else {
        assert PopOld(bs, cutoff) == PopOld(bs[..n], cutoff);
      }
    }
  }

  lemma StampKept(metrics: seq<string>, b: Batch)
    ensures Project(metrics, b).timestamp == b.timestamp
  {}

  lemma NoneProjected(metrics: seq<string>)
    ensures ProjectAll(metrics, []) == []
  {}

  lemma ProjectOneMore(metrics: seq<string>, bs: seq<Batch>, b: Batch)
    ensures ProjectAll(metrics, bs + [b]) == ProjectAll(metrics, bs) + [Project(metrics, b)]
  {
    hide Project;
    assert (bs + [b])[..|bs|] == bs;
  }

  /** The two stores in terms of one: the long store is the projection of what its duration retains. */
  lemma {:induction false} StoresRetain(c: Config, exports: seq<Export>)
    ensures Run(c, exports).short == Retained(exports, c.shortDuration)
    ensures Run(c, exports).long == ProjectAll(c.longMetrics, Retained(exports, c.longDuration))
  {
    hide Project, PopOld, PopOldStore, ProjectAll;
    NoneProjected(c.longMetrics);
    if exports != [] {
      var n := |exports| - 1;
      StoresRetain(c, exports[..n]);
      var kept, cutoff := Retained(exports[..n], c.longDuration), exports[n].now - c.longDuration;
      PopProjected(c.longMetrics, kept, cutoff);
      ProjectOneMore(c.longMetrics, PopOld(kept, cutoff), exports[n].batch);
    }
  }

  /** After any run with a clock that does not go back, each store is one filter of the history and the last batch. */
  lemma RetentionMeaning(c: Config, exports: seq<Export>)
    requires exports != [] && MonotoneClock(exports)
    ensures var n := |exports| - 1;
            var before, last := History(exports[..n]), exports[n];
            && Run(c, exports).short == PopOld(before, last.now - c.shortDuration) + [last.batch]
            && Run(c, exports).long ==
               ProjectAll(c.longMetrics, PopOld(before, last.now - c.longDuration) + [last.batch])
  {
    hide Run, Project, PopOld, ProjectAll, Retained, History;
    StoresRetain(c, exports);
    RetainedIsOneFilter(exports, c.shortDuration);
    RetainedIsOneFilter(exports, c.longDuration);
  }

  /** PopOld keeps exactly the batches later than the cutoff. */
  lemma {:induction false} PopOldKeeps(s: seq<Batch>, cutoff: int)
    ensures forall b :: b in PopOld(s, cutoff) <==> b in s && b.timestamp > cutoff
    ensures multiset(PopOld(s, cutoff)) <= multiset(s)
  {
    if s != [] {
      PopOldKeeps(s[..|s| - 1], cutoff);
      assert s == s[..|s| - 1] + [s[|s| - 1]];
    }
  }

  // ----- The short store within the long one -----

  /** A later cutoff leaves a subsequence of what an earlier one leaves. */
  lemma {:induction false} PopOldSubsequence(a: seq<Batch>, b: seq<Batch>, c: int, d: int)
    requires Subsequence(a, b) && d <= c
    ensures Subsequence(PopOld(a, c), PopOld(b, d))
    decreases |b|
  {
    hide Subsequence;
    if b == [] {
      NoLonger(a, b);
      EmptyWithinEmpty<Batch>();
    } else {
      var n := |b| - 1;
      SubsequenceSplits(a, b);
      assert b[n].timestamp <= d ==> PopOld(b, d) == PopOld(b[..n], d);
      if Subsequence(a, b[..n]) {
        PopOldSubsequence(a, b[..n], c, d);
        SubsequenceGrows(PopOld(a, c), PopOld(b[..n], d), b[n]);
      } else {
        PopOldSubsequence(a[..|a| - 1], b[..n], c, d);
        assert b[n].timestamp <= c ==> PopOld(a, c) == PopOld(a[..|a| - 1], c);
        SubsequenceGrows(PopOld(a[..|a| - 1], c), PopOld(b[..n], d), b[n]);
      }
    }
  }

  /**
   * With a short duration no longer than the long one, the short store's batches are among the long store's, in order.
   */
  lemma {:induction false} ShortWithinLong(exports: seq<Export>, short: int, long: int)
    requires short <= long
    ensures Subsequence(Retained(exports, short), Retained(exports, long))
  {
    hide Subsequence;
    if exports == [] {
      EmptyWithinEmpty<Batch>();
    } else {
      var n := |exports| - 1;
      ShortWithinLong(exports[..n], short, long);
      var a, b, last := Retained(exports[..n], short), Retained(exports[..n], long), exports[n];
      PopOldSubsequence(a, b, last.now - short, last.now - long);
      SubsequenceGrows(PopOld(a, last.now - short), PopOld(b, last.now - long), last.batch);
    }
  }
}
