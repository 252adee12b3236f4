/** metrics/sinks/metric/metric_sink.go:113-214: the answers to queries, point by point, over whole runs. */
module QueryAnswers {
  import opened Sums
  import opened Core
  import opened Sequences
  import opened Retention
  import opened Queries

  // ----- What one batch answers for one key -----

  /** The value of the metric, if the batch has it under the key and within the window. */
  ghost predicate ReadsMetric(ps: seq<Point>, b: Batch, q: Query, k: string) {
    if q.start <= b.timestamp && b.timestamp <= q.end && k in b.sets && q.metric in b.sets[k].values
    then ps == [Point(b.timestamp, b.sets[k].values[q.metric])]
    else ps == []
  }

  /** Only the integer of it, as a gauge. */
  ghost predicate ReadsInteger(ps: seq<Point>, b: Batch, q: Query, k: string) {
    if q.start <= b.timestamp && b.timestamp <= q.end && k in b.sets && q.metric in b.sets[k].values
    then ps == [Point(b.timestamp, MetricValue(b.sets[k].values[q.metric].intValue, 0.0, MetricGauge, ValueInt64))]
    else ps == []
  }

  ghost function Named(name: string, labels: map<string, string>): LabeledMetric -> bool {
    (x: LabeledMetric) => x.name == name && x.labels == labels
  }

  /** The points are those of the items at positions f: all of this name and with exactly these labels, in order. */
  ghost predicate ArePointsAt(f: seq<nat>, ps: seq<Point>, items: seq<LabeledMetric>, name: string,
        labels: map<string, string>, t: int) {
    && Picks(f, items, Named(name, labels)) && |ps| == |f|
    && forall i :: 0 <= i < |f| ==> f[i] < |items| && ps[i] == Point(t, items[f[i]].value)
  }

  ghost predicate ArePointsOf(ps: seq<Point>, items: seq<LabeledMetric>, name: string, labels: map<string, string>,
        t: int) {
    exists f: seq<nat> :: ArePointsAt(f, ps, items, name, labels, t)
  }

  ghost predicate ReadsLabeled(ps: seq<Point>, b: Batch, q: Query, labels: map<string, string>, k: string) {
    if q.start <= b.timestamp && b.timestamp <= q.end && k in b.sets
    then ArePointsOf(ps, b.sets[k].labeled, q.metric, labels, b.timestamp)
    else ps == []
  }

  // ----- What a run answers for one key -----

  /** What is read off a batch. */
  type Reading = (seq<Point>, Batch) -> bool

  /** Each of the parts is a reading of the batch. */
  ghost predicate AreReadings(parts: seq<seq<Point>>, b: Batch, reading: Reading) {
    forall c :: 0 <= c < |parts| ==> reading(parts[c], b)
  }

  /** One reading of the batch for each of n times, one after the other. */
  ghost predicate ReadTimes(ps: seq<Point>, b: Batch, n: nat, reading: Reading) {
    exists parts: seq<seq<Point>> :: |parts| == n && ps == Concat(parts) && AreReadings(parts, b, reading)
  }

  /** Each of the parts is what is read off its batch, n times. */
  ghost predicate AreParts(parts: seq<seq<Point>>, exports: seq<Export>, n: nat, reading: Reading) {
    |parts| == |exports| && forall i :: 0 <= i < |parts| ==> ReadTimes(parts[i], exports[i].batch, n, reading)
  }

  /** The points of all the batches exported, batch by batch. */
  ghost predicate ReadAll(ps: seq<Point>, exports: seq<Export>, n: nat, reading: Reading) {
    exists parts: seq<seq<Point>> :: ps == Concat(parts) && AreParts(parts, exports, n, reading)
  }

  /** The answer has every key asked for that has points, and only those. */
  ghost predicate Answers(answer: Answer, exports: seq<Export>, keys: seq<string>, reading: string -> Reading) {
    && (forall k :: k in answer ==> k in keys && answer[k] != [])
    && forall k :: k in keys ==>
         ReadAll(if k in answer then answer[k] else [], exports, multiset(keys)[k], reading(k))
  }

  ghost function Metric(q: Query): string -> Reading {
    (k: string) => (ps: seq<Point>, b: Batch) => ReadsMetric(ps, b, q, k)
  }

  ghost function Integer(q: Query): string -> Reading {
    (k: string) => (ps: seq<Point>, b: Batch) => ReadsInteger(ps, b, q, k)
  }

  ghost function Labeled(q: Query, labels: map<string, string>): string -> Reading {
    (k: string) => (ps: seq<Point>, b: Batch) => ReadsLabeled(ps, b, q, labels, k)
  }

  // ----- Proofs -----

  lemma {:induction false} CountIsMultiplicity(keys: seq<string>, k: string)
    ensures Count(keys, k) == multiset(keys)[k]
  {
    if keys != [] {
      var n := |keys| - 1;
      assert keys == keys[..n] + [keys[n]];
      CountIsMultiplicity(keys[..n], k);
    }
  }

  lemma {:induction false} RepeatReads(ps: seq<Point>, b: Batch, n: nat, reading: Reading)
      returns (parts: seq<seq<Point>>)
    requires reading(ps, b)
    ensures |parts| == n && Repeat(ps, n) == Concat(parts) && AreReadings(parts, b, reading)
  {
    parts := [];
    if n > 0 {
      parts := RepeatReads(ps, b, n - 1, reading);
      ConcatOne(parts, ps);
      parts := parts + [ps];
    }
  }

  lemma {:induction false} ScanReads(exports: seq<Export>, points: (Batch, string) -> seq<Point>, k: string, n: nat,
        reading: Reading) returns (parts: seq<seq<Point>>)
    requires forall b :: reading(points(b, k), b)
    ensures Scan(History(exports), points, k, n) == Concat(parts) && AreParts(parts, exports, n, reading)
  {
    hide ReadTimes, Repeat;
    parts := [];
    if exports != [] {
      var m := |exports| - 1;
      parts := ScanReads(exports[..m], points, k, n, reading);
      var last := exports[m].batch;
      var p := Repeat(points(last, k), n);
      ReadsTimes(points(last, k), last, n, reading);
      ConcatOne(parts, p);
      ScanOneMore(History(exports[..m]), last, points, k, n);
      OneMorePart(parts, exports, n, reading, p);
      parts := parts + [p];
    }
  }

  lemma ReadsTimes(ps: seq<Point>, b: Batch, n: nat, reading: Reading)
    requires reading(ps, b)
    ensures ReadTimes(Repeat(ps, n), b, n, reading)
  {
    var parts := RepeatReads(ps, b, n, reading);
  }

  lemma ScanOneMore(bs: seq<Batch>, b: Batch, points: (Batch, string) -> seq<Point>, k: string, n: nat)
    ensures Scan(bs + [b], points, k, n) == Scan(bs, points, k, n) + Repeat(points(b, k), n)
  {
    assert (bs + [b])[..|bs|] == bs;
  }

  lemma OneMorePart(parts: seq<seq<Point>>, exports: seq<Export>, n: nat, reading: Reading, p: seq<Point>)
    requires exports != [] && AreParts(parts, exports[..|exports| - 1], n, reading)
    requires ReadTimes(p, exports[|exports| - 1].batch, n, reading)
    ensures AreParts(parts + [p], exports, n, reading)
  {
    hide ReadTimes;
  }

  lemma {:induction false} ScannedAnswers(exports: seq<Export>, points: (Batch, string) -> seq<Point>,
        keys: seq<string>, reading: string -> Reading)
    requires forall b, k :: reading(k)(points(b, k), b)
    ensures Answers(Scanned(History(exports), points, keys), exports, keys, reading)
  {
    hide Scan, AreParts;
    var answer := Scanned(History(exports), points, keys);
    forall k | k in keys
      ensures ReadAll(if k in answer then answer[k] else [], exports, multiset(keys)[k], reading(k))
    {
      CountIsMultiplicity(keys, k);
      var parts := ScanReads(exports, points, k, Count(keys, k), reading(k));
    }
  }

  /** The labelled items found are the right ones. */
  lemma {:induction false} MatchingPicks(items: seq<LabeledMetric>, name: string, labels: map<string, string>, t: int)
      returns (f: seq<nat>)
    ensures ArePointsAt(f, Matching(items, name, labels, t), items, name, labels, t)
  {
    f := [];
    if items != [] {
      var n := |items| - 1;
      f := MatchingPicks(items[..n], name, labels, t);
      f := OneMoreMatch(f, Matching(items[..n], name, labels, t), items[..n], items[n], name, labels, t);
      assert items == items[..n] + [items[n]];
    }
  }

  lemma OneMoreMatch(f: seq<nat>, ps: seq<Point>, items: seq<LabeledMetric>, x: LabeledMetric, name: string,
        labels: map<string, string>, t: int) returns (g: seq<nat>)
    requires ArePointsAt(f, ps, items, name, labels, t)
    ensures ArePointsAt(g, ps + (if x.name == name && x.labels == labels then [Point(t, x.value)] else []),
                        items + [x], name, labels, t)
  {
    hide Picks;
    PicksNext(f, items, x, Named(name, labels));
    g := if x.name == name && x.labels == labels then f + [|items|] else f;
  }

  // ----- The three kinds of queries -----

  /** A metric that is not long-stored, for windows starting after the last short cutoff. */
  lemma {:induction false} ShortAnswers(c: Config, exports: seq<Export>, q: Query, keys: seq<string>)
    requires exports != [] && MonotoneClock(exports)
    requires q.metric !in c.longMetrics && q.start > exports[|exports| - 1].now - c.shortDuration
    ensures Answers(GetMetric(c, Run(c, exports), q, keys), exports, keys, Metric(q))
  {
    hide Answers, GetMetric, Run;
    ShortQueryMeaning(c, exports, q, keys);
    ScannedAnswers(exports, BatchPoints(q), keys, Metric(q));
  }

  /** A long-stored metric, for windows starting after the last long cutoff. */
  lemma {:induction false} LongAnswers(c: Config, exports: seq<Export>, q: Query, keys: seq<string>)
    requires exports != [] && MonotoneClock(exports)
    requires q.metric in c.longMetrics && q.start > exports[|exports| - 1].now - c.longDuration
    ensures Answers(GetMetric(c, Run(c, exports), q, keys), exports, keys, Integer(q))
  {
    hide Answers, GetMetric, Run;
    LongQueryMeaning(c, exports, q, keys);
    ScannedAnswers(exports, IntegerPoints(q), keys, Integer(q));
  }

  /** A labelled metric, for windows starting after the last short cutoff. */
  lemma {:induction false} LabeledAnswers(c: Config, exports: seq<Export>, q: Query, labels: map<string, string>,
        keys: seq<string>)
    requires exports != [] && MonotoneClock(exports)
    requires q.start > exports[|exports| - 1].now - c.shortDuration
    ensures Answers(GetLabeledMetric(Run(c, exports), q, labels, keys), exports, keys, Labeled(q, labels))
  {
    hide Answers, GetLabeledMetric, Run, ArePointsAt, Matching;
    LabeledQueryMeaning(c, exports, q, labels, keys);
    forall b: Batch, k: string
      ensures ReadsLabeled(LabeledPoints(q, labels)(b, k), b, q, labels, k)
    {
      if k in b.sets {
        var f := MatchingPicks(b.sets[k].labeled, q.metric, labels, b.timestamp);
        assert ArePointsOf(Matching(b.sets[k].labeled, q.metric, labels, b.timestamp), b.sets[k].labeled, q.metric,
                           labels, b.timestamp);
      }
    }
    ScannedAnswers(exports, LabeledPoints(q, labels), keys, Labeled(q, labels));
  }
}
