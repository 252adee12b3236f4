/** metrics/sinks/metric/metric_sink.go: the queries, against a plain scan of everything ever exported. */
module Queries {
  import opened Sums
  import opened Core
  import opened Retention

  /** TimestampedMetricValue. */
  datatype Point = Point(timestamp: int, value: MetricValue)

  type Answer = map<string, seq<Point>>

  function Count(keys: seq<string>, k: string): nat {
    if keys == [] then 0 else Count(keys[..|keys| - 1], k) + if keys[|keys| - 1] == k then 1 else 0
  }

  function Repeat(ps: seq<Point>, times: nat): seq<Point> {
    if times == 0 then [] else Repeat(ps, times - 1) + ps
  }

  /** The points found for key k, item by item, each as often as asked. */
  ghost function Scan<T>(items: seq<T>, points: (T, string) -> seq<Point>, k: string, times: nat): seq<Point> {
    if items == [] then []
    else Scan(items[..|items| - 1], points, k, times) + Repeat(points(items[|items| - 1], k), times)
  }

  /** The keys asked for that have points, with their points. */
  ghost function Scanned<T>(items: seq<T>, points: (T, string) -> seq<Point>, keys: seq<string>): Answer {
    map k | k in keys && Scan(items, points, k, Count(keys, k)) != [] :: Scan(items, points, k, Count(keys, k))
  }

  /** What is asked: a metric and a window, both ends included. */
  datatype Query = Query(metric: string, start: int, end: int) {
    predicate Covers(t: int) {
      start <= t <= end
    }
  }

  /** The metric of a set of a full batch, if in the window. */
  function BatchPoints(q: Query): (Batch, string) -> seq<Point> {
    (b: Batch, k: string) =>
      if q.Covers(b.timestamp) && k in b.sets && q.metric in b.sets[k].values
      then [Point(b.timestamp, b.sets[k].values[q.metric])]
      else []
  }

  /** The same from the long store, where only integers are kept. */
  function StorePoints(q: Query): (Store, string) -> seq<Point> {
    (s: Store, k: string) =>
      if q.Covers(s.timestamp) && q.metric in s.store && k in s.store[q.metric]
      then [Point(s.timestamp, IntValue(s.store[q.metric][k]))]
      else []
  }

  /** The labelled items with this name and these labels. */
  function Matching(items: seq<LabeledMetric>, name: string, labels: map<string, string>, t: int): seq<Point> {
    if items == [] then []
    else
      var x := items[|items| - 1];
      Matching(items[..|items| - 1], name, labels, t) +
      if x.name == name && x.labels == labels then [Point(t, x.value)] else []
  }

  function LabeledPoints(q: Query, labels: map<string, string>): (Batch, string) -> seq<Point> {
    (b: Batch, k: string) =>
      if q.Covers(b.timestamp) && k in b.sets then Matching(b.sets[k].labeled, q.metric, labels, b.timestamp) else []
  }

  /** What GetMetric answers from a state. */
  ghost function GetMetric(c: Config, s: State, q: Query, keys: seq<string>): Answer {
    if q.metric in c.longMetrics then Scanned(s.long, StorePoints(q), keys) else Scanned(s.short, BatchPoints(q), keys)
  }

  ghost function GetLabeledMetric(s: State, q: Query, labels: map<string, string>, keys: seq<string>): Answer {
    Scanned(s.short, LabeledPoints(q, labels), keys)
  }

  // ----- Against a scan of the history -----

  lemma {:induction false} NothingRepeated(times: nat)
    ensures Repeat([], times) == []
  {
    if times > 0 {
      NothingRepeated(times - 1);
    }
  }

  lemma {:induction false} ScanAppend<T>(a: seq<T>, b: seq<T>, points: (T, string) -> seq<Point>, k: string, times: nat)
    ensures Scan(a + b, points, k, times) == Scan(a, points, k, times) + Scan(b, points, k, times)
  {
    if b == [] {
      assert a + b == a;
    } else {
      assert (a + b)[..|a + b| - 1] == a + b[..|b| - 1];
      ScanAppend(a, b[..|b| - 1], points, k, times);
    }
  }

  /** Batches that hold no points may be popped. */
  lemma {:induction false} ScanPopped(s: seq<Batch>, cutoff: int, points: (Batch, string) -> seq<Point>, k: string,
        times: nat)
    requires forall b :: b in s && b.timestamp <= cutoff ==> points(b, k) == []
    ensures Scan(PopOld(s, cutoff), points, k, times) == Scan(s, points, k, times)
  {
    if s != [] {
      var n := |s| - 1;
      assert s == s[..n] + [s[n]];
      ScanPopped(s[..n], cutoff, points, k, times);
      NothingRepeated(times);
      if s[n].timestamp > cutoff {
        ScanAppend(PopOld(s[..n], cutoff), [s[n]], points, k, times);
        ScanAppend(s[..n], [s[n]], points, k, times);
      } else {
        assert PopOld(s, cutoff) == PopOld(s[..n], cutoff);
      }
    }
  }

  /** A scan of what is retained is a scan of the history, for points later than the last cutoff. */
  lemma ScanRetained(exports: seq<Export>, duration: int, points: (Batch, string) -> seq<Point>, k: string, times: nat)
    requires exports != [] && MonotoneClock(exports)
    requires forall b: Batch :: b.timestamp <= exports[|exports| - 1].now - duration ==> points(b, k) == []
    ensures Scan(Retained(exports, duration), points, k, times) == Scan(History(exports), points, k, times)
  {
    hide PopOld, Scan, Retained;
    var n := |exports| - 1;
    var before, last := History(exports[..n]), exports[n];
    RetainedIsOneFilter(exports, duration);
    ScanPopped(before, last.now - duration, points, k, times);
    ScanAppend(PopOld(before, last.now - duration), [last.batch], points, k, times);
    ScanAppend(before, [last.batch], points, k, times);
  }

  lemma ScannedRetained(exports: seq<Export>, duration: int, points: (Batch, string) -> seq<Point>, keys: seq<string>)
    requires exports != [] && MonotoneClock(exports)
    requires forall b: Batch, k: string :: b.timestamp <= exports[|exports| - 1].now - duration ==> points(b, k) == []
    ensures Scanned(Retained(exports, duration), points, keys) == Scanned(History(exports), points, keys)
  {
    hide Scan, Retained;
    forall k
      ensures Scan(Retained(exports, duration), points, k, Count(keys, k)) ==
              Scan(History(exports), points, k, Count(keys, k))
    {
      ScanRetained(exports, duration, points, k, Count(keys, k));
    }
  }

  /** The integer shown for a value that passed through the long store. */
  function AsInteger(v: MetricValue): MetricValue {
    IntValue(v.intValue)
  }

  function IntegerPoints(q: Query): (Batch, string) -> seq<Point> {
    (b: Batch, k: string) =>
      if q.Covers(b.timestamp) && k in b.sets && q.metric in b.sets[k].values
      then [Point(b.timestamp, AsInteger(b.sets[k].values[q.metric]))]
      else []
  }

  lemma ProjectedPoints(metrics: seq<string>, b: Batch, q: Query, k: string)
    requires q.metric in metrics
    ensures StorePoints(q)(Project(metrics, b), k) == IntegerPoints(q)(b, k)
  {}

  /** A scan of the long store reads the integers of the full batches. */
  lemma {:induction false} ScanProjected(metrics: seq<string>, bs: seq<Batch>, q: Query, k: string, times: nat)
    requires q.metric in metrics
    ensures Scan(ProjectAll(metrics, bs), StorePoints(q), k, times) == Scan(bs, IntegerPoints(q), k, times)
  {
    hide StorePoints, IntegerPoints, Project;
    if bs != [] {
      var n := |bs| - 1;
      ScanProjected(metrics, bs[..n], q, k, times);
      ProjectedPoints(metrics, bs[n], q, k);
      var s := ProjectAll(metrics, bs);
      assert s[..|s| - 1] == ProjectAll(metrics, bs[..n]);
    }
  }

  lemma ScannedProjected(metrics: seq<string>, bs: seq<Batch>, q: Query, keys: seq<string>)
    requires q.metric in metrics
    ensures Scanned(ProjectAll(metrics, bs), StorePoints(q), keys) == Scanned(bs, IntegerPoints(q), keys)
  {
    hide Scan, StorePoints, IntegerPoints, ProjectAll;
    forall k
      ensures Scan(ProjectAll(metrics, bs), StorePoints(q), k, Count(keys, k)) ==
              Scan(bs, IntegerPoints(q), k, Count(keys, k))
    {
      ScanProjected(metrics, bs, q, k, Count(keys, k));
    }
  }

  /**
   * For windows starting after the last long cutoff, a long-stored metric reads as the integers of the whole history.
   */
  lemma LongQueryMeaning(c: Config, exports: seq<Export>, q: Query, keys: seq<string>)
    requires exports != [] && MonotoneClock(exports)
    requires q.metric in c.longMetrics && q.start > exports[|exports| - 1].now - c.longDuration
    ensures GetMetric(c, Run(c, exports), q, keys) == Scanned(History(exports), IntegerPoints(q), keys)
  {
    hide Scanned, Run, ProjectAll, Retained;
    StoresRetain(c, exports);
    ScannedProjected(c.longMetrics, Retained(exports, c.longDuration), q, keys);
    ScannedRetained(exports, c.longDuration, IntegerPoints(q), keys);
  }

  /** Any other metric reads as in the whole history for windows starting after the last short cutoff. */
  lemma ShortQueryMeaning(c: Config, exports: seq<Export>, q: Query, keys: seq<string>)
    requires exports != [] && MonotoneClock(exports)
    requires q.metric !in c.longMetrics && q.start > exports[|exports| - 1].now - c.shortDuration
    ensures GetMetric(c, Run(c, exports), q, keys) == Scanned(History(exports), BatchPoints(q), keys)
  {
    hide Scanned, Run, ProjectAll, Retained;
    StoresRetain(c, exports);
    ScannedRetained(exports, c.shortDuration, BatchPoints(q), keys);
  }

  lemma LabeledQueryMeaning(c: Config, exports: seq<Export>, q: Query, labels: map<string, string>, keys: seq<string>)
    requires exports != [] && MonotoneClock(exports)
    requires q.start > exports[|exports| - 1].now - c.shortDuration
    ensures GetLabeledMetric(Run(c, exports), q, labels, keys) ==
            Scanned(History(exports), LabeledPoints(q, labels), keys)
  {
    hide Scanned, Run, ProjectAll, Retained, Matching;
    StoresRetain(c, exports);
    ScannedRetained(exports, c.shortDuration, LabeledPoints(q, labels), keys);
  }

  /** The batch holds the metric asked for under key k as an int64 gauge, if it holds it within the window. */
  predicate Gauge(q: Query, b: Batch, k: string) {
    q.Covers(b.timestamp) && k in b.sets && q.metric in b.sets[k].values ==>
      b.sets[k].values[q.metric] == AsInteger(b.sets[k].values[q.metric])
  }

  lemma {:induction false} RepeatLength(ps: seq<Point>, times: nat)
    ensures |Repeat(ps, times)| == times * |ps|
    ensures times > 0 ==> |Repeat(ps, times)| >= |ps| && Repeat(ps, times)[..|ps|] == ps
  {
    if times > 0 {
      RepeatLength(ps, times - 1);
      assert times * |ps| == (times - 1) * |ps| + |ps|;
      if times == 1 {
        assert Repeat(ps, 0) == [];
        assert Repeat(ps, 1) == ps;
      }
    }
  }

  /** The integers are the values themselves exactly when all the values in the window are int64 gauges. */
  lemma {:induction false} GaugesReadExactly(bs: seq<Batch>, q: Query, k: string, times: nat)
    requires times > 0
    ensures |Scan(bs, IntegerPoints(q), k, times)| == |Scan(bs, BatchPoints(q), k, times)|
    ensures Scan(bs, IntegerPoints(q), k, times) == Scan(bs, BatchPoints(q), k, times) <==>
            forall b :: b in bs ==> Gauge(q, b, k)
  {
    if bs != [] {
      var n := |bs| - 1;
      assert bs == bs[..n] + [bs[n]];
      GaugesReadExactly(bs[..n], q, k, times);
      LastReadsExactly(bs[n], q, k, times);
      SplitEqual(Scan(bs[..n], IntegerPoints(q), k, times), Repeat(IntegerPoints(q)(bs[n], k), times),
                 Scan(bs[..n], BatchPoints(q), k, times), Repeat(BatchPoints(q)(bs[n], k), times));
    }
  }

  lemma LastReadsExactly(b: Batch, q: Query, k: string, times: nat)
    requires times > 0
    ensures |Repeat(IntegerPoints(q)(b, k), times)| == |Repeat(BatchPoints(q)(b, k), times)|
    ensures Repeat(IntegerPoints(q)(b, k), times) == Repeat(BatchPoints(q)(b, k), times) <==> Gauge(q, b, k)
  {
    hide Repeat;
    var x, y := IntegerPoints(q)(b, k), BatchPoints(q)(b, k);
    RepeatLength(x, times);
    RepeatLength(y, times);
    assert |x| == |y|;
    assert x == y <==> Gauge(q, b, k) by {
      if |x| == 1 {
        assert x[0] == y[0] <==> Gauge(q, b, k);
      }
    }
  }

  lemma SplitEqual(a: seq<Point>, b: seq<Point>, c: seq<Point>, d: seq<Point>)
    requires |a| == |c| && |b| == |d|
    ensures a + b == c + d <==> a == c && b == d
  {
    if a + b == c + d {
      assert a == (a + b)[..|a|] && c == (c + d)[..|c|];
      assert b == (a + b)[|a|..] && d == (c + d)[|c|..];
    }
  }

  lemma {:induction false} CountPositive(keys: seq<string>, k: string)
    ensures Count(keys, k) > 0 <==> k in keys
  {
    if keys != [] {
      assert keys == keys[..|keys| - 1] + [keys[|keys| - 1]];
      CountPositive(keys[..|keys| - 1], k);
    }
  }

  /**
   * GetMetric on a long-stored metric is the naive scan of the history, each value repeated once per
   * occurrence of its key, exactly when the values asked for are int64 gauges.
   */
  lemma LongQueryIsNaiveScan(c: Config, exports: seq<Export>, q: Query, keys: seq<string>)
    requires exports != [] && MonotoneClock(exports)
    requires q.metric in c.longMetrics && q.start > exports[|exports| - 1].now - c.longDuration
    ensures GetMetric(c, Run(c, exports), q, keys) == Scanned(History(exports), BatchPoints(q), keys)
            <==> forall b, k :: b in History(exports) && k in keys ==> Gauge(q, b, k)
  {
    hide Run, GetMetric, Scan, Gauge;
    LongQueryMeaning(c, exports, q, keys);
    var h := History(exports);
    forall k | k in keys
      ensures Scan(h, IntegerPoints(q), k, Count(keys, k)) == Scan(h, BatchPoints(q), k, Count(keys, k))
              <==> forall b :: b in h ==> Gauge(q, b, k)
      ensures |Scan(h, IntegerPoints(q), k, Count(keys, k))| == |Scan(h, BatchPoints(q), k, Count(keys, k))|
    {
      CountPositive(keys, k);
      GaugesReadExactly(h, q, k, Count(keys, k));
    }
    ScannedEqual(h, IntegerPoints(q), BatchPoints(q), keys);
  }

  lemma ScannedEqual(bs: seq<Batch>, p: (Batch, string) -> seq<Point>, r: (Batch, string) -> seq<Point>,
        keys: seq<string>)
    requires forall k :: k in keys ==> |Scan(bs, p, k, Count(keys, k))| == |Scan(bs, r, k, Count(keys, k))|
    ensures Scanned(bs, p, keys) == Scanned(bs, r, keys) <==>
            forall k :: k in keys ==> Scan(bs, p, k, Count(keys, k)) == Scan(bs, r, k, Count(keys, k))
  {
    hide Scan;
    var x, y := Scanned(bs, p, keys), Scanned(bs, r, keys);
    if x == y {
      forall k | k in keys
        ensures Scan(bs, p, k, Count(keys, k)) == Scan(bs, r, k, Count(keys, k))
      {
        if k in x {
          assert x[k] == y[k];
        }
      }
    }
  }

  /** A long-stored metric that is a float. */
  function FloatExport(): Export {
    var value := MetricValue(0, 1.5, MetricGauge, ValueFloat);
    Export(10, Batch(10, map["k" := SetData(0, 0, 0, map["m" := value], map[], [])]))
  }

  /** Where it fails: a float in the long store is answered as the integer zero. */
  lemma FloatIsLost()
    ensures var c, exports, q := Config(5, 5, ["m"]), [FloatExport()], Query("m", 8, 12);
            && MonotoneClock(exports) && q.metric in c.longMetrics
            && q.start > exports[|exports| - 1].now - c.longDuration
            && GetMetric(c, Run(c, exports), q, ["k"]) != Scanned(History(exports), BatchPoints(q), ["k"])
  {
    hide Run, GetMetric, Scanned;
    var c, exports, q := Config(5, 5, ["m"]), [FloatExport()], Query("m", 8, 12);
    var b := FloatExport().batch;
    assert exports[..0] == [];
    assert History(exports) == [b];
    LongQueryIsNaiveScan(c, exports, q, ["k"]);
    assert b in History(exports) && "k" in ["k"] && !Gauge(q, b, "k");
  }
}
