/** metrics/sinks/metric/metric_sink.go as it runs: the two stores replaced on each export, the query loops. */
module MetricSinkImpl {
  import opened Sums
  import opened Core
  import Q = Queries
  import opened Retention
  import opened Queries

  // ----- Building answers -----

  ghost function Found(r: Answer, k: string): seq<Point> {
    if k in r then r[k] else []
  }

  ghost predicate Tidy(r: Answer) {
    forall k :: k in r ==> r[k] != []
  }

  function Append(r: Answer, k: string, ps: seq<Point>): Answer {
    if ps == [] then r else r[k := (if k in r then r[k] else []) + ps]
  }

  /** r grew to s by the item's points of each key, once per occurrence. */
  ghost predicate Extended<T>(r: Answer, s: Answer, keys: seq<string>, item: T, points: (T, string) -> seq<Point>) {
    Tidy(s) && forall k :: Found(s, k) == Found(r, k) + Repeat(points(item, k), Count(keys, k))
  }

  lemma NotExtended<T>(r: Answer, item: T, points: (T, string) -> seq<Point>)
    requires Tidy(r)
    ensures Extended(r, r, [], item, points)
  {}

  lemma ExtendedByOne<T>(r: Answer, s: Answer, keys: seq<string>, j: nat, item: T, points: (T, string) -> seq<Point>)
    requires j < |keys| && Extended(r, s, keys[..j], item, points)
    ensures Extended(r, Append(s, keys[j], points(item, keys[j])), keys[..j + 1], item, points)
  {
    hide Repeat, Count;
    var t := Append(s, keys[j], points(item, keys[j]));
    forall k
      ensures Found(t, k) == Found(r, k) + Repeat(points(item, k), Count(keys[..j + 1], k))
    {
      var c := Count(keys[..j], k);
      CountNext(keys, j, k);
      RepeatOnce(points(item, k), c);
      assert Found(s, k) == Found(r, k) + Repeat(points(item, k), c);
    }
  }

  lemma CountNext(keys: seq<string>, j: nat, k: string)
    requires j < |keys|
    ensures Count(keys[..j + 1], k) == Count(keys[..j], k) + if keys[j] == k then 1 else 0
  {
    assert keys[..j + 1][..j] == keys[..j];
  }

  lemma RepeatOnce(ps: seq<Point>, times: nat)
    ensures Repeat(ps, times + 1) == Repeat(ps, times) + ps
  {}

  /** The answer holds the points of the first i items. */
  ghost predicate ScannedTo<T>(r: Answer, items: seq<T>, i: nat, points: (T, string) -> seq<Point>, keys: seq<string>)
    requires i <= |items|
  {
    Tidy(r) && forall k :: Found(r, k) == Scan(items[..i], points, k, Count(keys, k))
  }

  lemma ScannedFurther<T>(r: Answer, s: Answer, items: seq<T>, i: nat, points: (T, string) -> seq<Point>,
        keys: seq<string>)
    requires i < |items| && ScannedTo(r, items, i, points, keys)
    requires Extended(r, s, keys, items[i], points)
    ensures ScannedTo(s, items, i + 1, points, keys)
  {
    assert items[..i + 1][..i] == items[..i];
  }

  /** Nothing is found for an item without points. */
  lemma ScannedPast<T>(r: Answer, items: seq<T>, i: nat, points: (T, string) -> seq<Point>, keys: seq<string>)
    requires i < |items| && ScannedTo(r, items, i, points, keys)
    requires forall k :: points(items[i], k) == []
    ensures ScannedTo(r, items, i + 1, points, keys)
  {
    assert items[..i + 1][..i] == items[..i];
    forall k
      ensures Found(r, k) == Scan(items[..i + 1], points, k, Count(keys, k))
    {
      NothingRepeated(Count(keys, k));
    }
  }

  lemma ScannedThrough<T>(r: Answer, items: seq<T>, points: (T, string) -> seq<Point>, keys: seq<string>)
    requires ScannedTo(r, items, |items|, points, keys)
    ensures r == Scanned(items, points, keys)
  {
    assert items[..|items|] == items;
    forall k
      ensures k in r <==> k in Scanned(items, points, keys)
      ensures k in r ==> r[k] == Scan(items, points, k, Count(keys, k))
    {
      assert Found(r, k) == Scan(items, points, k, Count(keys, k));
      CountPositive(keys, k);
      if k !in keys {
        UnaskedScansNothing(items, points, k);
      }
    }
  }

  lemma {:induction false} UnaskedScansNothing<T>(items: seq<T>, points: (T, string) -> seq<Point>, k: string)
    ensures Scan(items, points, k, 0) == []
  {
    if items != [] {
      UnaskedScansNothing(items[..|items| - 1], points, k);
    }
  }

  // ----- Building the long store's entries -----

  /** The projection of the sets done so far. */
  ghost predicate Gathered(store: map<string, map<string, int64>>, metrics: seq<string>, b: Batch, todo: set<string>) {
    && (forall m :: m in store <==> m in metrics)
    && forall m :: m in store ==> Column(store[m], b, m, todo)
  }

  ghost predicate Column(c: map<string, int64>, b: Batch, m: string, todo: set<string>) {
    forall k :: if k in b.sets && k !in todo && m in b.sets[k].values then k in c
        && c[k] == b.sets[k].values[m].intValue else k !in c
  }

  lemma GatheredAll(store: map<string, map<string, int64>>, metrics: seq<string>, b: Batch)
    requires Gathered(store, metrics, b, {})
    ensures Store(b.timestamp, store) == Project(metrics, b)
  {
    var p := Project(metrics, b).store;
    forall m | m in store
      ensures m in p && store[m] == p[m]
    {
      assert Column(store[m], b, m, {});
    }
    assert store == p;
  }

  method AddSet(store: map<string, map<string, int64>>, metrics: seq<string>, b: Batch, k: string,
        ghost todo: set<string>)
    returns (r: map<string, map<string, int64>>)
    requires Gathered(store, metrics, b, todo) && k in todo && k in b.sets
    ensures Gathered(r, metrics, b, todo - {k})
  {
    hide Column;
    r := store;
    var j := 0;
    while j < |metrics|
      invariant 0 <= j <= |metrics|
      invariant forall m :: m in r <==> m in metrics
      invariant forall m :: m in r ==> Column(r[m], b, m, if m in metrics[..j] then todo - {k} else todo)
    {
      var m := metrics[j];
      assert metrics[..j + 1] == metrics[..j] + [m];
      ColumnGrows(r[m], b, m, todo, k);
      if m in b.sets[k].values {
        r := r[m := r[m][k := b.sets[k].values[m].intValue]];
      }
      j := j + 1;
    }
    assert metrics[..j] == metrics;
  }

  lemma ColumnGrows(c: map<string, int64>, b: Batch, m: string, todo: set<string>, k: string)
    requires k in b.sets && (Column(c, b, m, todo) || Column(c, b, m, todo - {k}))
    ensures Column(if m in b.sets[k].values then c[k := b.sets[k].values[m].intValue] else c, b, m, todo - {k})
  {}

  lemma GatheredNone(store: map<string, map<string, int64>>, metrics: seq<string>, b: Batch)
    requires (forall m :: m in store <==> m in metrics) && forall m :: m in store ==> store[m] == map[]
    ensures Gathered(store, metrics, b, b.sets.Keys)
  {}

  method BuildMultimetricStore(metrics: seq<string>, b: Batch) returns (s: Store)
    ensures s == Project(metrics, b)
  {
    hide Project, Gathered;
    var store: map<string, map<string, int64>> := map[];
    var i := 0;
    while i < |metrics|
      invariant 0 <= i <= |metrics|
      invariant forall m :: m in store <==> m in metrics[..i]
      invariant forall m :: m in store ==> store[m] == map[]
    {
      store := store[metrics[i] := map[]];
      assert metrics[..i + 1] == metrics[..i] + [metrics[i]];
      i := i + 1;
    }
    assert metrics[..i] == metrics;
    GatheredNone(store, metrics, b);
    var todo := b.sets.Keys;
    while todo != {}
      invariant todo <= b.sets.Keys
      invariant Gathered(store, metrics, b, todo)
      decreases |todo|
    {
      var k :| k in todo;
      store := AddSet(store, metrics, b, k, todo);
      todo := todo - {k};
    }
    GatheredAll(store, metrics, b);
    s := Store(b.timestamp, store);
  }

  method PopOldBatches(storage: seq<Batch>, cutoff: int) returns (result: seq<Batch>)
    ensures result == PopOld(storage, cutoff)
  {
    result := [];
    for i := 0 to |storage|
      invariant result == PopOld(storage[..i], cutoff)
    {
      assert storage[..i + 1][..i] == storage[..i];
      if storage[i].timestamp > cutoff {
        result := result + [storage[i]];
      }
    }
    assert storage[..|storage|] == storage;
  }

  method PopOldStores(storages: seq<Store>, cutoff: int) returns (result: seq<Store>)
    ensures result == PopOldStore(storages, cutoff)
  {
    result := [];
    for i := 0 to |storages|
      invariant result == PopOldStore(storages[..i], cutoff)
    {
      assert storages[..i + 1][..i] == storages[..i];
      if storages[i].timestamp > cutoff {
        result := result + [storages[i]];
      }
    }
    assert storages[..|storages|] == storages;
  }

  /** The keys of one entry of the long store. */
  method ReadStore(s: Store, q: Query, keys: seq<string>, r: Answer) returns (t: Answer)
    requires Tidy(r) && q.Covers(s.timestamp)
    ensures Extended(r, t, keys, s, StorePoints(q))
  {
    hide Extended;
    t := r;
    NotExtended(r, s, StorePoints(q));
    var substore := if q.metric in s.store then s.store[q.metric] else map[];
    for j := 0 to |keys|
      invariant Extended(r, t, keys[..j], s, StorePoints(q))
    {
      ghost var before := t;
      if keys[j] in substore {
        t := Append(t, keys[j], [Point(s.timestamp, IntValue(substore[keys[j]]))]);
      }
      ExtendedByOne(r, before, keys, j, s, StorePoints(q));
    }
    assert keys[..|keys|] == keys;
  }

  /** The keys of one full batch. */
  method ReadBatch(b: Batch, q: Query, keys: seq<string>, r: Answer) returns (t: Answer)
    requires Tidy(r) && q.Covers(b.timestamp)
    ensures Extended(r, t, keys, b, BatchPoints(q))
  {
    hide Extended;
    t := r;
    NotExtended(r, b, BatchPoints(q));
    for j := 0 to |keys|
      invariant Extended(r, t, keys[..j], b, BatchPoints(q))
    {
      ghost var before := t;
      if keys[j] in b.sets && q.metric in b.sets[keys[j]].values {
        t := Append(t, keys[j], [Point(b.timestamp, b.sets[keys[j]].values[q.metric])]);
      }
      ExtendedByOne(r, before, keys, j, b, BatchPoints(q));
    }
    assert keys[..|keys|] == keys;
  }

  /** The labelled items of one set. */
  method ReadLabeled(items: seq<LabeledMetric>, name: string, labels: map<string, string>, t: int)
      returns (ps: seq<Point>)
    ensures ps == Matching(items, name, labels, t)
  {
    ps := [];
    for i := 0 to |items|
      invariant ps == Matching(items[..i], name, labels, t)
    {
      assert items[..i + 1][..i] == items[..i];
      if items[i].name == name {
        var match_ := LabelsMatch(items[i].labels, labels);
        if match_ {
          ps := ps + [Point(t, items[i].value)];
        }
      }
    }
    assert items[..|items|] == items;
  }

  /** As many labels, and each label asked for found with its value: the same labels. */
  method LabelsMatch(have: map<string, string>, labels: map<string, string>) returns (r: bool)
    ensures r <==> have == labels
  {
    r := |have| == |labels|;
    var todo := labels.Keys;
    while todo != {} && r
      invariant todo <= labels.Keys
      invariant r ==> |have| == |labels| && forall k :: k in labels && k !in todo ==> k in have && have[k] == labels[k]
      invariant !r ==> have != labels
      decreases |todo|
    {
      var k :| k in todo;
      r := k in have && have[k] == labels[k];
      todo := todo - {k};
    }
    if r {
      SameSize(labels.Keys, have.Keys);
    }
  }

  lemma {:induction false} SameSize(a: set<string>, b: set<string>)
    requires a <= b && |a| == |b|
    ensures a == b
  {
    if a != {} {
      var x :| x in a;
      SameSize(a - {x}, b - {x});
      assert b == (b - {x}) + {x} && a == (a - {x}) + {x};
    }
  }

  method ReadBatchLabeled(b: Batch, q: Query, labels: map<string, string>, keys: seq<string>, r: Answer)
      returns (t: Answer)
    requires Tidy(r) && q.Covers(b.timestamp)
    ensures Extended(r, t, keys, b, LabeledPoints(q, labels))
  {
    hide Extended, Matching;
    t := r;
    NotExtended(r, b, LabeledPoints(q, labels));
    for j := 0 to |keys|
      invariant Extended(r, t, keys[..j], b, LabeledPoints(q, labels))
    {
      ghost var before := t;
      if keys[j] in b.sets {
        var ps := ReadLabeled(b.sets[keys[j]].labeled, q.metric, labels, b.timestamp);
        t := Append(t, keys[j], ps);
      }
      ExtendedByOne(r, before, keys, j, b, LabeledPoints(q, labels));
    }
    assert keys[..|keys|] == keys;
  }

  class MetricSink {
    const longStoreMetrics: seq<string>
    const longStoreDuration: int
    const shortStoreDuration: int
    var shortStore: seq<Batch>
    var longStore: seq<Store>

    constructor (shortStoreDuration: int, longStoreDuration: int, longStoreMetrics: seq<string>)
      ensures Settings() == Config(shortStoreDuration, longStoreDuration, longStoreMetrics)
      ensures Contents() == Run(Settings(), [])
    {
      this.longStoreMetrics, this.longStoreDuration, this.shortStoreDuration := longStoreMetrics, longStoreDuration,
          shortStoreDuration;
      shortStore, longStore := [], [];
    }

    ghost function Settings(): Config {
      Config(shortStoreDuration, longStoreDuration, longStoreMetrics)
    }

    ghost function Contents(): State
      reads this
    {
      State(shortStore, longStore)
    }

    method ExportData(now: int, batch: Batch)
      modifies this
      ensures Contents() == Step(Settings(), old(Contents()), Export(now, batch))
    {
      var long := PopOldStores(longStore, now - longStoreDuration);
      var entry := BuildMultimetricStore(longStoreMetrics, batch);
      longStore := long + [entry];
      var short := PopOldBatches(shortStore, now - shortStoreDuration);
      shortStore := short + [batch];
    }

    method UsesLongStore(metric: string) returns (r: bool)
      ensures r <==> metric in longStoreMetrics
    {
      r := false;
      for i := 0 to |longStoreMetrics|
        invariant r <==> metric in longStoreMetrics[..i]
      {
        if longStoreMetrics[i] == metric {
          r := true;
        }
      }
    }

    method GetLong(q: Query, keys: seq<string>) returns (result: Answer)
      ensures result == Scanned(longStore, StorePoints(q), keys)
    {
      hide ScannedTo, Extended, Scanned;
      result := map[];
      NothingScanned(longStore, StorePoints(q), keys);
      for i := 0 to |longStore|
        invariant ScannedTo(result, longStore, i, StorePoints(q), keys)
        invariant Tidy(result)
      {
        ghost var before := result;
        if q.Covers(longStore[i].timestamp) {
          result := ReadStore(longStore[i], q, keys, result);
          ScannedFurther(before, result, longStore, i, StorePoints(q), keys);
        } else {
          ScannedPast(result, longStore, i, StorePoints(q), keys);
        }
        StaysTidy(result, longStore, i + 1, StorePoints(q), keys);
      }
      ScannedThrough(result, longStore, StorePoints(q), keys);
    }

    method GetShort(q: Query, keys: seq<string>) returns (result: Answer)
      ensures result == Scanned(shortStore, BatchPoints(q), keys)
    {
      hide ScannedTo, Extended, Scanned;
      result := map[];
      NothingScanned(shortStore, BatchPoints(q), keys);
      for i := 0 to |shortStore|
        invariant ScannedTo(result, shortStore, i, BatchPoints(q), keys)
        invariant Tidy(result)
      {
        ghost var before := result;
        if q.Covers(shortStore[i].timestamp) {
          result := ReadBatch(shortStore[i], q, keys, result);
          ScannedFurther(before, result, shortStore, i, BatchPoints(q), keys);
        } else {
          ScannedPast(result, shortStore, i, BatchPoints(q), keys);
        }
        StaysTidy(result, shortStore, i + 1, BatchPoints(q), keys);
      }
      ScannedThrough(result, shortStore, BatchPoints(q), keys);
    }

    method GetMetric(q: Query, keys: seq<string>) returns (result: Answer)
      ensures result == Q.GetMetric(Settings(), Contents(), q, keys)
    {
      hide Scanned;
      var useLongStore := UsesLongStore(q.metric);
      if useLongStore {
        result := GetLong(q, keys);
      } else {
        result := GetShort(q, keys);
      }
    }

    method GetLabeledMetric(q: Query, labels: map<string, string>, keys: seq<string>) returns (result: Answer)
      ensures result == Q.GetLabeledMetric(Contents(), q, labels, keys)
    {
      hide ScannedTo, Extended, Scanned, Matching;
      result := map[];
      NothingScanned(shortStore, LabeledPoints(q, labels), keys);
      for i := 0 to |shortStore|
        invariant ScannedTo(result, shortStore, i, LabeledPoints(q, labels), keys)
        invariant Tidy(result)
      {
        ghost var before := result;
        if q.Covers(shortStore[i].timestamp) {
          result := ReadBatchLabeled(shortStore[i], q, labels, keys, result);
          ScannedFurther(before, result, shortStore, i, LabeledPoints(q, labels), keys);
        } else {
          ScannedPast(result, shortStore, i, LabeledPoints(q, labels), keys);
        }
        StaysTidy(result, shortStore, i + 1, LabeledPoints(q, labels), keys);
      }
      ScannedThrough(result, shortStore, LabeledPoints(q, labels), keys);
    }
  }

  lemma NothingScanned<T>(items: seq<T>, points: (T, string) -> seq<Point>, keys: seq<string>)
    ensures ScannedTo(map[], items, 0, points, keys)
  {}

  lemma StaysTidy<T>(r: Answer, items: seq<T>, i: nat, points: (T, string) -> seq<Point>, keys: seq<string>)
    requires i <= |items| && ScannedTo(r, items, i, points, keys)
    ensures Tidy(r)
  {}
}
