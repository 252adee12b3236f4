/** The rate calculator over whole runs: batches in any order of timestamps, accepted and rejected. */
module RateRuns {
  import opened Sums
  import opened Core
  import opened Rates

  /** One call of Process: a batch, and the orders its loops happen to take. */
  datatype Call = Call(batch: Batch, orders: Orders)

  ghost predicate Possible(calls: seq<Call>, mapping: Mapping) {
    forall i :: 0 <= i < |calls| ==> AreOrders(calls[i].orders, calls[i].batch.sets, mapping)
  }

  /** The batch kept after n calls. */
  ghost function After(calls: seq<Call>, n: nat, mapping: Mapping): Previous
    requires n <= |calls| && Possible(calls, mapping)
  {
    if n == 0 then None
    else Next(After(calls, n - 1, mapping), calls[n - 1].batch, mapping, calls[n - 1].orders)
  }

  /** What call j returns. */
  ghost function Returned(calls: seq<Call>, j: nat, mapping: Mapping): Batch
    requires j < |calls| && Possible(calls, mapping)
  {
    Output(After(calls, j, mapping), calls[j].batch, mapping, calls[j].orders)
  }

  /** Call j brings a later timestamp than any call before it. */
  predicate Record(calls: seq<Call>, j: nat)
    requires j < |calls|
  {
    forall i :: 0 <= i < j ==> calls[i].batch.timestamp < calls[j].batch.timestamp
  }

  /** The latest record among the first n calls. */
  function Latest(calls: seq<Call>, n: nat): (r: nat)
    requires 0 < n <= |calls|
    ensures r < n && Record(calls, r)
    ensures forall i :: r < i < n ==> !Record(calls, i)
    ensures forall i :: 0 <= i < n ==> calls[i].batch.timestamp <= calls[r].batch.timestamp
  {
    if n == 1 || Record(calls, n - 1) then n - 1
    else
      assert exists i :: 0 <= i < n - 1 && calls[n - 1].batch.timestamp <= calls[i].batch.timestamp;
      Latest(calls, n - 1)
  }

  /** The batch kept is the one returned by the latest record. */
  lemma {:induction false} LatestIsKept(calls: seq<Call>, n: nat, mapping: Mapping)
    requires 0 < n <= |calls| && Possible(calls, mapping)
    ensures After(calls, n, mapping) == Some(Returned(calls, Latest(calls, n), mapping))
    decreases n, 0
  {
    hide Rated;
    if n > 1 {
      LatestIsKept(calls, n - 1, mapping);
      AcceptedAreRecords(calls, n - 1, mapping);
    }
  }

  /** A batch is accepted exactly when no call before brought its timestamp or a later one. */
  lemma {:induction false} AcceptedAreRecords(calls: seq<Call>, j: nat, mapping: Mapping)
    requires j < |calls| && Possible(calls, mapping)
    ensures Accepts(After(calls, j, mapping), calls[j].batch) <==> Record(calls, j)
    decreases j, 1
  {
    hide Rated;
    if j > 0 {
      LatestIsKept(calls, j, mapping);
    }
  }

  /** The timestamp of the batch kept grows at a record and stays otherwise. */
  lemma KeptTimestampGrows(calls: seq<Call>, n: nat, mapping: Mapping)
    requires 0 < n < |calls| && Possible(calls, mapping)
    ensures var p, q := After(calls, n, mapping), After(calls, n + 1, mapping);
            && p.Some? && q.Some?
            && (if Record(calls, n) then p.value.timestamp < q.value.timestamp else p == q)
  {
    hide Rated;
    LatestIsKept(calls, n, mapping);
    AcceptedAreRecords(calls, n, mapping);
  }

  /** What is kept of a set is what was given, as far as rates are read from it. */
  lemma KeptAsGiven(prev: Previous, b: Batch, mapping: Mapping, orders: Orders, k: string, m: string)
    requires AreOrders(orders, b.sets, mapping) && Sane(mapping) && m in mapping
    ensures var r := Output(prev, b, mapping, orders);
            && r.timestamp == b.timestamp && (k in r.sets <==> k in b.sets)
            && (k in b.sets ==>
                  && r.sets[k].scrapeTime == b.sets[k].scrapeTime
                  && r.sets[k].collectionStartTime == b.sets[k].collectionStartTime
                  && At(r.sets[k].values, m) == At(b.sets[k].values, m))
  {
    hide WithRates;
    if k in b.sets && prev.Some? && Accepts(prev, b) && k in prev.value.sets &&
       Comparable(b.sets[k], prev.value.sets[k]) {
      var dt := b.sets[k].scrapeTime - prev.value.sets[k].scrapeTime;
      IdentityKept(b.sets[k], prev.value.sets[k], mapping, orders[k], dt);
      SourcesKept(b.sets[k], prev.value.sets[k], mapping, orders[k], dt, m);
    }
  }

  /** Calls i and j, as given, let set k be rated. */
  predicate Rateable(calls: seq<Call>, i: nat, j: nat, k: string)
    requires i < |calls| && j < |calls|
  {
    && k in calls[i].batch.sets && k in calls[j].batch.sets
    && Comparable(calls[j].batch.sets[k], calls[i].batch.sets[k])
  }

  function Elapsed(calls: seq<Call>, i: nat, j: nat, k: string): (dt: int)
    requires i < |calls| && j < |calls| && Rateable(calls, i, j, k)
    ensures dt > 0
  {
    calls[j].batch.sets[k].scrapeTime - calls[i].batch.sets[k].scrapeTime
  }

  /** The rate of metric m of set k in call j, from the batches as given. */
  function RateGiven(calls: seq<Call>, j: nat, mapping: Mapping, k: string, m: string): Option<MetricValue>
    requires 0 < j < |calls| && m in mapping
  {
    var i := Latest(calls, j);
    if Record(calls, j) && Rateable(calls, i, j, k) then
      RateOf(m, mapping[m], calls[j].batch.sets[k].values, calls[i].batch.sets[k].values, Elapsed(calls, i, j, k))
    else None
  }

  /**
   * Rates over any run: call j reports the rate between its own batch and the latest record before it,
   * both as given; otherwise the set keeps what it had.
   */
  lemma RatesOverRuns(calls: seq<Call>, j: nat, mapping: Mapping, k: string, m: string)
    requires 0 < j < |calls| && Possible(calls, mapping) && Sane(mapping)
    requires m in mapping && !IsDisk(m) && k in calls[j].batch.sets
    ensures var r, t := RateGiven(calls, j, mapping, k, m), mapping[m].name;
            var d := calls[j].batch.sets[k].values;
            && k in Returned(calls, j, mapping).sets
            && At(Returned(calls, j, mapping).sets[k].values, t) == if r.Some? then r else At(d, t)
  {
    hide WithRates, RateOf, IsDisk, Sane;
    var i := Latest(calls, j);
    var prev := After(calls, j, mapping);
    LatestIsKept(calls, j, mapping);
    AcceptedAreRecords(calls, j, mapping);
    KeptAsGiven(After(calls, i, mapping), calls[i].batch, mapping, calls[i].orders, k, m);
    var d := calls[j].batch.sets[k];
    if Record(calls, j) && Rateable(calls, i, j, k) {
      var was := prev.value.sets[k];
      var dt := Elapsed(calls, i, j, k);
      RateReported(d, was, mapping, calls[j].orders[k], dt, m);
      SameOldRate(m, mapping[m], d.values, was.values, calls[i].batch.sets[k].values, dt);
    }
  }

  lemma SameOldRate(m: string, target: Target, now: map<string, MetricValue>, a: map<string, MetricValue>,
        b: map<string, MetricValue>, dt: int)
    requires dt > 0 && At(a, m) == At(b, m)
    ensures RateOf(m, target, now, a, dt) == RateOf(m, target, now, b, dt)
  {
    hide CpuRate, FloatRate;
  }

  // ----- Disk rates over runs -----

  /** Old items under other names are no predecessors. */
  lemma {:induction false} ForeignPredecessors(items: seq<LabeledMetric>, more: seq<LabeledMetric>, m: string,
        device: string)
    requires forall x :: x in more ==> x.name != m
    ensures Predecessor(items + more, m, device) == Predecessor(items, m, device)
  {
    if items == [] {
      NoPredecessor(more, m, device);
      assert items + more == more;
    } else {
      assert (items + more)[1..] == items[1..] + more;
      ForeignPredecessors(items[1..], more, m, device);
    }
  }

  lemma {:induction false} NoPredecessor(items: seq<LabeledMetric>, m: string, device: string)
    requires forall x :: x in items ==> x.name != m
    ensures Predecessor(items, m, device).None?
  {
    if items != [] {
      NoPredecessor(items[1..], m, device);
    }
  }

  lemma {:induction false} SameDiskRates(m: string, target: Target, items: seq<LabeledMetric>, n: nat,
        was: seq<LabeledMetric>, more: seq<LabeledMetric>, dt: int)
    requires dt > 0 && n <= |items| && forall x :: x in more ==> x.name != m
    ensures DiskRates(m, target, items, n, was + more, dt) == DiskRates(m, target, items, n, was, dt)
  {
    hide FloatRate, Predecessor;
    if n > 0 {
      SameDiskRates(m, target, items, n - 1, was, more, dt);
      ForeignPredecessors(was, more, m, Get(items[n - 1].labels, RESOURCE_ID));
    }
  }

  lemma {:induction false} SameAllDiskRates(disks: seq<string>, mapping: Mapping, items: seq<LabeledMetric>,
        was: seq<LabeledMetric>, more: seq<LabeledMetric>, dt: int)
    requires dt > 0 && (forall m :: m in disks ==> m in mapping) && forall x :: x in more ==> x.name !in mapping
    ensures AllDiskRates(disks, mapping, items, was + more, dt) == AllDiskRates(disks, mapping, items, was, dt)
  {
    hide DiskRates;
    if disks != [] {
      var n := |disks| - 1;
      SameAllDiskRates(disks[..n], mapping, items, was, more, dt);
      SameDiskRates(disks[n], mapping[disks[n]], items, |items|, was, more, dt);
    }
  }

  /** The labelled list kept is the one given followed by items that are not turned into rates. */
  lemma LabeledKept(prev: Previous, b: Batch, mapping: Mapping, orders: Orders, k: string)
      returns (more: seq<LabeledMetric>)
    requires AreOrders(orders, b.sets, mapping) && Sane(mapping) && k in b.sets
    ensures var r := Output(prev, b, mapping, orders);
            && k in r.sets && r.sets[k].labeled == b.sets[k].labeled + more
            && r.sets[k].scrapeTime == b.sets[k].scrapeTime
            && r.sets[k].collectionStartTime == b.sets[k].collectionStartTime
    ensures forall x :: x in more ==> x.name !in mapping
  {
    hide WithRates, AllDiskRates, DiskOrder;
    more := [];
    var d := b.sets[k];
    if prev.Some? && Accepts(prev, b) && k in prev.value.sets && Comparable(d, prev.value.sets[k]) {
      var was, dt := prev.value.sets[k], d.scrapeTime - prev.value.sets[k].scrapeTime;
      IdentityKept(d, was, mapping, orders[k], dt);
      DiskRatesAppended(d, was, mapping, orders[k], dt);
      more := AllDiskRates(DiskOrder(orders[k]), mapping, d.labeled, was.labeled, dt);
      forall m | m in mapping
        ensures forall x :: x in more ==> x.name != m
      {
        AllDiskRateNames(DiskOrder(orders[k]), mapping, d.labeled, was.labeled, dt, m);
      }
    } else {
      assert d.labeled + more == d.labeled;
    }
  }

  /** The disk rates of set k in call j, from the batches as given. */
  function DiskRatesGiven(calls: seq<Call>, j: nat, mapping: Mapping, k: string): seq<LabeledMetric>
    requires 0 < j < |calls| && k in calls[j].batch.sets && k in calls[j].orders
    requires forall m :: m in DiskOrder(calls[j].orders[k]) ==> m in mapping
  {
    var i := Latest(calls, j);
    if Record(calls, j) && Rateable(calls, i, j, k) then
      AllDiskRates(DiskOrder(calls[j].orders[k]), mapping, calls[j].batch.sets[k].labeled,
          calls[i].batch.sets[k].labeled, Elapsed(calls, i, j, k))
    else []
  }

  /** Disk rates over any run: the labelled list of the batch given, then the rates against the latest record before. */
  lemma DiskRatesOverRuns(calls: seq<Call>, j: nat, mapping: Mapping, k: string)
    requires 0 < j < |calls| && Possible(calls, mapping) && Sane(mapping) && k in calls[j].batch.sets
    ensures forall m :: m in DiskOrder(calls[j].orders[k]) ==> m in mapping
    ensures && k in Returned(calls, j, mapping).sets
            && Returned(calls, j, mapping).sets[k].labeled ==
               calls[j].batch.sets[k].labeled + DiskRatesGiven(calls, j, mapping, k)
  {
    hide WithRates, AllDiskRates, Sane, DiskOrder;
    var i := Latest(calls, j);
    var prev := After(calls, j, mapping);
    LatestIsKept(calls, j, mapping);
    AcceptedAreRecords(calls, j, mapping);
    DisksMapped(calls[j].orders[k], mapping);
    KeyKept(After(calls, i, mapping), calls[i].batch, mapping, calls[i].orders, k);
    var d := calls[j].batch.sets[k];
    if Record(calls, j) && k in calls[i].batch.sets {
      var more := LabeledKept(After(calls, i, mapping), calls[i].batch, mapping, calls[i].orders, k);
      var was := prev.value.sets[k];
      if Rateable(calls, i, j, k) {
        DiskRatesAppended(d, was, mapping, calls[j].orders[k], Elapsed(calls, i, j, k));
        SameAllDiskRates(DiskOrder(calls[j].orders[k]), mapping, d.labeled, calls[i].batch.sets[k].labeled, more,
            Elapsed(calls, i, j, k));
      }
    }
  }

  lemma KeyKept(prev: Previous, b: Batch, mapping: Mapping, orders: Orders, k: string)
    requires AreOrders(orders, b.sets, mapping)
    ensures k in Output(prev, b, mapping, orders).sets <==> k in b.sets
  {
    hide RatedSet;
  }

  /** A rejected or first batch is returned as it was. */
  lemma RejectedUntouched(calls: seq<Call>, j: nat, mapping: Mapping)
    requires j < |calls| && Possible(calls, mapping) && (j == 0 || !Record(calls, j))
    ensures Returned(calls, j, mapping) == calls[j].batch
  {
    hide Rated;
    AcceptedAreRecords(calls, j, mapping);
  }

  // ----- Integrating rates -----

  /** Call j carries counter m of set k. */
  predicate Has(calls: seq<Call>, j: nat, k: string, m: string)
    requires j < |calls|
  {
    k in calls[j].batch.sets && m in calls[j].batch.sets[k].values
  }

  function Counter(calls: seq<Call>, j: nat, k: string, m: string): int64
    requires j < |calls| && Has(calls, j, k, m)
  {
    calls[j].batch.sets[k].values[m].intValue
  }

  /** From call i to call j the counter ran on: same start, scraped later. */
  predicate RanOn(calls: seq<Call>, i: nat, j: nat, k: string, m: string)
    requires i < |calls| && j < |calls|
  {
    Has(calls, i, k, m) && Has(calls, j, k, m) && Rateable(calls, i, j, k)
  }

  /** Every accepted batch carries the counter on from the accepted batch before; nothing is asked of the rejected. */
  predicate Steady(calls: seq<Call>, k: string, m: string) {
    && (|calls| > 0 ==> Has(calls, 0, k, m))
    && forall j :: 0 < j < |calls| && Record(calls, j) ==> RanOn(calls, Latest(calls, j), j, k, m)
  }

  function Gain(calls: seq<Call>, j: nat, k: string, m: string): int
    requires 0 < j < |calls| && RanOn(calls, Latest(calls, j), j, k, m)
  {
    Counter(calls, j, k, m) - Counter(calls, Latest(calls, j), k, m)
  }

  lemma LatestHas(calls: seq<Call>, n: nat, k: string, m: string)
    requires 0 < n <= |calls| && Steady(calls, k, m)
    ensures Has(calls, Latest(calls, n), k, m)
  {
    var r := Latest(calls, n);
    if r > 0 {
      assert RanOn(calls, Latest(calls, r), r, k, m);
    }
  }

  /** The value call j returned for metric t of set k. */
  ghost function Emitted(calls: seq<Call>, j: nat, mapping: Mapping, k: string, t: string): Option<MetricValue>
    requires j < |calls| && Possible(calls, mapping)
  {
    var r := Returned(calls, j, mapping);
    if k in r.sets then At(r.sets[k].values, t) else None
  }

  /** A rate is emitted for every record but the first. */
  lemma RateEmitted(calls: seq<Call>, j: nat, mapping: Mapping, k: string, m: string)
    requires 0 < j < |calls| && Possible(calls, mapping) && Sane(mapping) && m in mapping && !IsDisk(m)
    requires Record(calls, j) && RanOn(calls, Latest(calls, j), j, k, m)
    requires m == CPU_USAGE || mapping[m].valueType == ValueFloat
    ensures var i := Latest(calls, j);
            var dt := Elapsed(calls, i, j, k);
            Emitted(calls, j, mapping, k, mapping[m].name) ==
            Some(if m == CPU_USAGE then CpuRate(Counter(calls, j, k, m), Counter(calls, i, k, m), dt)
                 else FloatRate(Counter(calls, j, k, m), Counter(calls, i, k, m), dt))
  {
    hide IsDisk, Sane, Possible, Returned, CpuRate, FloatRate;
    RatesOverRuns(calls, j, mapping, k, m);
  }

  // ----- The cpu rate -----

  /** The counter does not decrease between accepted batches, and 1000 times its gain fits an int64. */
  predicate Climbs(calls: seq<Call>, k: string) {
    forall j :: 0 < j < |calls| && Record(calls, j) && RanOn(calls, Latest(calls, j), j, k, CPU_USAGE) ==>
      0 <= 1000 * Gain(calls, j, k, CPU_USAGE) < 0x8000_0000_0000_0000
  }

  ghost function Millicores(calls: seq<Call>, j: nat, mapping: Mapping, k: string): int
    requires j < |calls| && Possible(calls, mapping) && CPU_USAGE in mapping
  {
    var r := Emitted(calls, j, mapping, k, mapping[CPU_USAGE].name);
    if r.Some? then r.value.intValue else 0
  }

  /** The emitted rates, each raised by extra, times the time they stand for, over the records of the first n calls. */
  ghost function Integral(calls: seq<Call>, n: nat, mapping: Mapping, k: string, extra: int): int
    requires n <= |calls| && Possible(calls, mapping) && CPU_USAGE in mapping && Steady(calls, k, CPU_USAGE)
  {
    if n <= 1 then 0
    else
      var j := n - 1;
      Integral(calls, j, mapping, k, extra) +
      if Record(calls, j) then
        (assert RanOn(calls, Latest(calls, j), j, k, CPU_USAGE);
         (Millicores(calls, j, mapping, k) + extra) * Elapsed(calls, Latest(calls, j), j, k))
      else 0
  }

  lemma {:induction false} TimesAtLeast(q: nat, dt: int)
    requires dt > 0
    ensures q <= q * dt
  {
    if q > 0 {
      TimesAtLeast(q - 1, dt);
      assert q * dt == (q - 1) * dt + dt;
    }
  }

  lemma DivShrinks(x: nat, dt: int)
    requires dt > 0
    ensures 0 <= x / dt <= x
  {
    var q: nat := x / dt;
    TimesAtLeast(q, dt);
    assert q * dt + x % dt == x;
  }

  lemma QuotientInRange(a: int64, b: int64, dt: int)
    requires dt > 0 && 0 <= 1000 * (a - b) < 0x8000_0000_0000_0000
    ensures CpuRate(a, b, dt).intValue == 1000 * (a - b) / dt
  {
    hide Wrap64;
    DivShrinks(1000 * (a - b), dt);
  }

  lemma Truncation(x: int, dt: int)
    requires x >= 0 && dt > 0
    ensures (x / dt) * dt <= x < (x / dt + 1) * dt
  {}

  /** One more accepted batch: its rate, truncated, stands for the gain since the one before. */
  lemma OneMoreRecord(calls: seq<Call>, j: nat, mapping: Mapping, k: string)
    requires 0 < j < |calls| && Possible(calls, mapping) && Sane(mapping) && CPU_USAGE in mapping
    requires Steady(calls, k, CPU_USAGE)
    requires Record(calls, j) && RanOn(calls, Latest(calls, j), j, k, CPU_USAGE)
    requires 0 <= 1000 * Gain(calls, j, k, CPU_USAGE) < 0x8000_0000_0000_0000
    ensures var gain := 1000 * Gain(calls, j, k, CPU_USAGE);
            && Integral(calls, j + 1, mapping, k, 0) <= Integral(calls, j, mapping, k, 0) + gain
            && Integral(calls, j + 1, mapping, k, 1) > Integral(calls, j, mapping, k, 1) + gain
  {
    hide Returned, Emitted, Possible, Sane, Record, Rateable, Elapsed, Steady, CpuRate;
    var i := Latest(calls, j);
    RateEmitted(calls, j, mapping, k, CPU_USAGE);
    QuotientInRange(Counter(calls, j, k, CPU_USAGE), Counter(calls, i, k, CPU_USAGE), Elapsed(calls, i, j, k));
    Truncation(1000 * Gain(calls, j, k, CPU_USAGE), Elapsed(calls, i, j, k));
  }

  /**
   * Integrating the emitted rates over any run recovers the usage counted from the first batch to the
   * latest accepted one to within one millicore, whatever rejected batches come in between.
   */
  lemma {:induction false} IntegralRecoversUsage(calls: seq<Call>, n: nat, mapping: Mapping, k: string)
    requires 0 < n <= |calls| && Possible(calls, mapping) && Sane(mapping) && CPU_USAGE in mapping
    requires Steady(calls, k, CPU_USAGE) && Climbs(calls, k)
    ensures var last := Latest(calls, n);
            && Has(calls, last, k, CPU_USAGE)
            && var used := 1000 * (Counter(calls, last, k, CPU_USAGE) - Counter(calls, 0, k, CPU_USAGE));
               && Integral(calls, n, mapping, k, 0) <= used <= Integral(calls, n, mapping, k, 1)
               && (last > 0 ==> used < Integral(calls, n, mapping, k, 1))
  {
    hide Millicores, Possible, Sane, Elapsed;
    LatestHas(calls, n, k, CPU_USAGE);
    if n > 1 {
      var j := n - 1;
      IntegralRecoversUsage(calls, j, mapping, k);
      if Record(calls, j) {
        assert RanOn(calls, Latest(calls, j), j, k, CPU_USAGE);
        OneMoreRecord(calls, j, mapping, k);
      }
    }
  }

  // ----- The other rates -----

  ghost function PerSecond(calls: seq<Call>, j: nat, mapping: Mapping, k: string, m: string): real
    requires j < |calls| && Possible(calls, mapping) && m in mapping
  {
    var r := Emitted(calls, j, mapping, k, mapping[m].name);
    if r.Some? then r.value.floatValue else 0.0
  }

  /** The emitted rates times the nanoseconds they stand for, over the records of the first n calls. */
  ghost function FloatIntegral(calls: seq<Call>, n: nat, mapping: Mapping, k: string, m: string): real
    requires n <= |calls| && Possible(calls, mapping) && m in mapping && Steady(calls, k, m)
  {
    if n <= 1 then 0.0
    else
      var j := n - 1;
      FloatIntegral(calls, j, mapping, k, m) +
      if Record(calls, j) then
        (assert RanOn(calls, Latest(calls, j), j, k, m);
         PerSecond(calls, j, mapping, k, m) * Elapsed(calls, Latest(calls, j), j, k) as real)
      else 0.0
  }

  /** The difference of two counters fits an int64. */
  predicate NoOverflow(calls: seq<Call>, k: string, m: string) {
    forall j :: 0 < j < |calls| && Record(calls, j) && RanOn(calls, Latest(calls, j), j, k, m) ==>
      -0x8000_0000_0000_0000 <= Gain(calls, j, k, m) < 0x8000_0000_0000_0000
  }

  lemma FloatRateTimesTime(a: int64, b: int64, dt: int)
    requires dt > 0 && -0x8000_0000_0000_0000 <= a - b < 0x8000_0000_0000_0000
    ensures FloatRate(a, b, dt).floatValue * dt as real == 1000000000.0 * (a - b) as real
  {
    hide Wrap64;
    var x, y := 1000000000.0 * (a - b) as real, dt as real;
    assert x / y * y == x;
  }

  lemma Telescopes(a: int, b: int, c: int)
    ensures 1000000000.0 * (a - b) as real + 1000000000.0 * (b - c) as real == 1000000000.0 * (a - c) as real
  {}

  lemma OneMoreFloatRecord(calls: seq<Call>, j: nat, mapping: Mapping, k: string, m: string)
    requires 0 < j < |calls| && Possible(calls, mapping) && Sane(mapping)
    requires m in mapping && !IsDisk(m) && m != CPU_USAGE && mapping[m].valueType == ValueFloat
    requires Steady(calls, k, m) && Record(calls, j) && RanOn(calls, Latest(calls, j), j, k, m)
    requires -0x8000_0000_0000_0000 <= Gain(calls, j, k, m) < 0x8000_0000_0000_0000
    ensures FloatIntegral(calls, j + 1, mapping, k, m) ==
            FloatIntegral(calls, j, mapping, k, m) + 1000000000.0 * Gain(calls, j, k, m) as real
  {
    hide Returned, Emitted, Possible, Sane, Record, Rateable, Elapsed, Steady, FloatRate, IsDisk;
    var i := Latest(calls, j);
    RateEmitted(calls, j, mapping, k, m);
    FloatRateTimesTime(Counter(calls, j, k, m), Counter(calls, i, k, m), Elapsed(calls, i, j, k));
  }

  /** Integrating any other emitted rate over any run gives back exactly what was counted, in seconds, up or down. */
  lemma {:induction false} FloatIntegralRecoversCount(calls: seq<Call>, n: nat, mapping: Mapping, k: string, m: string)
    requires 0 < n <= |calls| && Possible(calls, mapping) && Sane(mapping)
    requires m in mapping && !IsDisk(m) && m != CPU_USAGE && mapping[m].valueType == ValueFloat
    requires Steady(calls, k, m) && NoOverflow(calls, k, m)
    ensures var last := Latest(calls, n);
            && Has(calls, last, k, m)
            && FloatIntegral(calls, n, mapping, k, m) ==
               1000000000.0 * (Counter(calls, last, k, m) - Counter(calls, 0, k, m)) as real
  {
    hide PerSecond, Possible, Sane, Elapsed, FloatRate, IsDisk;
    LatestHas(calls, n, k, m);
    if n > 1 {
      var j := n - 1;
      FloatIntegralRecoversCount(calls, j, mapping, k, m);
      if Record(calls, j) {
        assert RanOn(calls, Latest(calls, j), j, k, m);
        OneMoreFloatRecord(calls, j, mapping, k, m);
        Telescopes(Counter(calls, j, k, m), Counter(calls, Latest(calls, j), k, m), Counter(calls, 0, k, m));
      }
    }
  }
}
