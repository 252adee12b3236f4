/** metrics/processors/rate_calculator.go: counters of two batches turned into rates. */
module Rates {
  import opened Sums
  import opened Core

  const CPU_USAGE := "cpu/usage"
  const DISK_READ := "disk/io_read_bytes"
  const DISK_WRITE := "disk/io_write_bytes"

  /** The metric a rate is reported as. */
  datatype Target = Target(name: string, valueType: ValueType)

  type Mapping = map<string, Target>

  predicate IsDisk(m: string) {
    m == DISK_READ || m == DISK_WRITE
  }

  /** Go's division of integers: towards zero. */
  function GoDiv(a: int, b: int): int
    requires b > 0
  {
    if a >= 0 then a / b else -((-a) / b)
  }

  /** It leaves a remainder smaller than the divisor, of the sign of what is divided. */
  lemma GoDivTruncates(a: int, b: int)
    requires b > 0
    ensures var r := a - GoDiv(a, b) * b; -b < r < b && (a >= 0 ==> r >= 0) && (a <= 0 ==> r <= 0)
  {
    var n := if a >= 0 then a else -a;
    assert n == n / b * b + n % b;
  }

  /** Millicores from nanoseconds of cpu, in int64 arithmetic. */
  function CpuRate(a: int64, b: int64, dt: int): MetricValue
    requires dt > 0
  {
    IntValue(Wrap64(GoDiv(Wrap64(1000 * Wrap64(a - b)), dt)))
  }

  /** Units per second, as a float. */
  function FloatRate(a: int64, b: int64, dt: int): MetricValue
    requires dt > 0
  {
    MetricValue(0, 1000000000.0 * (Wrap64(a - b) as real) / (dt as real), MetricGauge, ValueFloat)
  }

  /** The rate of metric m, if both sets have it and it is reported. */
  function RateOf(m: string, target: Target, now: map<string, MetricValue>, was: map<string, MetricValue>,
        dt: int): Option<MetricValue>
    requires dt > 0
  {
    if m !in now || m !in was then None
    else if m == CPU_USAGE then Some(CpuRate(now[m].intValue, was[m].intValue, dt))
    else if target.valueType == ValueFloat then Some(FloatRate(now[m].intValue, was[m].intValue, dt))
    else None
  }

  /** The first item of the old list with this name and device. */
  function Predecessor(items: seq<LabeledMetric>, name: string, device: string): Option<LabeledMetric> {
    if items == [] then None
    else if items[0].name == name && Get(items[0].labels, RESOURCE_ID) == device then Some(items[0])
    else Predecessor(items[1..], name, device)
  }

  /** The rates of disk metric m for the first n items of a list. */
  function DiskRates(m: string, target: Target, items: seq<LabeledMetric>, n: nat, was: seq<LabeledMetric>,
        dt: int): seq<LabeledMetric>
    requires dt > 0 && n <= |items|
  {
    if n == 0 then []
    else
      var before := DiskRates(m, target, items, n - 1, was, dt);
      var item := items[n - 1];
      if item.name != m then before
      else
        var old_ := Predecessor(was, m, Get(item.labels, RESOURCE_ID));
        if old_.None? || target.valueType != ValueFloat then before
        else before +
             [LabeledMetric(target.name, item.labels, FloatRate(item.value.intValue, old_.value.value.intValue, dt))]
  }

  /** One metric of the mapping worked out for one set. */
  function WithRate(d: SetData, was: SetData, m: string, target: Target, dt: int): SetData
    requires dt > 0
  {
    if IsDisk(m) then d.(labeled := d.labeled + DiskRates(m, target, d.labeled, |d.labeled|, was.labeled, dt))
    else
      var r := RateOf(m, target, d.values, was.values, dt);
      if r.None? then d else d.(values := d.values[target.name := r.value])
  }

  function WithRates(d: SetData, was: SetData, mapping: Mapping, order: seq<string>, dt: int): SetData
    requires dt > 0 && forall m :: m in order ==> m in mapping
  {
    if order == [] then d
    else
      var m := order[|order| - 1];
      WithRate(WithRates(d, was, mapping, order[..|order| - 1], dt), was, m, mapping[m], dt)
  }

  /** Rates are worked out for a set scraped strictly later, since the same start. */
  predicate Comparable(d: SetData, was: SetData) {
    d.scrapeTime > was.scrapeTime && d.collectionStartTime == was.collectionStartTime
  }

  /** The order in which the mapping is gone through for each set. */
  type Orders = map<string, seq<string>>

  ghost predicate AreOrders(orders: Orders, v: View, mapping: Mapping) {
    forall k :: k in v ==> k in orders && IsOrder(orders[k], mapping)
  }

  function RatedSet(d: SetData, was: View, k: string, mapping: Mapping, order: seq<string>): SetData
    requires forall m :: m in order ==> m in mapping
  {
    if k in was && Comparable(d, was[k]) then WithRates(d, was[k], mapping, order, d.scrapeTime - was[k].scrapeTime)
    else d
  }

  function Rated(v: View, was: View, mapping: Mapping, orders: Orders): View
    requires AreOrders(orders, v, mapping)
  {
    map k | k in v :: RatedSet(v[k], was, k, mapping, orders[k])
  }

  /** The calculator between two calls: the batch it last accepted. */
  type Previous = Option<Batch>

  predicate Accepts(prev: Previous, b: Batch) {
    prev.None? || b.timestamp > prev.value.timestamp
  }

  /** The batch as Process returns it. */
  function Output(prev: Previous, b: Batch, mapping: Mapping, orders: Orders): Batch
    requires AreOrders(orders, b.sets, mapping)
  {
    if prev.None? || !Accepts(prev, b) then b
    else b.(sets := Rated(b.sets, prev.value.sets, mapping, orders))
  }

  function Next(prev: Previous, b: Batch, mapping: Mapping, orders: Orders): Previous
    requires AreOrders(orders, b.sets, mapping)
  {
    if Accepts(prev, b) then Some(Output(prev, b, mapping, orders)) else prev
  }

  // ----- The mapping Heapster sets up -----

  const COUNTERS: set<string> := {
    CPU_USAGE, "memory/page_faults", "memory/major_page_faults",
    "network/rx", "network/rx_errors", "network/tx", "network/tx_errors", DISK_READ, DISK_WRITE}

  /** Each counter's rate is reported under its name and "_rate". */
  function Suffixed(names: set<string>): Mapping {
    map m | m in names :: Target(m + "_rate", if m == CPU_USAGE then ValueInt64 else ValueFloat)
  }

  function RateMetricsMapping(): Mapping {
    Suffixed(COUNTERS)
  }

  // ----- What one call computes -----

  /** Rates are reported under names of their own, which are not themselves turned into rates. */
  ghost predicate Sane(mapping: Mapping) {
    && (forall m, n :: m in mapping && n in mapping ==> mapping[m].name != n)
    && (forall m, n :: m in mapping && n in mapping && m != n ==> mapping[m].name != mapping[n].name)
    && (forall m :: m in mapping ==> !IsDisk(mapping[m].name))
  }

  predicate NotARate(n: string) {
    |n| >= 5 && n[|n| - 5] != '_'
  }

  lemma SuffixedIsSane(names: set<string>)
    requires forall n :: n in names ==> NotARate(n)
    requires NotARate(DISK_READ) && NotARate(DISK_WRITE)
    ensures Sane(Suffixed(names))
  {
    forall m: string, n: string | NotARate(n)
      ensures m + "_rate" != n
    {
      assert (m + "_rate")[|m + "_rate"| - 5] == '_';
    }
    forall m, n | m in names && n in names && m != n
      ensures m + "_rate" != n + "_rate"
    {
      assert m == (m + "_rate")[..|m + "_rate"| - 5] && n == (n + "_rate")[..|n + "_rate"| - 5];
    }
  }

  lemma StandardMappingIsSane()
    ensures Sane(RateMetricsMapping()) && CPU_USAGE in RateMetricsMapping()
  {
    hide Sane;
    SuffixedIsSane(COUNTERS);
  }

  /** No metric that rates are read from is written. */
  lemma {:induction false} SourcesKept(d: SetData, was: SetData, mapping: Mapping, order: seq<string>, dt: int,
        m: string)
    requires Sane(mapping) && dt > 0 && (forall n :: n in order ==> n in mapping) && m in mapping
    ensures At(WithRates(d, was, mapping, order, dt).values, m) == At(d.values, m)
  {
    hide RateOf, IsDisk;
    if order != [] {
      assert forall n :: n in order[..|order| - 1] ==> n in order;
      SourcesKept(d, was, mapping, order[..|order| - 1], dt, m);
    }
  }

  lemma {:induction false} IdentityKept(d: SetData, was: SetData, mapping: Mapping, order: seq<string>, dt: int)
    requires dt > 0 && (forall n :: n in order ==> n in mapping)
    ensures var r := WithRates(d, was, mapping, order, dt);
            r == d.(values := r.values, labeled := r.labeled) && d.labeled <= r.labeled
  {
    if order != [] {
      IdentityKept(d, was, mapping, order[..|order| - 1], dt);
    }
  }

  /** The rates reported: for each metric of the mapping that both sets have, from their own values. */
  lemma {:induction false} RateReported(d: SetData, was: SetData, mapping: Mapping, order: seq<string>, dt: int,
        m: string)
    requires Sane(mapping) && dt > 0 && (forall n :: n in order ==> n in mapping) && NoRepeats(order) && m in mapping
            && !IsDisk(m)
    ensures var r := RateOf(m, mapping[m], d.values, was.values, dt);
            At(WithRates(d, was, mapping, order, dt).values, mapping[m].name) ==
            if m in order && r.Some? then r else At(d.values, mapping[m].name)
  {
    hide IsDisk;
    if order != [] {
      var n := |order| - 1;
      assert order == order[..n] + [order[n]];
      RateReported(d, was, mapping, order[..n], dt, m);
      SourcesKept(d, was, mapping, order[..n], dt, order[n]);
      var e := WithRates(d, was, mapping, order[..n], dt);
      SameRate(order[n], mapping[order[n]], e.values, d.values, was.values, dt);
    }
  }

  lemma SameRate(m: string, target: Target, a: map<string, MetricValue>, b: map<string, MetricValue>,
        was: map<string, MetricValue>, dt: int)
    requires dt > 0 && At(a, m) == At(b, m)
    ensures RateOf(m, target, a, was, dt) == RateOf(m, target, b, was, dt)
  {
    hide CpuRate, FloatRate;
  }

  /** No other value changes. */
  lemma {:induction false} OthersKept(d: SetData, was: SetData, mapping: Mapping, order: seq<string>, dt: int,
        t: string)
    requires dt > 0 && (forall n :: n in order ==> n in mapping) && forall n :: n in order ==> mapping[n].name != t
    ensures At(WithRates(d, was, mapping, order, dt).values, t) == At(d.values, t)
  {
    hide RateOf, IsDisk;
    if order != [] {
      var n := |order| - 1;
      assert order == order[..n] + [order[n]];
      OthersKept(d, was, mapping, order[..n], dt, t);
    }
  }

  // ----- Disk rates -----

  /** The disk metrics of the mapping in the order they come up. */
  function DiskOrder(order: seq<string>): seq<string> {
    if order == [] then []
    else
      var last := order[|order| - 1];
      DiskOrder(order[..|order| - 1]) + if IsDisk(last) then [last] else []
  }

  /** All the disk rates of a set, metric by metric. */
  function AllDiskRates(disks: seq<string>, mapping: Mapping, items: seq<LabeledMetric>, was: seq<LabeledMetric>,
        dt: int): seq<LabeledMetric>
    requires dt > 0 && forall m :: m in disks ==> m in mapping
  {
    if disks == [] then []
    else
      var m := disks[|disks| - 1];
      AllDiskRates(disks[..|disks| - 1], mapping, items, was, dt) + DiskRates(m, mapping[m], items, |items|, was, dt)
  }

  /** Items under other names add nothing. */
  lemma {:induction false} ForeignItems(m: string, target: Target, items: seq<LabeledMetric>, more: seq<LabeledMetric>,
        n: nat, was: seq<LabeledMetric>, dt: int)
    requires dt > 0 && |items| <= n <= |items + more|
    requires forall x :: x in more ==> x.name != m
    ensures DiskRates(m, target, items + more, n, was, dt) == DiskRates(m, target, items, |items|, was, dt)
    decreases n
  {
    hide FloatRate, Predecessor;
    if n > |items| {
      ForeignItems(m, target, items, more, n - 1, was, dt);
      assert (items + more)[n - 1] in more;
    } else {
      SameItems(m, target, items + more, items, n, was, dt);
    }
  }

  lemma {:induction false} SameItems(m: string, target: Target, a: seq<LabeledMetric>, b: seq<LabeledMetric>, n: nat,
        was: seq<LabeledMetric>, dt: int)
    requires dt > 0 && n <= |a| && n <= |b| && a[..n] == b[..n]
    ensures DiskRates(m, target, a, n, was, dt) == DiskRates(m, target, b, n, was, dt)
  {
    hide FloatRate, Predecessor;
    if n > 0 {
      assert a[..n - 1] == a[..n][..n - 1] && b[..n - 1] == b[..n][..n - 1];
      assert a[n - 1] == a[..n][n - 1] && b[n - 1] == b[..n][n - 1];
      SameItems(m, target, a, b, n - 1, was, dt);
    }
  }

  lemma {:induction false} DiskRateNames(m: string, target: Target, items: seq<LabeledMetric>, n: nat,
        was: seq<LabeledMetric>, dt: int)
    requires dt > 0 && n <= |items|
    ensures forall x :: x in DiskRates(m, target, items, n, was, dt) ==> x.name == target.name
  {
    hide FloatRate, Predecessor;
    if n > 0 {
      DiskRateNames(m, target, items, n - 1, was, dt);
    }
  }

  lemma {:induction false} AllDiskRateNames(disks: seq<string>, mapping: Mapping, items: seq<LabeledMetric>,
        was: seq<LabeledMetric>, dt: int, m: string)
    requires dt > 0 && (forall n :: n in disks ==> n in mapping) && forall n :: n in mapping ==> mapping[n].name != m
    ensures forall x :: x in AllDiskRates(disks, mapping, items, was, dt) ==> x.name != m
  {
    hide DiskRates;
    if disks != [] {
      var n := |disks| - 1;
      AllDiskRateNames(disks[..n], mapping, items, was, dt, m);
      DiskRateNames(disks[n], mapping[disks[n]], items, |items|, was, dt);
    }
  }

  lemma {:induction false} DisksMapped(order: seq<string>, mapping: Mapping)
    requires forall n :: n in order ==> n in mapping
    ensures forall m :: m in DiskOrder(order) ==> m in mapping && IsDisk(m) && m in order
  {
    hide IsDisk;
    if order != [] {
      var n := |order| - 1;
      assert order == order[..n] + [order[n]];
      DisksMapped(order[..n], mapping);
    }
  }

  lemma OneMoreDisk(d: SetData, was: SetData, items: seq<LabeledMetric>, disks: seq<string>, mapping: Mapping,
        m: string, dt: int)
    requires Sane(mapping) && dt > 0 && (forall n :: n in disks ==> n in mapping) && m in mapping && IsDisk(m)
    requires d.labeled == items + AllDiskRates(disks, mapping, items, was.labeled, dt)
    ensures WithRate(d, was, m, mapping[m], dt).labeled ==
            items + AllDiskRates(disks + [m], mapping, items, was.labeled, dt)
  {
    hide IsDisk, DiskRates, RateOf;
    var more := AllDiskRates(disks, mapping, items, was.labeled, dt);
    AllDiskRateNames(disks, mapping, items, was.labeled, dt, m);
    ForeignItems(m, mapping[m], items, more, |items + more|, was.labeled, dt);
    assert (disks + [m])[..|disks|] == disks;
  }

  /**
   * The labelled list ends as it was followed by the rates of its own items, although the loop
   * appends to the list it ranges over.
   */
  lemma {:induction false} DiskRatesAppended(d: SetData, was: SetData, mapping: Mapping, order: seq<string>, dt: int)
    requires Sane(mapping) && dt > 0 && (forall n :: n in order ==> n in mapping)
    ensures forall m :: m in DiskOrder(order) ==> m in mapping
    ensures WithRates(d, was, mapping, order, dt).labeled ==
            d.labeled + AllDiskRates(DiskOrder(order), mapping, d.labeled, was.labeled, dt)
  {
    hide IsDisk, AllDiskRates, Sane;
    DisksMapped(order, mapping);
    if order == [] {
      NoDiskRates(mapping, d.labeled, was.labeled, dt);
    } else {
      var n := |order| - 1;
      var m := order[n];
      assert order == order[..n] + [m];
      DisksMapped(order[..n], mapping);
      DiskRatesAppended(d, was, mapping, order[..n], dt);
      var e := WithRates(d, was, mapping, order[..n], dt);
      if IsDisk(m) {
        assert DiskOrder(order) == DiskOrder(order[..n]) + [m];
        OneMoreDisk(e, was, d.labeled, DiskOrder(order[..n]), mapping, m, dt);
      } else {
        assert DiskOrder(order) == DiskOrder(order[..n]);
        OtherLeavesLabeled(e, was, m, mapping[m], dt);
      }
    }
  }

  lemma NoDiskRates(mapping: Mapping, items: seq<LabeledMetric>, was: seq<LabeledMetric>, dt: int)
    requires dt > 0
    ensures AllDiskRates([], mapping, items, was, dt) == []
  {}

  lemma OtherLeavesLabeled(d: SetData, was: SetData, m: string, target: Target, dt: int)
    requires dt > 0 && !IsDisk(m)
    ensures WithRate(d, was, m, target, dt).labeled == d.labeled
  {
    hide RateOf;
  }

  /** Item x of the new list has a predecessor in the old one: same metric, same device. */
  predicate SameDevice(x: LabeledMetric, y: LabeledMetric, m: string) {
    x.name == m && y.name == m && Get(x.labels, RESOURCE_ID) == Get(y.labels, RESOURCE_ID)
  }

  /** The predecessor is item i of the list, the first of the same device. */
  ghost predicate FirstAt(items: seq<LabeledMetric>, x: LabeledMetric, m: string, i: nat) {
    i < |items| && SameDevice(x, items[i], m) && forall j :: 0 <= j < i ==> !SameDevice(x, items[j], m)
  }

  lemma {:induction false} PredecessorIsFirst(items: seq<LabeledMetric>, x: LabeledMetric, m: string) returns (i: nat)
    requires x.name == m
    ensures var p := Predecessor(items, m, Get(x.labels, RESOURCE_ID));
            && (p.Some? <==> exists y :: y in items && SameDevice(x, y, m))
            && (p.Some? ==> FirstAt(items, x, m, i) && items[i] == p.value)
  {
    i := 0;
    if items != [] {
      if SameDevice(x, items[0], m) {
        assert items[0] in items;
      } else {
        var k := PredecessorIsFirst(items[1..], x, m);
        i := k + 1;
        assert items == [items[0]] + items[1..];
        assert forall j :: 0 < j < |items| ==> items[j] == items[1..][j - 1];
      }
    }
  }

  /** The items of the new list that get a rate: those with a predecessor, in order. */
  ghost function Paired(items: seq<LabeledMetric>, n: nat, was: seq<LabeledMetric>, m: string): seq<LabeledMetric>
    requires n <= |items|
  {
    if n == 0 then []
    else
      Paired(items, n - 1, was, m) +
      if exists y :: y in was && SameDevice(items[n - 1], y, m) then [items[n - 1]] else []
  }

  /** A rate for item x: labelled like it, and against the first old item of its device. */
  ghost predicate IsRateOf(rate: LabeledMetric, x: LabeledMetric, m: string, target: Target,
        was: seq<LabeledMetric>, dt: int)
    requires dt > 0
  {
    && rate.name == target.name && rate.labels == x.labels
    && exists j: nat :: FirstAt(was, x, m, j)
         && rate.value == FloatRate(x.value.intValue, was[j].value.intValue, dt)
  }

  /** Exactly one rate per paired item, in order. */
  lemma {:induction false} OneRatePerPair(m: string, target: Target, items: seq<LabeledMetric>, n: nat,
        was: seq<LabeledMetric>, dt: int)
    requires dt > 0 && n <= |items| && target.valueType == ValueFloat
    ensures var rates, pairs := DiskRates(m, target, items, n, was, dt), Paired(items, n, was, m);
            && |rates| == |pairs|
            && forall i :: 0 <= i < |rates| ==> IsRateOf(rates[i], pairs[i], m, target, was, dt)
  {
    hide FloatRate, Predecessor;
    if n > 0 {
      OneRatePerPair(m, target, items, n - 1, was, dt);
      if items[n - 1].name == m {
        var j := PredecessorIsFirst(was, items[n - 1], m);
        if FirstAt(was, items[n - 1], m, j) {
          assert was[j] in was;
        }
      }
    }
  }
}
