/** metrics/processors/rate_calculator.go:44-126: when a rate is written over a run and what it is, field by field. */
module RateFields {
  import opened Sums
  import opened Core
  import opened Sequences
  import opened Rates
  import opened RateRuns

  /** Both calls brought set k, the second scraped it later, and it was started only once. */
  predicate Continues(calls: seq<Call>, i: nat, j: nat, k: string)
    requires i < |calls| && j < |calls|
  {
    && k in calls[i].batch.sets && k in calls[j].batch.sets
    && calls[j].batch.sets[k].scrapeTime > calls[i].batch.sets[k].scrapeTime
    && calls[j].batch.sets[k].collectionStartTime == calls[i].batch.sets[k].collectionStartTime
  }

  /** Without a later timestamp, or without a set to continue, the set is returned as it was given. */
  lemma RestartedSetUntouched(calls: seq<Call>, j: nat, mapping: Mapping, k: string)
    requires j < |calls| && Possible(calls, mapping) && Sane(mapping) && k in calls[j].batch.sets
    requires j > 0 && Record(calls, j) ==> !Continues(calls, Latest(calls, j), j, k)
    ensures k in Returned(calls, j, mapping).sets
    ensures Returned(calls, j, mapping).sets[k] == calls[j].batch.sets[k]
  {
    hide WithRates, Sane;
    if j == 0 || !Record(calls, j) {
      RejectedUntouched(calls, j, mapping);
    } else {
      var i := Latest(calls, j);
      LatestIsKept(calls, j, mapping);
      AcceptedAreRecords(calls, j, mapping);
      KeyKept(After(calls, i, mapping), calls[i].batch, mapping, calls[i].orders, k);
      if k in calls[i].batch.sets {
        var _ := LabeledKept(After(calls, i, mapping), calls[i].batch, mapping, calls[i].orders, k);
      }
    }
  }

  predicate IsDiskMetric(m: string) {
    m == "disk/io_read_bytes" || m == "disk/io_write_bytes"
  }

  /** The rate of a counter that went from b to a in dt nanoseconds. */
  ghost predicate IsRate(x: MetricValue, m: string, a: int64, b: int64, dt: int)
    requires dt > 0
  {
    && x.metricType == MetricGauge
    && if m == "cpu/usage" then
         && x.valueType == ValueInt64 && x.floatValue == 0.0
         && x.intValue == Wrap64(GoDiv(Wrap64(1000 * Wrap64(a - b)), dt))
       else
         && x.valueType == ValueFloat && x.intValue == 0
         && x.floatValue == 1000000000.0 * (Wrap64(a - b) as real) / (dt as real)
  }

  /** There is something to work out the rate of m of set k in call j from. */
  predicate HasRate(calls: seq<Call>, j: nat, mapping: Mapping, k: string, m: string)
    requires j < |calls|
  {
    && j > 0 && Record(calls, j) && Continues(calls, Latest(calls, j), j, k)
    && m in calls[j].batch.sets[k].values && m in calls[Latest(calls, j)].batch.sets[k].values
    && m in mapping && (m == "cpu/usage" || mapping[m].valueType == ValueFloat)
  }

  /**
   * Over any run a rate that was not there before is there if and only if the call brought a record, the latest record
   * before it brought the set too, scraped earlier and since the same start, and both have the counter. It is then
   * worked out from the counters as given; otherwise the value stays.
   */
  lemma RateWrittenExactlyWhen(calls: seq<Call>, j: nat, mapping: Mapping, k: string, m: string)
    requires j < |calls| && Possible(calls, mapping) && Sane(mapping)
    requires m in mapping && !IsDiskMetric(m) && k in calls[j].batch.sets
    ensures k in Returned(calls, j, mapping).sets
    ensures var given := calls[j].batch.sets[k].values;
            var x := At(Returned(calls, j, mapping).sets[k].values, mapping[m].name);
            && (mapping[m].name !in given ==> (x.Some? <==> HasRate(calls, j, mapping, k, m)))
            && if HasRate(calls, j, mapping, k, m) then
                 var was := calls[Latest(calls, j)].batch.sets[k];
                 && x.Some?
                 && IsRate(x.value, m, given[m].intValue, was.values[m].intValue,
                           calls[j].batch.sets[k].scrapeTime - was.scrapeTime)
               else x == At(given, mapping[m].name)
  {
    hide WithRates, Sane, Wrap64;
    if j > 0 && Record(calls, j) && Continues(calls, Latest(calls, j), j, k) {
      RatesOverRuns(calls, j, mapping, k, m);
    } else {
      RestartedSetUntouched(calls, j, mapping, k);
    }
  }

  // ----- Disk rates -----

  /** Item x has an item of the same metric and device in the old list. */
  ghost predicate HasOld(x: LabeledMetric, was: seq<LabeledMetric>, m: string) {
    exists y :: y in was && x.name == y.name == m && Get(x.labels, "resource_id") == Get(y.labels, "resource_id")
  }

  ghost function WithOld(was: seq<LabeledMetric>, m: string): LabeledMetric -> bool {
    (x: LabeledMetric) => HasOld(x, was, m)
  }

  /** Item h is the first of the old list with the metric and device of x. */
  ghost predicate IsOldOf(was: seq<LabeledMetric>, h: nat, x: LabeledMetric, m: string) {
    && h < |was| && was[h].name == m && Get(was[h].labels, "resource_id") == Get(x.labels, "resource_id")
    && forall g :: 0 <= g < h && was[g].name == m ==> Get(was[g].labels, "resource_id") != Get(x.labels, "resource_id")
  }

  ghost predicate IsDiskRate(r: LabeledMetric, x: LabeledMetric, m: string, name: string,
        was: seq<LabeledMetric>, dt: int)
    requires dt > 0
  {
    && r.name == name && r.labels == x.labels
    && exists h: nat :: IsOldOf(was, h, x, m) && IsRate(r.value, m, x.value.intValue, was[h].value.intValue, dt)
  }

  /** The rates are those of the items at the positions picked: all that have an old one, in order. */
  ghost predicate AreRatesAt(picked: seq<nat>, rates: seq<LabeledMetric>, m: string, name: string,
        items: seq<LabeledMetric>, was: seq<LabeledMetric>, dt: int)
    requires dt > 0
  {
    && Picks(picked, items, WithOld(was, m)) && |rates| == |picked|
    && forall p :: 0 <= p < |picked| ==> picked[p] < |items| && IsDiskRate(rates[p], items[picked[p]], m, name, was, dt)
  }

  /** The rates of m, if it is mapped to a float. */
  ghost predicate AreDiskRates(rates: seq<LabeledMetric>, picked: seq<nat>, m: string, mapping: Mapping,
        items: seq<LabeledMetric>, was: seq<LabeledMetric>, dt: int)
    requires dt > 0
  {
    if m !in mapping || mapping[m].valueType != ValueFloat then rates == []
    else AreRatesAt(picked, rates, m, mapping[m].name, items, was, dt)
  }

  lemma {:induction false} OneRatePerItem(m: string, target: Target, items: seq<LabeledMetric>, n: nat,
        was: seq<LabeledMetric>, dt: int) returns (picked: seq<nat>)
    requires dt > 0 && n <= |items| && m != CPU_USAGE && target.valueType == ValueFloat
    ensures AreRatesAt(picked, DiskRates(m, target, items, n, was, dt), m, target.name, items[..n], was, dt)
  {
    hide AreRatesAt, FloatRate, Predecessor;
    if n == 0 {
      picked := [];
      NoRates(m, target.name, was, dt);
    } else {
      picked := OneRatePerItem(m, target, items, n - 1, was, dt);
      var x, rates := items[n - 1], DiskRates(m, target, items, n - 1, was, dt);
      assert items[..n] == items[..n - 1] + [x];
      var old_ := OldOf(m, x, was);
      if old_.Some? {
        OneMoreRate(picked, rates, m, target, items[..n - 1], x, was, old_.value, dt);
        picked := picked + [n - 1];
      } else {
        NoMoreRates(picked, rates, m, target.name, items[..n - 1], x, was, dt);
      }
    }
  }

  lemma NoRates(m: string, name: string, was: seq<LabeledMetric>, dt: int)
    requires dt > 0
    ensures AreRatesAt([], [], m, name, [], was, dt)
  {}

  /** What the loop finds for x is the old item, if there is one. */
  lemma OldOf(m: string, x: LabeledMetric, was: seq<LabeledMetric>) returns (h: Option<nat>)
    ensures h.Some? <==> HasOld(x, was, m)
    ensures h.Some? ==> IsOldOf(was, h.value, x, m)
    ensures x.name == m ==>
              Predecessor(was, m, Get(x.labels, RESOURCE_ID)) == if h.Some? then Some(was[h.value]) else None
    ensures x.name != m ==> h.None?
  {
    h := None;
    if x.name == m {
      var i := PredecessorIsFirst(was, x, m);
      OldIsFirst(was, x, m, i);
      if HasOld(x, was, m) {
        h := Some(i);
      }
    }
  }

  lemma OneMoreRate(picked: seq<nat>, rates: seq<LabeledMetric>, m: string, target: Target, items: seq<LabeledMetric>,
        x: LabeledMetric, was: seq<LabeledMetric>, h: nat, dt: int)
    requires dt > 0 && m != CPU_USAGE && AreRatesAt(picked, rates, m, target.name, items, was, dt)
    requires HasOld(x, was, m) && IsOldOf(was, h, x, m)
    ensures var rate := LabeledMetric(target.name, x.labels, FloatRate(x.value.intValue, was[h].value.intValue, dt));
            AreRatesAt(picked + [|items|], rates + [rate], m, target.name, items + [x], was, dt)
  {
    hide Picks, IsOldOf, IsDiskRate, HasOld, FloatRate;
    PicksNext(picked, items, x, WithOld(was, m));
    RateOfPair(m, target, x, was, h, dt);
  }

  lemma NoMoreRates(picked: seq<nat>, rates: seq<LabeledMetric>, m: string, name: string, items: seq<LabeledMetric>,
        x: LabeledMetric, was: seq<LabeledMetric>, dt: int)
    requires dt > 0 && AreRatesAt(picked, rates, m, name, items, was, dt) && !HasOld(x, was, m)
    ensures AreRatesAt(picked, rates, m, name, items + [x], was, dt)
  {
    hide Picks, IsDiskRate, HasOld;
    PicksNext(picked, items, x, WithOld(was, m));
  }

  lemma OldIsFirst(was: seq<LabeledMetric>, x: LabeledMetric, m: string, h: nat)
    requires x.name == m
    ensures HasOld(x, was, m) <==> exists y :: y in was && SameDevice(x, y, m)
    ensures FirstAt(was, x, m, h) <==> IsOldOf(was, h, x, m)
  {
    if HasOld(x, was, m) {
      var y :| y in was && x.name == y.name == m && Get(x.labels, "resource_id") == Get(y.labels, "resource_id");
      assert SameDevice(x, y, m);
    }
  }

  lemma RateOfPair(m: string, target: Target, x: LabeledMetric, was: seq<LabeledMetric>, h: nat, dt: int)
    requires dt > 0 && m != CPU_USAGE && IsOldOf(was, h, x, m)
    ensures IsDiskRate(LabeledMetric(target.name, x.labels, FloatRate(x.value.intValue, was[h].value.intValue, dt)),
                       x, m, target.name, was, dt)
  {
    hide Wrap64, IsOldOf;
  }

  predicate EitherWay(all: seq<LabeledMetric>, a: seq<LabeledMetric>, b: seq<LabeledMetric>, c: seq<LabeledMetric>) {
    all == a + b + c || all == a + c + b
  }

  /** Some of a and b, each once. */
  predicate SomeOf(d: seq<string>, a: string, b: string) {
    d == [] || d == [a] || d == [b] || d == [a, b] || d == [b, a]
  }

  lemma SomeOfNext(d: seq<string>, a: string, b: string, x: string)
    requires SomeOf(d, a, b) && x !in d && (x == a || x == b)
    ensures SomeOf(d + [x], a, b)
  {}

  predicate AreDisks(d: seq<string>) {
    SomeOf(d, DISK_READ, DISK_WRITE)
  }

  lemma {:induction false} DisksInOrder(order: seq<string>)
    requires NoRepeats(order)
    ensures AreDisks(DiskOrder(order))
    ensures forall m :: m in DiskOrder(order) <==> m in order && IsDisk(m)
  {
    hide SomeOf;
    if order == [] {
      NoneOf(DISK_READ, DISK_WRITE);
    } else {
      var n := |order| - 1;
      assert order == order[..n] + [order[n]];
      DisksInOrder(order[..n]);
      assert order[n] !in order[..n];
      if IsDisk(order[n]) {
        SomeOfNext(DiskOrder(order[..n]), DISK_READ, DISK_WRITE, order[n]);
        assert DiskOrder(order) == DiskOrder(order[..n]) + [order[n]];
      } else {
        assert DiskOrder(order) == DiskOrder(order[..n]);
      }
    }
  }

  lemma NoneOf(a: string, b: string)
    ensures SomeOf([], a, b)
  {}

  /**
   * Over any run, a set that continues one of the latest record ends with its labelled list as given, followed by the
   * read rates and the write rates of that list, in either order; any other set keeps its list.
   */
  lemma DiskRatesWritten(calls: seq<Call>, j: nat, mapping: Mapping, k: string)
      returns (fromReads: seq<LabeledMetric>, fromWrites: seq<LabeledMetric>, r: seq<nat>, w: seq<nat>)
    requires j < |calls| && Possible(calls, mapping) && Sane(mapping) && k in calls[j].batch.sets
    ensures k in Returned(calls, j, mapping).sets
    ensures var given, returned := calls[j].batch.sets[k], Returned(calls, j, mapping).sets[k].labeled;
            if j > 0 && Record(calls, j) && Continues(calls, Latest(calls, j), j, k) then
              var was := calls[Latest(calls, j)].batch.sets[k];
              var dt := given.scrapeTime - was.scrapeTime;
              && AreDiskRates(fromReads, r, "disk/io_read_bytes", mapping, given.labeled, was.labeled, dt)
              && AreDiskRates(fromWrites, w, "disk/io_write_bytes", mapping, given.labeled, was.labeled, dt)
              && EitherWay(returned, given.labeled, fromReads, fromWrites)
            else returned == given.labeled
  {
    hide WithRates, Sane, RatesIn, AllDiskRates, AreDiskRates, DiskOrder, Returned, Record, EitherWay, SomeOf;
    fromReads, fromWrites, r, w := [], [], [], [];
    if j > 0 && Record(calls, j) && Continues(calls, Latest(calls, j), j, k) {
      var given, was := calls[j].batch.sets[k], calls[Latest(calls, j)].batch.sets[k];
      var dt := given.scrapeTime - was.scrapeTime;
      DiskRatesOverRuns(calls, j, mapping, k);
      var order := calls[j].orders[k];
      DisksInOrder(order);
      assert IsDisk(DISK_READ) && IsDisk(DISK_WRITE);
      assert |DISK_READ| == 18 && |DISK_WRITE| == 19 && |CPU_USAGE| == 9;
      fromReads, r := RatesOf(DISK_READ, mapping, given.labeled, was.labeled, dt);
      fromWrites, w := RatesOf(DISK_WRITE, mapping, given.labeled, was.labeled, dt);
      BothDisks(DiskOrder(order), mapping, given.labeled, was.labeled, dt, fromReads, fromWrites);
      JoinedLists(AllDiskRates(DiskOrder(order), mapping, given.labeled, was.labeled, dt), given.labeled, fromReads,
                  fromWrites);
    } else {
      RestartedSetUntouched(calls, j, mapping, k);
    }
  }

  function RatesIn(m: string, mapping: Mapping, items: seq<LabeledMetric>, was: seq<LabeledMetric>,
        dt: int): seq<LabeledMetric>
    requires dt > 0
  {
    if m in mapping then DiskRates(m, mapping[m], items, |items|, was, dt) else []
  }

  lemma RatesOf(m: string, mapping: Mapping, items: seq<LabeledMetric>, was: seq<LabeledMetric>, dt: int)
      returns (rates: seq<LabeledMetric>, picked: seq<nat>)
    requires dt > 0 && m != CPU_USAGE
    ensures AreDiskRates(rates, picked, m, mapping, items, was, dt)
    ensures rates == RatesIn(m, mapping, items, was, dt)
  {
    rates, picked := [], [];
    if m in mapping {
      rates := DiskRates(m, mapping[m], items, |items|, was, dt);
      if mapping[m].valueType == ValueFloat {
        picked := OneRatePerItem(m, mapping[m], items, |items|, was, dt);
        assert items[..|items|] == items;
      } else {
        NoFloatNoRate(m, mapping[m], items, |items|, was, dt);
      }
    }
  }

  lemma {:induction false} NoFloatNoRate(m: string, target: Target, items: seq<LabeledMetric>, n: nat,
        was: seq<LabeledMetric>, dt: int)
    requires dt > 0 && n <= |items| && target.valueType != ValueFloat
    ensures DiskRates(m, target, items, n, was, dt) == []
  {
    if n > 0 {
      NoFloatNoRate(m, target, items, n - 1, was, dt);
    }
  }

  lemma BothDisks(disks: seq<string>, mapping: Mapping, items: seq<LabeledMetric>, was: seq<LabeledMetric>, dt: int,
        fromReads: seq<LabeledMetric>, fromWrites: seq<LabeledMetric>)
    requires dt > 0
    requires AreDisks(disks)
    requires (DISK_READ in disks <==> DISK_READ in mapping) && (DISK_WRITE in disks <==> DISK_WRITE in mapping)
    requires forall m :: m in disks ==> m in mapping
    requires fromReads == RatesIn(DISK_READ, mapping, items, was, dt)
    requires fromWrites == RatesIn(DISK_WRITE, mapping, items, was, dt)
    ensures EitherWay(AllDiskRates(disks, mapping, items, was, dt), [], fromReads, fromWrites)
  {
    hide DiskRates;
    assert |DISK_READ| != |DISK_WRITE|;
    if |disks| > 0 {
      var m := disks[|disks| - 1];
      assert AllDiskRates(disks, mapping, items, was, dt) ==
             AllDiskRates(disks[..|disks| - 1], mapping, items, was, dt) + RatesIn(m, mapping, items, was, dt);
      if |disks| == 2 {
        assert disks[..1] == [disks[0]] && [disks[0]][..0] == [];
        assert AllDiskRates([disks[0]], mapping, items, was, dt) ==
               AllDiskRates([], mapping, items, was, dt) + RatesIn(disks[0], mapping, items, was, dt);
      }
    }
  }

  lemma JoinedLists(all: seq<LabeledMetric>, a: seq<LabeledMetric>, b: seq<LabeledMetric>, c: seq<LabeledMetric>)
    requires EitherWay(all, [], b, c)
    ensures EitherWay(a + all, a, b, c)
  {
    assert [] + b + c == b + c && [] + c + b == c + b;
    assert a + (b + c) == a + b + c && a + (c + b) == a + c + b;
  }

  // ----- The mapping Heapster sets up -----

  /** Nine counters are turned into rates; all rates but that of cpu are floats. */
  lemma StandardTargets(m: string)
    ensures m in RateMetricsMapping() <==>
            m in {"cpu/usage", "memory/page_faults", "memory/major_page_faults", "network/rx", "network/rx_errors",
                  "network/tx", "network/tx_errors", "disk/io_read_bytes", "disk/io_write_bytes"}
    ensures m in RateMetricsMapping() ==>
            && RateMetricsMapping()[m].name == m + "_rate"
            && RateMetricsMapping()[m].valueType == (if m == "cpu/usage" then ValueInt64 else ValueFloat)
  {}
}
