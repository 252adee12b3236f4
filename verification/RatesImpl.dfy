/** metrics/processors/rate_calculator.go as it runs: rates written into the sets of the batch. */
module RatesImpl {
  import opened Sums
  import opened Core
  import opened Rates

  lemma OneMoreRate(d: SetData, was: SetData, mapping: Mapping, order: seq<string>, m: string, dt: int)
    requires dt > 0 && (forall n :: n in order ==> n in mapping) && m in mapping
    ensures WithRates(d, was, mapping, order + [m], dt) ==
            WithRate(WithRates(d, was, mapping, order, dt), was, m, mapping[m], dt)
  {
    hide WithRate;
    assert (order + [m])[..|order|] == order;
  }

  lemma {:induction false} FirstMatch(items: seq<LabeledMetric>, i: nat, name: string, device: string)
    requires i < |items| && items[i].name == name && Get(items[i].labels, RESOURCE_ID) == device
    requires forall j :: 0 <= j < i ==> !(items[j].name == name && Get(items[j].labels, RESOURCE_ID) == device)
    ensures Predecessor(items, name, device) == Some(items[i])
  {
    if i > 0 {
      FirstMatch(items[1..], i - 1, name, device);
    }
  }

  lemma {:induction false} NoMatch(items: seq<LabeledMetric>, name: string, device: string)
    requires forall j :: 0 <= j < |items| ==> !(items[j].name == name && Get(items[j].labels, RESOURCE_ID) == device)
    ensures Predecessor(items, name, device) == None
  {
    if items != [] {
      NoMatch(items[1..], name, device);
    }
  }

  method FindOld(items: seq<LabeledMetric>, name: string, device: string) returns (r: Option<LabeledMetric>)
    ensures r == Predecessor(items, name, device)
  {
    r := None;
    var i := 0;
    while i < |items| && r.None?
      invariant 0 <= i <= |items|
      invariant r.None? ==> forall j :: 0 <= j < i ==>
                !(items[j].name == name && Get(items[j].labels, RESOURCE_ID) == device)
      invariant r.Some? ==> r == Predecessor(items, name, device)
      decreases |items| - i, r.None?
    {
      if items[i].name == name && Get(items[i].labels, RESOURCE_ID) == device {
        FirstMatch(items, i, name, device);
        r := Some(items[i]);
      } else {
        i := i + 1;
      }
    }
    if r.None? {
      NoMatch(items, name, device);
    }
  }

  /** The sets are rated but for those still to be gone through. */
  ghost predicate RatedSoFar(view: View, before: View, was: View, mapping: Mapping, orders: Orders, todo: set<string>) {
    && view.Keys == before.Keys && todo <= before.Keys && AreOrders(orders, before, mapping)
    && forall k :: k in before ==>
         view[k] == if k in todo then before[k] else RatedSet(before[k], was, k, mapping, orders[k])
  }

  lemma RatedNone(sets: map<string, MetricSet>, was: View, mapping: Mapping, orders: Orders, any: seq<string>)
    requires IsOrder(any, mapping) && forall k :: k in sets ==> k in orders && orders[k] == any
    ensures ViewOf(sets).Keys == sets.Keys && RatedSoFar(ViewOf(sets), ViewOf(sets), was, mapping, orders, sets.Keys)
  {
    hide RatedSet;
  }

  lemma KeyStays(view: View, before: View, was: View, mapping: Mapping, orders: Orders, todo: set<string>, k: string)
    requires RatedSoFar(view, before, was, mapping, orders, todo) && k in todo
    ensures k in view && k in before && view[k] == before[k]
  {
    hide RatedSet;
  }

  lemma RatedOneMore(view: View, before: View, was: View, mapping: Mapping, orders: Orders, todo: set<string>,
        k: string, order: seq<string>)
    requires RatedSoFar(view, before, was, mapping, orders, todo) && k in todo && IsOrder(order, mapping)
    ensures RatedSoFar(view[k := RatedSet(before[k], was, k, mapping, order)],
                       before, was, mapping, orders[k := order], todo - {k})
  {
    hide RatedSet;
  }

  lemma RatedAll(view: View, before: View, was: View, mapping: Mapping, orders: Orders)
    requires RatedSoFar(view, before, was, mapping, orders, {})
    ensures AreOrders(orders, before, mapping) && view == Rated(before, was, mapping, orders)
  {
    hide RatedSet;
  }

  class RateCalculator {
    const rateMetricsMapping: Mapping
    var previousBatch: DataBatch?

    constructor (metrics: Mapping)
      ensures rateMetricsMapping == metrics && previousBatch == null
    {
      rateMetricsMapping, previousBatch := metrics, null;
    }

    /** The batch kept, as it is now. */
    ghost function Kept(): Previous
      reads this, previousBatch, if previousBatch == null then {} else previousBatch.metricSets.Values
    {
      if previousBatch == null then None else Some(Batch(previousBatch.timestamp, previousBatch.Contents()))
    }

    /** The new batch shares nothing with the one kept. */
    ghost predicate Apart(batch: DataBatch)
      reads this, batch, previousBatch
    {
      previousBatch != null ==> previousBatch != batch && previousBatch.metricSets.Values !! batch.metricSets.Values
    }

    /** One disk metric: the list is gone through as it was when the loop began, while it is appended to. */
    method RateDisk(set_: MetricSet, was: MetricSet, m: string, target: Target, dt: int)
      requires dt > 0 && set_ != was && IsDisk(m)
      modifies set_
      ensures set_.Data() == WithRate(old(set_.Data()), was.Data(), m, target, dt)
    {
      hide IsDisk, Predecessor, FloatRate, RateOf;
      var items := set_.labeled;
      var i := 0;
      while i < |items|
        invariant 0 <= i <= |items|
        invariant set_.labeled == items + DiskRates(m, target, items, i, was.labeled, dt)
        invariant set_.Data() == old(set_.Data()).(labeled := set_.labeled)
      {
        if items[i].name == m {
          var before := FindOld(was.labeled, m, Get(items[i].labels, RESOURCE_ID));
          if before.Some? && target.valueType == ValueFloat {
            set_.labeled := set_.labeled +
              [LabeledMetric(target.name, items[i].labels, FloatRate(items[i].value.intValue,
                  before.value.value.intValue, dt))];
          }
        }
        i := i + 1;
      }
    }

    method RateValue(set_: MetricSet, was: MetricSet, m: string, target: Target, dt: int)
      requires dt > 0 && set_ != was && !IsDisk(m)
      modifies set_
      ensures set_.Data() == WithRate(old(set_.Data()), was.Data(), m, target, dt)
    {
      hide CpuRate, FloatRate;
      if m in set_.values && m in was.values {
        if m == CPU_USAGE {
          set_.values := set_.values[target.name := CpuRate(set_.values[m].intValue, was.values[m].intValue, dt)];
        } else if target.valueType == ValueFloat {
          set_.values := set_.values[target.name := FloatRate(set_.values[m].intValue, was.values[m].intValue, dt)];
        }
      }
    }

    /** All the metrics of the mapping for one set. */
    method RateSet(set_: MetricSet, was: MetricSet) returns (ghost order: seq<string>)
      requires set_ != was && Comparable(set_.Data(), was.Data())
      modifies set_
      ensures IsOrder(order, rateMetricsMapping)
      ensures set_.Data() ==
              WithRates(old(set_.Data()), was.Data(), rateMetricsMapping, order, old(set_.scrapeTime) - was.scrapeTime)
    {
      hide WithRate, WithRates, IsDisk;
      var dt := set_.scrapeTime - was.scrapeTime;
      var todo := rateMetricsMapping.Keys;
      order := [];
      NoRates(set_.Data(), was.Data(), rateMetricsMapping, dt);
      while todo != {}
        invariant todo <= rateMetricsMapping.Keys
        invariant forall m :: m in order <==> m in rateMetricsMapping && m !in todo
        invariant NoRepeats(order)
        invariant set_.Data() == WithRates(old(set_.Data()), was.Data(), rateMetricsMapping, order, dt)
        decreases |todo|
      {
        var m :| m in todo;
        OneMoreRate(old(set_.Data()), was.Data(), rateMetricsMapping, order, m, dt);
        if IsDisk(m) {
          RateDisk(set_, was, m, rateMetricsMapping[m], dt);
        } else {
          RateValue(set_, was, m, rateMetricsMapping[m], dt);
        }
        order := order + [m];
        todo := todo - {m};
      }
    }

    /** One set against whatever the batch before has under its key. */
    method RateAgainst(set_: MetricSet, was: map<string, MetricSet>, k: string) returns (ghost order: seq<string>)
      requires set_ !in was.Values
      modifies set_
      ensures IsOrder(order, rateMetricsMapping)
      ensures ViewOf(was) == old(ViewOf(was))
      ensures set_.Data() == RatedSet(old(set_.Data()), ViewOf(was), k, rateMetricsMapping, order)
    {
      hide WithRates;
      order := SomeOrder(rateMetricsMapping.Keys);
      assert forall j :: j in was ==> was[j] in was.Values;
      if k in was && set_.scrapeTime > was[k].scrapeTime && set_.collectionStartTime == was[k].collectionStartTime {
        order := RateSet(set_, was[k]);
      }
    }

    /** One set of a batch against its namesake in the batch before. */
    method RateKey(sets: map<string, MetricSet>, was: map<string, MetricSet>, k: string)
        returns (ghost order: seq<string>)
      requires Distinct(sets) && sets.Values !! was.Values && k in sets
      modifies sets[k]
      ensures IsOrder(order, rateMetricsMapping)
      ensures ViewOf(was) == old(ViewOf(was))
      ensures ViewOf(sets) ==
              old(ViewOf(sets))[k := RatedSet(old(ViewOf(sets))[k], ViewOf(was), k, rateMetricsMapping, order)]
    {
      hide RatedSet;
      assert sets[k] in sets.Values;
      order := RateAgainst(sets[k], was, k);
    }

    /** All the sets of a batch against the sets of the batch before. */
    method RateAll(sets: map<string, MetricSet>, was: map<string, MetricSet>) returns (ghost orders: Orders)
      requires Distinct(sets) && sets.Values !! was.Values
      modifies sets.Values
      ensures ViewOf(was) == old(ViewOf(was))
      ensures AreOrders(orders, old(ViewOf(sets)), rateMetricsMapping)
      ensures ViewOf(sets) == Rated(old(ViewOf(sets)), ViewOf(was), rateMetricsMapping, orders)
    {
      hide RatedSet, ViewOf, RatedSoFar, AreOrders, Rated;
      ghost var before, last := ViewOf(sets), ViewOf(was);
      ghost var any := SomeOrder(rateMetricsMapping.Keys);
      orders := map k | k in sets :: any;
      var todo := sets.Keys;
      RatedNone(sets, last, rateMetricsMapping, orders, any);
      while todo != {}
        invariant todo <= sets.Keys && before.Keys == sets.Keys
        invariant ViewOf(was) == last
        invariant RatedSoFar(ViewOf(sets), before, last, rateMetricsMapping, orders, todo)
        decreases |todo|
      {
        var k :| k in todo;
        ghost var view := ViewOf(sets);
        KeyStays(view, before, last, rateMetricsMapping, orders, todo, k);
        ghost var order := RateKey(sets, was, k);
        RatedOneMore(view, before, last, rateMetricsMapping, orders, todo, k, order);
        orders := orders[k := order];
        todo := todo - {k};
      }
      RatedAll(ViewOf(sets), before, last, rateMetricsMapping, orders);
    }

    method Process(batch: DataBatch) returns (ghost orders: Orders)
      requires batch.Valid() && Apart(batch)
      modifies this, batch.metricSets.Values
      ensures AreOrders(orders, old(batch.Contents()), rateMetricsMapping)
      ensures batch.Valid() && unchanged(batch)
      ensures Batch(batch.timestamp, batch.Contents()) ==
              Output(old(Kept()), Batch(batch.timestamp, old(batch.Contents())), rateMetricsMapping, orders)
      ensures previousBatch == if Accepts(old(Kept()), Batch(batch.timestamp, old(batch.Contents()))) then batch
              else old(previousBatch)
      ensures Kept() == Next(old(Kept()), Batch(batch.timestamp, old(batch.Contents())), rateMetricsMapping, orders)
    {
      hide Rated;
      ghost var any := SomeOrder(rateMetricsMapping.Keys);
      orders := map k | k in batch.metricSets :: any;
      if previousBatch == null {
        previousBatch := batch;
      } else if batch.timestamp > previousBatch.timestamp {
        orders := RateAll(batch.metricSets, previousBatch.metricSets);
        previousBatch := batch;
      }
    }
  }

  lemma NoRates(d: SetData, was: SetData, mapping: Mapping, dt: int)
    requires dt > 0
    ensures WithRates(d, was, mapping, [], dt) == d
  {}
}
