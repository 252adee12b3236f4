/** The in-place form of the pod aggregator, proved to be one run of PodAggregation. */
module PodAggregatorImpl {
  import opened Core
  import opened PodAggregation
  import Keys

  datatype Descriptor = Descriptor(name: string, metricType: MetricType)

  class PodAggregator {
    var skippedMetrics: set<string>

    /** Standard metrics that accumulate are not rolled up. */
    constructor (standardMetrics: seq<Descriptor>)
      ensures forall m :: m in skippedMetrics <==>
        exists d :: d in standardMetrics && d.name == m && d.metricType != MetricGauge
    {
      var skipped := {};
      for i := 0 to |standardMetrics|
        invariant forall m :: m in skipped <==>
          exists j :: 0 <= j < i && standardMetrics[j].name == m && standardMetrics[j].metricType != MetricGauge
      {
        if standardMetrics[i].metricType == MetricCumulative || standardMetrics[i].metricType == MetricDelta {
          skipped := skipped + {standardMetrics[i].name};
        }
      }
      skippedMetrics := skipped;
    }

    /** The inner loop: the container's values, in any order, into the pod. */
    method AddValues(container: MetricSet, pod: MetricSet, podKey: string, flags: set<string>)
        returns (ok: bool, flags': set<string>)
      modifies pod`values
      ensures var names := Rolled(old(container.Data()), skippedMetrics);
              && ok == !Refused(old(pod.values), podKey, flags, old(container.values), names)
              && (ok ==> pod.values == Contribute(old(pod.values), podKey, flags, old(container.values), names))
              && (ok ==> flags' == flags + NewFlags(old(pod.values), podKey, names))
    {
      var values := container.values;
      ghost var was := pod.values;
      ghost var names := Rolled(container.Data(), skippedMetrics);
      var todo := values.Keys;
      ghost var done: set<string> := {};
      flags' := flags;
      assert pod.values == Contribute(was, podKey, flags, values, done);
      while todo != {}
        invariant todo <= values.Keys && done == names - todo
        invariant pod.values == Contribute(was, podKey, flags, values, done)
        invariant flags' == flags + NewFlags(was, podKey, done)
        invariant !Refused(was, podKey, flags, values, done)
      {
        var m :| m in todo;
        todo := todo - {m};
        if m !in skippedMetrics {
          assert m in was <==> m in pod.values;
          OwnFlagOnly(was, podKey, done, m);
          if m !in pod.values {
            flags' := flags' + {podKey + m};
            pod.values := pod.values[m := values[m]];
          } else if podKey + m in flags' {
            if pod.values[m].valueType == values[m].valueType {
              if !values[m].Supported() {
                return false, flags';
              }
              pod.values := pod.values[m := pod.values[m].Add(values[m])];
            }
          }
          done := done + {m};
        }
      }
      assert done == names;
      ok := true;
    }

    /** The same for the pod filed under podKey: no other set changes. */
    method AddTo(sets: map<string, MetricSet>, podKey: string, container: MetricSet, flags: set<string>)
        returns (ok: bool, flags': set<string>)
      requires Distinct(sets) && podKey in sets
      modifies sets[podKey]
      ensures var names := Rolled(old(container.Data()), skippedMetrics);
              var pod := old(sets[podKey].Data());
              && ok == !Refused(pod.values, podKey, flags, old(container.values), names)
              && (ok ==> ViewOf(sets) == old(ViewOf(sets))[
                   podKey := pod.(values := Contribute(pod.values, podKey, flags, old(container.values), names))])
              && (ok ==> flags' == flags + NewFlags(pod.values, podKey, names))
    {
      ok, flags' := AddValues(container, sets[podKey], podKey, flags);
    }

    /** The flag of a metric the pod has cannot have been raised by this same container. */
    static lemma OwnFlagOnly(was: map<string, MetricValue>, podKey: string, done: set<string>, m: string)
      requires m !in done
      ensures podKey + m !in NewFlags(was, podKey, done)
    {
      forall m' | m' in done ensures podKey + m' != podKey + m {
        assert (podKey + m')[|podKey|..] == m' && (podKey + m)[|podKey|..] == m;
      }
    }

    /** A pod set made up from a container's labels. */
    method PodMetricSet(labels: map<string, string>) returns (pod: MetricSet)
      ensures fresh(pod) && pod.Data() == NewPod(labels)
    {
      hide Restricted;
      var newLabels := Populate(map[TYPE := TYPE_POD], labels, LABELS_TO_POPULATE);
      pod := new MetricSet(newLabels);
    }

    /** The loop over the labels to populate. */
    static method Populate(given: map<string, string>, labels: map<string, string>, names: seq<string>)
          returns (r: map<string, string>)
      ensures r == given + Restricted(labels, names)
    {
      r := given;
      for i := 0 to |names|
        invariant r == given + Restricted(labels, names[..i])
      {
        assert names[..i + 1] == names[..i] + [names[i]];
        if names[i] in labels {
          r := r[names[i] := labels[names[i]]];
        }
      }
      assert names[..|names|] == names;
    }

    ghost predicate Apart(batch: DataBatch, newPods: map<string, MetricSet>)
      reads batch
    {
      && newPods.Keys !! batch.metricSets.Keys
      && Distinct(batch.metricSets) && Distinct(newPods)
      && forall j, k :: j in batch.metricSets && k in newPods ==> batch.metricSets[j] != newPods[k]
    }

    ghost function StateOf(batch: DataBatch, newPods: map<string, MetricSet>, flags: set<string>): State
      reads batch, batch.metricSets.Values, newPods.Values
    {
      State(batch.Contents(), ViewOf(newPods), flags)
    }

    method FindPod(batch: DataBatch, podKey: string, labels: map<string, string>, newPods: map<string, MetricSet>,
                   ghost flags: set<string>)
        returns (newPods': map<string, MetricSet>)
      requires Apart(batch, newPods)
      ensures Apart(batch, newPods')
      ensures newPods.Keys <= newPods'.Keys && forall k :: k in newPods' ==>
        if k in newPods then newPods'[k] == newPods[k] else fresh(newPods'[k])
      ensures StateOf(batch, newPods', flags) == WithPod(old(StateOf(batch, newPods, flags)), podKey, labels)
    {
      newPods' := newPods;
      if podKey !in batch.metricSets && podKey !in newPods {
        var pod := PodMetricSet(labels);
        newPods' := newPods[podKey := pod];
        assert ViewOf(newPods') == ViewOf(newPods)[podKey := NewPod(labels)];
      }
    }

    method RollUp(batch: DataBatch, podKey: string, container: MetricSet, newPods: map<string, MetricSet>,
          flags: set<string>)
        returns (ok: bool, flags': set<string>)
      requires Apart(batch, newPods) && (podKey in batch.metricSets || podKey in newPods)
      modifies batch.metricSets.Values, newPods.Values
      ensures var r := RollInto(old(StateOf(batch, newPods, flags)), podKey, old(container.Data()), skippedMetrics);
              && ok == r.Some?
              && (ok ==> r.value == StateOf(batch, newPods, flags'))
    {
      ghost var s := StateOf(batch, newPods, flags);
      if podKey in batch.metricSets {
        ok, flags' := AddTo(batch.metricSets, podKey, container, flags);
        assert ViewOf(newPods) == s.newPods;
      } else {
        ok, flags' := AddTo(newPods, podKey, container, flags);
        assert batch.Contents() == s.sets;
      }
    }

    /** One round of the loop over the batch. */
    method Visit(batch: DataBatch, key: string, newPods: map<string, MetricSet>, flags: set<string>)
        returns (ok: bool, newPods': map<string, MetricSet>, flags': set<string>)
      requires Apart(batch, newPods) && key in batch.metricSets
      modifies batch.metricSets.Values, newPods.Values
      ensures Apart(batch, newPods')
      ensures newPods.Keys <= newPods'.Keys && forall k :: k in newPods' ==>
        if k in newPods then newPods'[k] == newPods[k] else fresh(newPods'[k])
      ensures var r := Step(old(StateOf(batch, newPods, flags)), key, skippedMetrics);
              && ok == r.Some?
              && (ok ==> r.value == StateOf(batch, newPods', flags'))
    {
      var container := batch.metricSets[key];
      ok, newPods', flags' := true, newPods, flags;
      if TYPE in container.labels && container.labels[TYPE] == TYPE_POD_CONTAINER &&
         POD_NAME in container.labels && NAMESPACE_NAME in container.labels
      {
        var podKey := Keys.PodKey(container.labels[NAMESPACE_NAME], container.labels[POD_NAME]);
        newPods' := FindPod(batch, podKey, container.labels, newPods, flags);
        ok, flags' := RollUp(batch, podKey, container, newPods', flags);
      }
    }

    /** The loop over the batch, in some order of its keys. */
    method RollUpAll(batch: DataBatch)
        returns (ok: bool, newPods: map<string, MetricSet>, ghost flags: set<string>, ghost order: seq<string>)
      requires batch.Valid()
      modifies batch.metricSets.Values
      ensures NoRepeats(order) && forall k :: k in order ==> k in batch.metricSets
      ensures Apart(batch, newPods) && forall k :: k in newPods ==> fresh(newPods[k])
      ensures ok ==> forall k :: k in batch.metricSets ==> k in order
      ensures Run(old(batch.Contents()), order, skippedMetrics) ==
              if ok then Some(StateOf(batch, newPods, flags)) else None
    {
      newPods := map[];
      var raised: set<string> := {};
      var todo := batch.metricSets.Keys;
      order := [];
      ok := true;
      ghost var v := batch.Contents();
      while todo != {} && ok
        invariant todo <= batch.metricSets.Keys
        invariant NoRepeats(order) && forall k :: k in order <==> k in batch.metricSets && k !in todo
        invariant Apart(batch, newPods) && forall k :: k in newPods ==> fresh(newPods[k])
        invariant Run(v, order, skippedMetrics) == if ok then Some(StateOf(batch, newPods, raised)) else None
        decreases todo
      {
        var key :| key in todo;
        todo := todo - {key};
        RunNext(v, order, key, skippedMetrics);
        ok, newPods, raised := Visit(batch, key, newPods, raised);
        order := order + [key];
      }
      flags := raised;
    }

    /** Process: the whole batch is rolled up in place, and the pods made up on the way are filed. */
    method Process(batch: DataBatch) returns (ok: bool, ghost order: seq<string>)
      requires batch.Valid()
      modifies batch, batch.metricSets.Values
      ensures batch.Valid() && batch.timestamp == old(batch.timestamp)
      ensures NoRepeats(order) && forall k :: k in order ==> k in old(batch.metricSets)
      ensures ok == Run(old(batch.Contents()), order, skippedMetrics).Some?
      ensures ok ==> IsOrder(order, old(batch.metricSets))
      ensures ok ==> Aggregated(old(batch.Contents()), order, skippedMetrics) == Some(batch.Contents())
      ensures forall k :: k in old(batch.metricSets) ==>
                k in batch.metricSets && batch.metricSets[k] == old(batch.metricSets[k])
    {
      var newPods;
      ghost var flags;
      ok, newPods, flags, order := RollUpAll(batch);
      if ok {
        File(batch, newPods, flags);
      }
    }

    method File(batch: DataBatch, newPods: map<string, MetricSet>, ghost flags: set<string>)
      requires Apart(batch, newPods)
      modifies batch
      ensures batch.Valid() && batch.timestamp == old(batch.timestamp)
      ensures batch.metricSets == old(batch.metricSets) + newPods
      ensures batch.Contents() == old(batch.Contents()) + ViewOf(newPods)
    {
      batch.metricSets := batch.metricSets + newPods;
    }
  }
}
