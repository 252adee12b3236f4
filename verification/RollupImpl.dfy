/** The in-place form of the namespace, node and cluster aggregators, each proved to be one run of Rollup. */
module RollupImpl {
  import opened Core
  import opened Rollup
  import Keys

  /** A metric not reached yet is as it was. */
  lemma NotReached(src: map<string, MetricValue>, dst: map<string, MetricValue>, names: seq<string>, i: nat)
    requires NoRepeats(names) && i < |names| && AddAll(src, dst, names[..i]).Some?
    ensures At(AddAll(src, dst, names[..i]).value, names[i]) == At(dst, names[i])
  {
    AddAllMetric(src, dst, names[..i], names[i]);
  }

  /**
   * helper.go: src's listed metrics added into dst, stopping at the first that cannot be added. A set can be added
   * into itself where no metric is listed twice.
   */
  method Aggregate(src: MetricSet, dst: MetricSet, names: seq<string>) returns (ok: bool)
    requires src != dst || NoRepeats(names)
    modifies dst`values
    ensures var r := AddAll(old(src.values), old(dst.values), names);
            && ok == r.Some?
            && (ok ==> dst.values == r.value)
  {
    ghost var given, was := src.values, dst.values;
    ok := true;
    var i := 0;
    assert names[..0] == [];
    while i < |names| && ok
      invariant 0 <= i <= |names|
      invariant src != dst ==> src.values == given
      invariant AddAll(given, was, names[..i]) == if ok then Some(dst.values) else None
      decreases |names| - i
    {
      var m := names[i];
      assert names[..i + 1][..i] == names[..i];
      if src == dst {
        NotReached(given, was, names, i);
      }
      assert At(src.values, m) == At(given, m);
      if m in src.values {
        var metricValue := src.values[m];
        if m in dst.values {
          var aggregatedValue := dst.values[m];
          if aggregatedValue.valueType != metricValue.valueType || !aggregatedValue.Supported() {
            ok := false;
          } else {
            dst.values := dst.values[m := aggregatedValue.Add(metricValue)];
          }
        } else {
          dst.values := dst.values[m := metricValue];
        }
      }
      i := i + 1;
    }
    if ok {
      assert names[..i] == names;
    } else {
      RefusedForGood(given, was, names, i);
    }
  }

  lemma {:induction false} RefusedForGood(src: map<string, MetricValue>, dst: map<string, MetricValue>,
        names: seq<string>, i: nat)
    requires i <= |names| && AddAll(src, dst, names[..i]).None?
    ensures AddAll(src, dst, names).None?
    decreases |names|
  {
    if i < |names| {
      var n := |names| - 1;
      assert names[..n][..i] == names[..i];
      RefusedForGood(src, dst, names[..n], i);
    } else {
      assert names[..i] == names;
    }
  }

  /** The same for the set filed under t: no other set changes. */
  method AggregateInto(src: MetricSet, sets: map<string, MetricSet>, t: string, names: seq<string>) returns (ok: bool)
    requires Distinct(sets) && t in sets && (src != sets[t] || NoRepeats(names))
    modifies sets[t]
    ensures var r := AddAll(old(src.values), old(sets[t].values), names);
            && ok == r.Some?
            && (ok ==> ViewOf(sets) == old(ViewOf(sets))[t := old(sets[t].Data()).(values := r.value)])
  {
    ok := Aggregate(src, sets[t], names);
  }

  ghost predicate Apart(batch: DataBatch, made: map<string, MetricSet>)
    reads batch
  {
    && Distinct(batch.metricSets) && Distinct(made)
    && forall j, k :: j in batch.metricSets && k in made ==> batch.metricSets[j] != made[k]
  }

  ghost function StateOf(batch: DataBatch, made: map<string, MetricSet>): State
    reads batch, batch.metricSets.Values, made.Values
  {
    State(batch.Contents(), ViewOf(made))
  }

  /** No set is filed under the key of the set it is added into, or no metric is listed twice. */
  ghost predicate NotTwiceIntoItself(roll: Roll, v: View, names: seq<string>) {
    NoRepeats(names) || forall k :: k in v ==> TargetOf(roll, v[k]) != Some(k)
  }

  /** Adding src into its target, wherever the target is. */
  method AddInto(batch: DataBatch, made: map<string, MetricSet>, src: MetricSet, t: string, names: seq<string>)
      returns (ok: bool)
    requires Apart(batch, made) && (t in made || t in batch.metricSets)
    requires src != (if t in made then made[t] else batch.metricSets[t]) || NoRepeats(names)
    modifies batch.metricSets.Values, made.Values
    ensures var s := old(StateOf(batch, made));
            var r := AddAll(old(src.values), s.Values(t), names);
            && ok == r.Some?
            && (ok ==> StateOf(batch, made) == s.With(t, r.value))
  {
    ghost var s := StateOf(batch, made);
    if t in made {
      ok := AggregateInto(src, made, t, names);
      assert batch.Contents() == s.sets;
    } else {
      ok := AggregateInto(src, batch.metricSets, t, names);
      assert ViewOf(made) == s.made;
    }
  }

  method File(batch: DataBatch, made: map<string, MetricSet>)
    requires Apart(batch, made)
    modifies batch
    ensures batch.Valid() && batch.timestamp == old(batch.timestamp)
    ensures batch.metricSets == old(batch.metricSets) + made
    ensures batch.Contents() == old(batch.Contents()) + ViewOf(made)
  {
    batch.metricSets := batch.metricSets + made;
  }

  class NamespaceAggregator {
    var metricsToAggregate: seq<string>

    method FindNamespace(batch: DataBatch, src: MetricSet, t: string, made: map<string, MetricSet>)
        returns (made': map<string, MetricSet>)
      requires Apart(batch, made) && src in batch.metricSets.Values
      ensures Apart(batch, made') && (t in made' || t in batch.metricSets)
      ensures made.Keys <= made'.Keys && forall k :: k in made' ==>
        if k in made then made'[k] == made[k] else fresh(made'[k])
      ensures StateOf(batch, made') == Prepared(ByNamespace, old(StateOf(batch, made)), t, src.Data())
    {
      made' := made;
      if t !in made && t !in batch.metricSets {
        var name, uid := Get(src.labels, NAMESPACE_NAME), Get(src.labels, NAMESPACE_ID);
        var ns := new MetricSet(map[TYPE := TYPE_NAMESPACE, NAMESPACE_NAME := name, NAMESPACE_ID := uid]);
        made' := made[t := ns];
        assert ViewOf(made') == ViewOf(made)[t := ns.Data()];
      }
    }

    /** One round of the loop over the batch. */
    method Visit(batch: DataBatch, key: string, made: map<string, MetricSet>)
        returns (ok: bool, made': map<string, MetricSet>)
      requires Apart(batch, made) && key in batch.metricSets
      requires TargetOf(ByNamespace, batch.metricSets[key].Data()) != Some(key) || NoRepeats(metricsToAggregate)
      modifies batch.metricSets.Values, made.Values
      ensures Apart(batch, made')
      ensures made.Keys <= made'.Keys && forall k :: k in made' ==>
        if k in made then made'[k] == made[k] else fresh(made'[k])
      ensures var r := Step(ByNamespace, old(StateOf(batch, made)), key, metricsToAggregate);
              && ok == r.Some?
              && (ok ==> r.value == StateOf(batch, made'))
    {
      var src := batch.metricSets[key];
      ok, made' := true, made;
      if TYPE in src.labels && src.labels[TYPE] == TYPE_POD && NAMESPACE_NAME in src.labels {
        var t := Keys.NamespaceKey(src.labels[NAMESPACE_NAME]);
        made' := FindNamespace(batch, src, t, made);
        ok := AddInto(batch, made', src, t, metricsToAggregate);
      }
    }

    /** The loop over the batch, in some order of its keys. */
    method AddAllPods(batch: DataBatch) returns (ok: bool, made: map<string, MetricSet>, ghost order: seq<string>)
      requires batch.Valid() && NotTwiceIntoItself(ByNamespace, batch.Contents(), metricsToAggregate)
      modifies batch.metricSets.Values
      ensures NoRepeats(order) && forall k :: k in order ==> k in batch.metricSets
      ensures Apart(batch, made)
      ensures ok ==> forall k :: k in batch.metricSets ==> k in order
      ensures Run(ByNamespace, old(batch.Contents()), order, metricsToAggregate) ==
              if ok then Some(StateOf(batch, made)) else None
    {
      made := map[];
      var todo := batch.metricSets.Keys;
      order := [];
      ok := true;
      ghost var v := batch.Contents();
      while todo != {} && ok
        invariant todo <= batch.metricSets.Keys
        invariant NoRepeats(order) && forall k :: k in order <==> k in batch.metricSets && k !in todo
        invariant Apart(batch, made) && forall k :: k in made ==> fresh(made[k])
        invariant Run(ByNamespace, v, order, metricsToAggregate) == if ok then Some(StateOf(batch, made)) else None
        decreases todo
      {
        var key :| key in todo;
        todo := todo - {key};
        KindsKept(ByNamespace, v, order, metricsToAggregate, key);
        RunNext(ByNamespace, v, order, key, metricsToAggregate);
        ok, made := Visit(batch, key, made);
        order := order + [key];
      }
    }

    /** Process: every pod is added into its namespace; new namespaces are filed in the batch. */
    method Process(batch: DataBatch) returns (ok: bool, ghost order: seq<string>)
      requires batch.Valid() && NotTwiceIntoItself(ByNamespace, batch.Contents(), metricsToAggregate)
      modifies batch, batch.metricSets.Values
      ensures batch.Valid() && batch.timestamp == old(batch.timestamp)
      ensures NoRepeats(order) && forall k :: k in order ==> k in old(batch.metricSets)
      ensures ok == Run(ByNamespace, old(batch.Contents()), order, metricsToAggregate).Some?
      ensures ok ==> IsOrder(order, old(batch.metricSets))
      ensures ok ==> Rolled(ByNamespace, old(batch.Contents()), order, metricsToAggregate) == Some(batch.Contents())
    {
      var made;
      ok, made, order := AddAllPods(batch);
      if ok {
        File(batch, made);
      }
    }
  }

  class NodeAggregator {
    var metricsToAggregate: seq<string>

    /** One round of the loop over the batch: a node nobody has is skipped. */
    method Visit(batch: DataBatch, key: string) returns (ok: bool)
      requires batch.Valid() && key in batch.metricSets
      requires TargetOf(ByNode, batch.metricSets[key].Data()) != Some(key) || NoRepeats(metricsToAggregate)
      modifies batch.metricSets.Values
      ensures var r := Step(ByNode, old(StateOf(batch, map[])), key, metricsToAggregate);
              && ok == r.Some?
              && (ok ==> r.value == StateOf(batch, map[]))
    {
      var src := batch.metricSets[key];
      ok := true;
      if TYPE in src.labels && src.labels[TYPE] == TYPE_POD {
        var nodeName := Get(src.labels, NODENAME);
        if nodeName != "" {
          var t := Keys.NodeKey(nodeName);
          if t in batch.metricSets {
            ok := AddInto(batch, map[], src, t, metricsToAggregate);
          }
        }
      }
    }

    /** The loop over the batch, in some order of its keys. */
    method AddAllPods(batch: DataBatch) returns (ok: bool, ghost order: seq<string>)
      requires batch.Valid() && NotTwiceIntoItself(ByNode, batch.Contents(), metricsToAggregate)
      modifies batch.metricSets.Values
      ensures NoRepeats(order) && forall k :: k in order ==> k in batch.metricSets
      ensures ok ==> IsOrder(order, batch.metricSets)
      ensures Run(ByNode, old(batch.Contents()), order, metricsToAggregate) ==
              if ok then Some(StateOf(batch, map[])) else None
    {
      hide Step, TargetOf;
      var todo := batch.metricSets.Keys;
      order := [];
      ok := true;
      ghost var v := batch.Contents();
      while todo != {} && ok
        invariant todo <= batch.metricSets.Keys
        invariant NoRepeats(order) && forall k :: k in order <==> k in batch.metricSets && k !in todo
        invariant Run(ByNode, v, order, metricsToAggregate) == if ok then Some(StateOf(batch, map[])) else None
        decreases todo
      {
        var key :| key in todo;
        todo := todo - {key};
        KindsKept(ByNode, v, order, metricsToAggregate, key);
        RunNext(ByNode, v, order, key, metricsToAggregate);
        ok := Visit(batch, key);
        order := order + [key];
      }
    }

    /** Process: every pod is added into its node's set, in place. */
    method Process(batch: DataBatch) returns (ok: bool, ghost order: seq<string>)
      requires batch.Valid() && NotTwiceIntoItself(ByNode, batch.Contents(), metricsToAggregate)
      modifies batch.metricSets.Values
      ensures NoRepeats(order) && forall k :: k in order ==> k in batch.metricSets
      ensures ok ==> IsOrder(order, batch.metricSets)
      ensures Rolled(ByNode, old(batch.Contents()), order, metricsToAggregate) ==
              if ok then Some(batch.Contents()) else None
    {
      hide Run, NotTwiceIntoItself;
      ok, order := AddAllPods(batch);
      assert ok ==> batch.Contents() + ViewOf(map[]) == batch.Contents();
    }
  }

  lemma SingleIsDistinct(made: map<string, MetricSet>)
    requires made.Keys == {Keys.ClusterKey()}
    ensures Distinct(made)
  {}

  class ClusterAggregator {
    var metricsToAggregate: seq<string>

    method Visit(batch: DataBatch, key: string, made: map<string, MetricSet>) returns (ok: bool)
      requires Apart(batch, made) && key in batch.metricSets && Keys.ClusterKey() in made
      modifies batch.metricSets.Values, made.Values
      ensures var r := Step(ByCluster, old(StateOf(batch, made)), key, metricsToAggregate);
              && ok == r.Some?
              && (ok ==> r.value == StateOf(batch, made))
    {
      var src := batch.metricSets[key];
      ok := true;
      if TYPE in src.labels && src.labels[TYPE] == TYPE_NAMESPACE {
        ok := AddInto(batch, made, src, Keys.ClusterKey(), metricsToAggregate);
      }
    }

    /** A fresh cluster set, under its key. */
    method ClusterMetricSet() returns (made: map<string, MetricSet>)
      ensures made.Keys == {Keys.ClusterKey()} && fresh(made[Keys.ClusterKey()])
      ensures ViewOf(made) == Start(ByCluster, map[]).made
    {
      var cluster := new MetricSet(map[TYPE := TYPE_CLUSTER]);
      made := map[Keys.ClusterKey() := cluster];
    }

    /** The loop over the batch. */
    method AddAllNamespaces(batch: DataBatch, made: map<string, MetricSet>) returns (ok: bool, ghost order: seq<string>)
      requires Apart(batch, made) && ViewOf(made) == Start(ByCluster, map[]).made
      modifies batch.metricSets.Values, made.Values
      ensures NoRepeats(order) && forall k :: k in order ==> k in batch.metricSets
      ensures ok ==> forall k :: k in batch.metricSets ==> k in order
      ensures Run(ByCluster, old(batch.Contents()), order, metricsToAggregate) ==
              if ok then Some(StateOf(batch, made)) else None
    {
      var todo := batch.metricSets.Keys;
      order := [];
      ok := true;
      ghost var v := batch.Contents();
      assert Keys.ClusterKey() in ViewOf(made);
      while todo != {} && ok
        invariant todo <= batch.metricSets.Keys
        invariant NoRepeats(order) && forall k :: k in order <==> k in batch.metricSets && k !in todo
        invariant Run(ByCluster, v, order, metricsToAggregate) == if ok then Some(StateOf(batch, made)) else None
        decreases todo
      {
        var key :| key in todo;
        todo := todo - {key};
        RunNext(ByCluster, v, order, key, metricsToAggregate);
        ok := Visit(batch, key, made);
        order := order + [key];
      }
    }

    /** The namespaces added up in a cluster set of their own. */
    method SumNamespaces(batch: DataBatch) returns (ok: bool, made: map<string, MetricSet>, ghost order: seq<string>)
      requires batch.Valid()
      modifies batch.metricSets.Values
      ensures NoRepeats(order) && forall k :: k in order ==> k in batch.metricSets
      ensures Apart(batch, made)
      ensures ok ==> forall k :: k in batch.metricSets ==> k in order
      ensures Run(ByCluster, old(batch.Contents()), order, metricsToAggregate) ==
              if ok then Some(StateOf(batch, made)) else None
    {
      hide Run, Start;
      made := ClusterMetricSet();
      SingleIsDistinct(made);
      ok, order := AddAllNamespaces(batch, made);
    }

    /** Process: the namespaces are added up and the sum is filed as the cluster. */
    method Process(batch: DataBatch) returns (ok: bool, ghost order: seq<string>)
      requires batch.Valid()
      modifies batch, batch.metricSets.Values
      ensures batch.Valid() && batch.timestamp == old(batch.timestamp)
      ensures NoRepeats(order) && forall k :: k in order ==> k in old(batch.metricSets)
      ensures ok == Run(ByCluster, old(batch.Contents()), order, metricsToAggregate).Some?
      ensures ok ==> IsOrder(order, old(batch.metricSets))
      ensures ok ==> Rolled(ByCluster, old(batch.Contents()), order, metricsToAggregate) == Some(batch.Contents())
    {
      hide Run;
      var made;
      ok, made, order := SumNamespaces(batch);
      if ok {
        File(batch, made);
      }
    }
  }
}
