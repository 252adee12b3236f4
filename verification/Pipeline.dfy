/**
 * metrics/heapster.go:234-289 and metrics/manager/manager.go:135-143: the processors in a row. Where each metric name
 * has one type, and that one can be added, none of them fails, and the cluster shows the demand.
 */
module Pipeline {
  import opened Sums
  import opened Core
  import opened Keys
  import opened Enrichment
  import opened EnrichmentMeaning
  import PA = PodAggregation
  import RU = Rollup
  import opened Filing
  import opened ClusterDemand

  /** The type each metric name has. */
  type Types = string -> ValueType

  ghost predicate TypedValues(values: map<string, MetricValue>, types: Types) {
    forall m :: m in values ==> values[m].valueType == types(m) && values[m].Supported()
  }

  /** Every value has the type of its name, and it can be added. */
  ghost predicate Typed(v: View, types: Types) {
    forall k :: k in v ==> TypedValues(v[k].values, types)
  }

  /** What the enricher writes is meant to be an integer. */
  ghost predicate IntegersStated(types: Types) {
    && (forall resource :: types(RequestName(resource)) == ValueInt64)
    && (forall r :: types(MetricName(r)) == ValueInt64)
    && types(RESTART_COUNT) == ValueInt64
  }

  // ----- The enricher -----

  lemma {:induction false} RequestedTyped(values: map<string, MetricValue>, requests: map<string, Quantity>,
        order: seq<string>, types: Types)
    requires TypedValues(values, types) && IntegersStated(types)
    ensures TypedValues(Requested(values, requests, order), types)
  {
    hide RequestName;
    if order != [] {
      RequestedTyped(values, requests, order[..|order| - 1], types);
    }
  }

  lemma NamesTyped(types: Types)
    requires IntegersStated(types)
    ensures types(CPU_REQUEST) == types(MEMORY_REQUEST) == types(EPHEMERAL_REQUEST) == ValueInt64
    ensures types(CPU_LIMIT) == types(MEMORY_LIMIT) == types(EPHEMERAL_LIMIT) == ValueInt64
  {
    hide RequestName;
    assert types(MetricName(CpuRequest)) == types(MetricName(MemoryRequest)) == types(MetricName(EphemeralRequest));
    assert types(MetricName(CpuLimit)) == types(MetricName(MemoryLimit)) == types(MetricName(EphemeralLimit));
  }

  lemma ZeroTyped(requests: map<string, Quantity>, types: Types)
    requires IntegersStated(types)
    ensures TypedValues(ZeroRequests(requests), types)
  {
    hide IntegersStated;
    NamesTyped(types);
  }

  lemma LimitsTyped(c: Container, types: Types)
    requires IntegersStated(types)
    ensures TypedValues(LimitMap(c), types)
  {
    hide IntegersStated, Stated;
    NamesTyped(types);
  }

  lemma ResourcedTyped(values: map<string, MetricValue>, c: Container, types: Types)
    requires TypedValues(values, types) && IntegersStated(types)
    ensures TypedValues(Resourced(values, c), types)
  {
    hide Requested, ZeroRequests, LimitMap;
    RequestedTyped(values, c.requests, c.range, types);
    ZeroTyped(c.requests, types);
    LimitsTyped(c, types);
  }

  lemma ContainerInfoTyped(d: SetData, key: string, pod: PodSpec, copy: Copier, types: Types)
    requires TypedValues(d.values, types) && IntegersStated(types)
    ensures TypedValues(ContainerInfo(d, key, pod, copy).values, types)
  {
    hide Resourced;
    if Spec(pod, key).Some? {
      ResourcedTyped(d.values, Spec(pod, key).value, types);
    }
  }

  ghost predicate StateTyped(s: State, types: Types) {
    Typed(s.sets, types) && Typed(s.newMs, types)
  }

  ghost predicate MakesTyped(make: Maker, types: Types) {
    forall key, c :: TypedValues(make(key, c).values, types)
  }

  lemma StubberTyped(podMs: SetData, pod: PodSpec, copy: Copier, types: Types)
    requires IntegersStated(types)
    ensures MakesTyped(Stubber(podMs, pod, copy), types)
  {
    hide Resourced, StubLabels;
    forall key: string, c: Container
      ensures TypedValues(Stubber(podMs, pod, copy)(key, c).values, types)
    {
      ResourcedTyped(map[], c, types);
    }
  }

  lemma {:induction false} StubsTyped(s: State, pod: PodSpec, n: nat, make: Maker, types: Types)
    requires n <= |pod.containers| && StateTyped(s, types) && MakesTyped(make, types)
    ensures StateTyped(WithStubs(s, pod, n, make), types)
  {
    hide TypedValues, ContainerKey;
    if n > 0 {
      StubsTyped(s, pod, n - 1, make, types);
    }
  }

  lemma AddPodTyped(s: State, key: string, pod: PodSpec, copy: Copier, types: Types)
    requires key in s.sets && StateTyped(s, types) && IntegersStated(types)
    ensures StateTyped(AddPod(s, key, pod, copy), types)
  {
    hide WithStubs, Stubber, MakesTyped, IntegersStated;
    var podMs := PodInfo(s.sets[key], key, pod, copy);
    StubberTyped(podMs, pod, copy, types);
    StubsTyped(s.(sets := s.sets[key := podMs]), pod, |pod.containers|, Stubber(podMs, pod, copy), types);
  }

  lemma PodStubTyped(s: State, podKey: string, d: SetData, pod: PodSpec, copy: Copier, types: Types)
    requires StateTyped(s, types) && IntegersStated(types)
    ensures StateTyped(WithPodStub(s, podKey, d, pod, copy), types)
  {
    hide WithStubs, Stubber, MakesTyped, IntegersStated;
    var podMs := PodInfo(PodStub(d.labels), podKey, pod, copy);
    StubberTyped(podMs, pod, copy, types);
    StubsTyped(s.(newMs := s.newMs[podKey := podMs]), pod, |pod.containers|, Stubber(podMs, pod, copy), types);
  }

  lemma StepTyped(s: State, key: string, pods: Lister, copy: Copier, types: Types)
    requires key in s.sets && StateTyped(s, types) && IntegersStated(types)
    ensures StateTyped(Step(s, key, pods, copy), types)
  {
    hide AddPod, WithPodStub, ContainerInfo, TypedValues, IntegersStated, PodKey;
    var d := s.sets[key];
    if Id(d) in pods {
      var pod := pods[Id(d)];
      if HasType(d, TYPE_POD) {
        AddPodTyped(s, key, pod, copy, types);
      } else if HasType(d, TYPE_POD_CONTAINER) {
        var d' := ContainerInfo(d, key, pod, copy);
        ContainerInfoTyped(d, key, pod, copy, types);
        PodStubTyped(s.(sets := s.sets[key := d']),
                     PodKey(Get(d'.labels, NAMESPACE_NAME), Get(d'.labels, POD_NAME)), d', pod, copy, types);
      }
    }
  }

  lemma {:induction false} RunTyped(v: View, order: seq<string>, pods: Lister, copy: Copier, types: Types)
    requires (forall k :: k in order ==> k in v) && Typed(v, types) && IntegersStated(types)
    ensures StateTyped(Run(v, order, pods, copy), types)
  {
    hide Step, IntegersStated;
    if order != [] {
      var n := |order| - 1;
      assert order == order[..n] + [order[n]];
      RunTyped(v, order[..n], pods, copy, types);
      RunNext(v, order[..n], order[n], pods, copy);
      StepTyped(Run(v, order[..n], pods, copy), order[n], pods, copy, types);
    }
  }

  lemma EnrichedTyped(v: View, order: seq<string>, pods: Lister, copy: Copier, types: Types)
    requires (forall k :: k in order ==> k in v) && Typed(v, types) && IntegersStated(types)
    ensures Typed(Enriched(v, order, pods, copy), types)
  {
    hide Run, IntegersStated;
    RunTyped(v, order, pods, copy, types);
  }

  // ----- The pod aggregator -----

  ghost predicate PodStateTyped(s: PA.State, types: Types) {
    Typed(s.sets, types) && Typed(s.newPods, types)
  }

  lemma ContributeTyped(pod: map<string, MetricValue>, podKey: string, flags: set<string>,
        c: map<string, MetricValue>, names: set<string>, types: Types)
    requires names <= c.Keys && TypedValues(pod, types) && TypedValues(c, types)
    ensures !PA.Refused(pod, podKey, flags, c, names)
    ensures TypedValues(PA.Contribute(pod, podKey, flags, c, names), types)
  {
    hide Wrap64;
  }

  lemma RollIntoTyped(s: PA.State, podKey: string, c: SetData, skipped: set<string>, types: Types)
    requires s.HasPod(podKey) && PodStateTyped(s, types) && TypedValues(c.values, types)
    ensures PA.RollInto(s, podKey, c, skipped).Some? && PodStateTyped(PA.RollInto(s, podKey, c, skipped).value, types)
  {
    hide PA.NewFlags, PA.Contribute, PA.Refused, TypedValues;
    ContributeTyped(s.PodValues(podKey), podKey, s.flags, c.values, PA.Rolled(c, skipped), types);
  }

  lemma PodStepTyped(s: PA.State, key: string, skipped: set<string>, types: Types)
    requires key in s.sets && PodStateTyped(s, types)
    ensures PA.Step(s, key, skipped).Some? && PodStateTyped(PA.Step(s, key, skipped).value, types)
  {
    hide PA.RollInto, PA.PodLabels;
    var c := s.sets[key];
    if PA.IsContainer(c) {
      RollIntoTyped(PA.WithPod(s, PA.PodKeyOf(c), c.labels), PA.PodKeyOf(c), c, skipped, types);
    }
  }

  lemma {:induction false} PodRunTyped(v: View, order: seq<string>, skipped: set<string>, types: Types)
    requires (forall k :: k in order ==> k in v) && Typed(v, types)
    ensures PA.Run(v, order, skipped).Some? && PodStateTyped(PA.Run(v, order, skipped).value, types)
  {
    hide PA.Step;
    if order != [] {
      var n := |order| - 1;
      assert order == order[..n] + [order[n]];
      PodRunTyped(v, order[..n], skipped, types);
      PA.RunNext(v, order[..n], order[n], skipped);
      PodStepTyped(PA.Run(v, order[..n], skipped).value, order[n], skipped, types);
    }
  }

  lemma AggregatedTyped(v: View, order: seq<string>, skipped: set<string>, types: Types)
    requires (forall k :: k in order ==> k in v) && Typed(v, types)
    ensures PA.Aggregated(v, order, skipped).Some? && Typed(PA.Aggregated(v, order, skipped).value, types)
  {
    hide PA.Run;
    PodRunTyped(v, order, skipped, types);
  }

  // ----- The other aggregators -----

  lemma {:induction false} AddAllTyped(src: map<string, MetricValue>, dst: map<string, MetricValue>,
        names: seq<string>, types: Types)
    requires TypedValues(src, types) && TypedValues(dst, types)
    ensures RU.AddAll(src, dst, names).Some? && TypedValues(RU.AddAll(src, dst, names).value, types)
  {
    hide Wrap64;
    if names != [] {
      AddAllTyped(src, dst, names[..|names| - 1], types);
    }
  }

  ghost predicate RollStateTyped(s: RU.State, types: Types) {
    Typed(s.sets, types) && Typed(s.made, types)
  }

  lemma RollStepTyped(roll: RU.Roll, s: RU.State, key: string, names: seq<string>, types: Types)
    requires key in s.sets && RollStateTyped(s, types)
    ensures RU.Step(roll, s, key, names).Some? && RollStateTyped(RU.Step(roll, s, key, names).value, types)
  {
    hide RU.AddAll, RU.TargetOf;
    var d := s.sets[key];
    var t := RU.TargetOf(roll, d);
    if t.Some? {
      var s1 := RU.Prepared(roll, s, t.value, d);
      assert RollStateTyped(s1, types);
      if s1.Has(t.value) {
        AddAllTyped(d.values, s1.Values(t.value), names, types);
      }
    }
  }

  lemma {:induction false} RollRunTyped(roll: RU.Roll, v: View, order: seq<string>, names: seq<string>, types: Types)
    requires (forall k :: k in order ==> k in v) && Typed(v, types)
    ensures RU.Run(roll, v, order, names).Some? && RollStateTyped(RU.Run(roll, v, order, names).value, types)
  {
    hide RU.Step;
    if order != [] {
      var n := |order| - 1;
      assert order == order[..n] + [order[n]];
      RollRunTyped(roll, v, order[..n], names, types);
      RU.RunNext(roll, v, order[..n], order[n], names);
      RollStepTyped(roll, RU.Run(roll, v, order[..n], names).value, order[n], names, types);
    }
  }

  lemma RolledTyped(roll: RU.Roll, v: View, order: seq<string>, names: seq<string>, types: Types)
    requires (forall k :: k in order ==> k in v) && Typed(v, types)
    ensures RU.Rolled(roll, v, order, names).Some? && Typed(RU.Rolled(roll, v, order, names).value, types)
  {
    hide RU.Run;
    RollRunTyped(roll, v, order, names, types);
  }

  // ----- All in a row -----

  /** The orders in which the processors, counted from 0, go through the keys of their batches. */
  type Ranges = f: (nat, set<string>) -> seq<string> | Fair(f)
    ghost witness (i: nat, keys: set<string>) => SomeOrder(keys)

  ghost predicate Fair(f: (nat, set<string>) -> seq<string>) {
    forall i, keys :: (forall k :: k in f(i, keys) <==> k in keys) && NoRepeats(f(i, keys))
  }

  /** What the processors are set up with. */
  datatype Setup = Setup(pods: Lister, copy: Copier, skipped: set<string>, names: seq<string>, nodeNames: seq<string>)

  /** The batch after the five processors; a processor that fails ends the job. */
  ghost function Processed(v: View, setup: Setup, ranges: Ranges): Option<View> {
    var v1 := Enriched(v, ranges(0, v.Keys), setup.pods, setup.copy);
    var r2 := PA.Aggregated(v1, ranges(1, v1.Keys), setup.skipped);
    if r2.None? then None
    else
      var r3 := RU.Rolled(RU.ByNamespace, r2.value, ranges(2, r2.value.Keys), setup.names);
      if r3.None? then None
      else
        var r4 := RU.Rolled(RU.ByNode, r3.value, ranges(3, r3.value.Keys), setup.nodeNames);
        if r4.None? then None
        else RU.Rolled(RU.ByCluster, r4.value, ranges(4, r4.value.Keys), setup.names)
  }

  /** With one type for each metric name, and that one can be added, no processor fails, in any orders. */
  lemma ProcessedTyped(v: View, setup: Setup, ranges: Ranges, types: Types)
    requires Typed(v, types) && IntegersStated(types)
    ensures Processed(v, setup, ranges).Some? && Typed(Processed(v, setup, ranges).value, types)
  {
    hide Enriched, PA.Aggregated, RU.Rolled, Typed, IntegersStated;
    var v1 := Enriched(v, ranges(0, v.Keys), setup.pods, setup.copy);
    EnrichedTyped(v, ranges(0, v.Keys), setup.pods, setup.copy, types);
    AggregatedTyped(v1, ranges(1, v1.Keys), setup.skipped, types);
    var v2 := PA.Aggregated(v1, ranges(1, v1.Keys), setup.skipped).value;
    RolledTyped(RU.ByNamespace, v2, ranges(2, v2.Keys), setup.names, types);
    var v3 := RU.Rolled(RU.ByNamespace, v2, ranges(2, v2.Keys), setup.names).value;
    RolledTyped(RU.ByNode, v3, ranges(3, v3.Keys), setup.nodeNames, types);
    var v4 := RU.Rolled(RU.ByNode, v3, ranges(3, v3.Keys), setup.nodeNames).value;
    RolledTyped(RU.ByCluster, v4, ranges(4, v4.Keys), setup.names, types);
  }

  /** A scraped batch: filed by its labels, without the six metrics, without namespaces. */
  ghost predicate AsScraped(v: View) {
    Filed(v) && Unstated(v) && NoNamespaceSets(v)
  }

  ghost predicate Sound(setup: Setup) {
    KeepsIdentity(setup.copy) && Listed(setup.pods) && NoRepeats(setup.names) && NoRepeats(setup.nodeNames)
  }

  /**
   * For every scraped batch in which each metric name has one type that can be added, and whatever orders the
   * processors take, the pipeline succeeds and the cluster shows the demand of the pods that were seen.
   */
  lemma PipelineShowsDemand(v: View, setup: Setup, ranges: Ranges, types: Types, r: Resource)
    requires AsScraped(v) && Sound(setup) && Typed(v, types) && IntegersStated(types)
    requires MetricName(r) !in setup.skipped && MetricName(r) in setup.names
    ensures Processed(v, setup, ranges).Some? && ClusterKey() in Processed(v, setup, ranges).value
    ensures var x := At(Processed(v, setup, ranges).value[ClusterKey()].values, MetricName(r));
            var demand := Demand(v, setup.pods, r);
            if demand == map[] then x.None?
            else x.Some? && x.value.valueType == ValueInt64 && x.value.intValue == Wrap64(Sum(demand).i)
  {
    hide Enriched, PA.Aggregated, RU.Rolled, Typed, IntegersStated, MetricName, Wrap64, Demand,
         KeepsIdentity, Listed, Filed, Unstated, NoNamespaceSets, NoRepeats;
    ProcessedTyped(v, setup, ranges, types);
    var o1 := ranges(0, v.Keys);
    var v1 := Enriched(v, o1, setup.pods, setup.copy);
    var o2 := ranges(1, v1.Keys);
    var v2 := PA.Aggregated(v1, o2, setup.skipped).value;
    var o3 := ranges(2, v2.Keys);
    var v3 := RU.Rolled(RU.ByNamespace, v2, o3, setup.names).value;
    var o4 := ranges(3, v3.Keys);
    var v4 := RU.Rolled(RU.ByNode, v3, o4, setup.nodeNames).value;
    var o5 := ranges(4, v4.Keys);
    var v5 := RU.Rolled(RU.ByCluster, v4, o5, setup.names).value;
    ClusterShowsDemand(v, o1, setup.pods, setup.copy, v1, o2, setup.skipped, v2, o3, setup.names, v3,
                       o4, setup.nodeNames, v4, o5, v5, r);
  }
}
