/** The enricher and the pod aggregator together: every known pod shows what its spec states. */
module SpecRollup {
  import opened Sums
  import opened Core
  import opened Keys
  import opened Filing
  import opened Enrichment
  import opened EnrichmentMeaning
  import PA = PodAggregation

  /** What the first n containers of the spec state of r, in all. */
  function SpecTotal(pod: PodSpec, n: nat, r: Resource): int
    requires n <= |pod.containers|
  {
    if n == 0 then 0 else SpecTotal(pod, n - 1, r) + Stated(pod.containers[n - 1], r)
  }

  /** The same, container by container, under the containers' keys. */
  function SpecMap(pod: PodSpec, n: nat, r: Resource): map<string, Amount>
    requires n <= |pod.containers|
  {
    if n == 0 then map[]
    else SpecMap(pod, n - 1, r)[ContainerKey(pod, n - 1) := Amount(Stated(pod.containers[n - 1], r), 0.0)]
  }

  lemma {:induction false} SpecMapAt(pod: PodSpec, n: nat, r: Resource, k: string)
    requires Admitted(pod) && n <= |pod.containers|
    ensures k in SpecMap(pod, n, r) <==> SpecOf(pod, n, k).Some?
    ensures k in SpecMap(pod, n, r) ==> SpecMap(pod, n, r)[k] == Amount(Stated(SpecOf(pod, n, k).value, r), 0.0)
  {
    hide PodContainerKey, Stated;
    if n > 0 {
      SpecMapAt(pod, n - 1, r, k);
      SpecAt(pod, n - 1, n - 1);
    }
  }

  lemma {:induction false} SpecMapSum(pod: PodSpec, n: nat, r: Resource)
    requires Admitted(pod) && n <= |pod.containers|
    ensures Sum(SpecMap(pod, n, r)) == Amount(SpecTotal(pod, n, r), 0.0)
  {
    hide PodContainerKey, Stated, ContainerKey;
    if n > 0 {
      SpecMapSum(pod, n - 1, r);
      SpecAt(pod, n - 1, n - 1);
      SpecMapAt(pod, n - 1, r, ContainerKey(pod, n - 1));
      SumInsert(SpecMap(pod, n - 1, r), ContainerKey(pod, n - 1), Amount(Stated(pod.containers[n - 1], r), 0.0));
    }
  }

  /** Whoever is rolled up into a pod is one of its containers. */
  lemma RolledUpIsOwn(k: string, d: SetData, ns: string, p: string)
    requires FiledUnder(k, d) && '/' !in ns && '/' !in p
    ensures PA.IsContainer(d) && PA.PodKeyOf(d) == PodKey(ns, p) <==> IsContainerOf(d, ns, p)
  {
    hide FiledUnder, PodKey, PodContainerKey;
    if PA.IsContainer(d) && PA.PodKeyOf(d) == PodKey(ns, p) {
      var c := KeyOfContainer(k, d);
      PodKeysDiffer(d.labels[NAMESPACE_NAME], d.labels[POD_NAME], ns, p);
    }
  }

  /** One set's contribution to the pod is what the spec states, if the spec has it. */
  lemma ContributesItsSpec(v: View, k: string, pod: PodSpec, r: Resource, skipped: set<string>)
    requires k in v && Filed(v) && Admitted(pod) && PodCompleted(v, pod, r) && MetricName(r) !in skipped
    ensures PA.Contributes(v, k, PodKey(pod.namespace, pod.name), MetricName(r), skipped) <==>
            IsContainerOf(v[k], pod.namespace, pod.name) && Spec(pod, k).Some?
    ensures PA.Contributes(v, k, PodKey(pod.namespace, pod.name), MetricName(r), skipped) ==>
            v[k].values[MetricName(r)] == IntValue(Stated(Spec(pod, k).value, r))
  {
    hide FiledUnder, PodKey, MetricName, Stated, Spec, IsContainerOf, ContainerKey;
    RolledUpIsOwn(k, v[k], pod.namespace, pod.name);
  }

  lemma {:induction false} SpecIsAContainer(pod: PodSpec, n: nat, k: string) returns (i: nat)
    requires n <= |pod.containers| && SpecOf(pod, n, k).Some?
    ensures i < n && k == ContainerKey(pod, i)
  {
    if SpecOf(pod, n - 1, k).Some? {
      i := SpecIsAContainer(pod, n - 1, k);
    } else {
      i := n - 1;
    }
  }

  /** What the pod is given of r is the spec. */
  lemma ContributionsAreTheSpec(v: View, pod: PodSpec, r: Resource, skipped: set<string>)
    requires Filed(v) && Admitted(pod) && PodCompleted(v, pod, r) && MetricName(r) !in skipped
    ensures PA.Contributions(v, v.Keys, PodKey(pod.namespace, pod.name), MetricName(r), skipped) ==
            SpecMap(pod, |pod.containers|, r)
  {
    hide FiledUnder, PodKey, MetricName, Stated, IsContainerOf, ContainerKey, PA.Contributes, SpecMap;
    var w := PA.Contributions(v, v.Keys, PodKey(pod.namespace, pod.name), MetricName(r), skipped);
    var spec := SpecMap(pod, |pod.containers|, r);
    forall k
      ensures k in w <==> k in spec
      ensures k in w ==> w[k] == spec[k]
    {
      SpecMapAt(pod, |pod.containers|, r, k);
      if Spec(pod, k).Some? {
        var i := SpecIsAContainer(pod, |pod.containers|, k);
      }
      if k in v {
        ContributesItsSpec(v, k, pod, r, skipped);
      }
    }
  }

  lemma SpecIsConsistent(v: View, pod: PodSpec, r: Resource, skipped: set<string>)
    requires Filed(v) && Admitted(pod) && PodCompleted(v, pod, r) && MetricName(r) !in skipped
    ensures PA.Consistent(v, PodKey(pod.namespace, pod.name), MetricName(r), skipped)
  {
    hide FiledUnder, PodKey, MetricName, Stated, IsContainerOf, ContainerKey, PA.Contributes;
    forall k | PA.Contributes(v, k, PodKey(pod.namespace, pod.name), MetricName(r), skipped)
      ensures k in v && MetricName(r) in v[k].values && v[k].values[MetricName(r)].valueType == ValueInt64
    {
      assert k in v by { Contributor(v, k, PodKey(pod.namespace, pod.name), MetricName(r), skipped); }
      ContributesItsSpec(v, k, pod, r, skipped);
    }
    assert !ValueInt64.ValueOther?;
  }

  lemma Contributor(v: View, k: string, t: string, m: string, skipped: set<string>)
    requires PA.Contributes(v, k, t, m, skipped)
    ensures k in v && m in v[k].values
  {}

  /** x is the sum of what the containers of the spec state, wrapped to 64 bits. */
  predicate ShowsSpec(x: Option<MetricValue>, pod: PodSpec, r: Resource) {
    if pod.containers == [] then x.None?
    else x.Some? && x.value.valueType == ValueInt64 && x.value.intValue == Wrap64(SpecTotal(pod, |pod.containers|, r))
  }

  lemma CompletedPodShowsSpec(v: View, order: seq<string>, skipped: set<string>, r: View, pod: PodSpec, res: Resource)
    requires Filed(v) && Admitted(pod) && PodCompleted(v, pod, res) && MetricName(res) !in skipped
    requires IsOrder(order, v) && PA.Aggregated(v, order, skipped) == Some(r)
    ensures PodKey(pod.namespace, pod.name) in r
    ensures ShowsSpec(At(r[PodKey(pod.namespace, pod.name)].values, MetricName(res)), pod, res)
  {
    hide MetricName, Stated, IsContainerOf, ContainerKey, PA.Contributes, PodKey, Wrap64,
         FiledUnder, SpecMap, SpecTotal;
    var podKey, m := PodKey(pod.namespace, pod.name), MetricName(res);
    FiledIsSeparated(v);
    SpecIsConsistent(v, pod, res, skipped);
    PA.AbsentMetricIsSummed(v, order, skipped, podKey, m);
    assert Seen(order) == v.Keys;
    ContributionsAreTheSpec(v, pod, res, skipped);
    SpecMapSum(pod, |pod.containers|, res);
    SpecMapEmpty(pod, res);
    if pod.containers != [] {
      var k := ContainerKey(pod, 0);
      SpecAt(pod, |pod.containers|, 0);
      ContributesItsSpec(v, k, pod, res, skipped);
      r[podKey].values[m].ShownExactly(Amount(SpecTotal(pod, |pod.containers|, res), 0.0));
    }
  }

  lemma SpecMapEmpty(pod: PodSpec, r: Resource)
    ensures SpecMap(pod, |pod.containers|, r) == map[] <==> pod.containers == []
  {
    if pod.containers != [] {
      assert ContainerKey(pod, |pod.containers| - 1) in SpecMap(pod, |pod.containers|, r);
    }
  }

  /**
   * Whatever was scraped of a known pod, and in whatever orders the batch is gone through, the
   * enricher and the pod aggregator leave the pod with the sum over all the containers of its spec.
   */
  lemma KnownPodShowsItsSpec(
      v: View, o1: seq<string>, pods: Lister, copy: Copier, v1: View, o2: seq<string>, skipped: set<string>, v2: View,
      id: (string, string), r: Resource)
    requires IsOrder(o1, v) && Filed(v) && Unstated(v) && KeepsIdentity(copy) && Listed(pods)
    requires v1 == Enriched(v, o1, pods, copy)
    requires IsOrder(o2, v1) && MetricName(r) !in skipped && PA.Aggregated(v1, o2, skipped) == Some(v2)
    requires id in pods && Scraped(v, id.0, id.1)
    ensures PodKey(id.0, id.1) in v2
    ensures ShowsSpec(At(v2[PodKey(id.0, id.1)].values, MetricName(r)), pods[id], r)
  {
    EnrichedIsComplete(v, o1, pods, copy, id, r);
    CompletedPodShowsSpec(v1, o2, skipped, v2, pods[id], r);
  }
}
