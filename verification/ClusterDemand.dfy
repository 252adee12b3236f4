/**
 * From the scraped batch to the cluster: enricher, pod aggregator, namespace, node and cluster
 * aggregators.  The cluster shows what all the specs of the pods that were seen state.
 */
module ClusterDemand {
  import opened Sums
  import opened Core
  import opened Keys
  import opened Filing
  import opened Enrichment
  import opened EnrichmentMeaning
  import opened SpecRollup
  import PA = PodAggregation
  import RU = Rollup
  import CV = Conservation

  // ----- Where the sets of a batch come from -----

  /** Stubs are for known pods that were scraped; unknown pods are left as they were. */
  ghost predicate Origins(v: View, s: State, pods: Lister) {
    && (forall k :: k in s.newMs ==> Id(s.newMs[k]) in pods && Scraped(v, Id(s.newMs[k]).0, Id(s.newMs[k]).1))
    && (forall k :: k in s.newMs ==> HasType(s.newMs[k], TYPE_POD) || HasType(s.newMs[k], TYPE_POD_CONTAINER))
    && (forall k :: k in v && k in s.sets && Id(v[k]) !in pods ==> s.sets[k] == v[k])
  }

  lemma StubSaysItsPod(k: string, d: SetData, pod: PodSpec, r: Resource)
    requires StubFor(k, d, pod, r)
    ensures Id(d) == (pod.namespace, pod.name)
    ensures HasType(d, TYPE_POD) || HasType(d, TYPE_POD_CONTAINER)
  {
    hide MetricName, Stated, PodKey, PodContainerKey;
  }

  lemma SetIsScraped(v: View, key: string)
    requires Filed(v) && key in v && (HasType(v[key], TYPE_POD) || HasType(v[key], TYPE_POD_CONTAINER))
    ensures Scraped(v, Id(v[key]).0, Id(v[key]).1)
  {
    var e :| WellNamed(e) && key == KeyOf(e) && Describes(v[key].labels, e);
    assert |TYPE_POD| == 3 && |TYPE_POD_CONTAINER| == 13;
    assert |TYPE_NAMESPACE| == 2 && |TYPE_NODE| == 4 && |TYPE_CLUSTER| == 7;
    assert |"sys_container"| == 13 && "sys_container"[0] != TYPE_POD_CONTAINER[0];
    if HasType(v[key], TYPE_POD_CONTAINER) {
      assert IsContainerOf(v[key], Id(v[key]).0, Id(v[key]).1);
    }
  }

  lemma {:induction false} RunOrigins(v: View, order: seq<string>, pods: Lister, copy: Copier)
    requires (forall k :: k in order ==> k in v) && Filed(v) && KeepsIdentity(copy) && Listed(pods)
    ensures Origins(v, Run(v, order, pods, copy), pods)
  {
    if order != [] {
      var n := |order| - 1;
      assert forall k :: k in order[..n] ==> k in order;
      RunOrigins(v, order[..n], pods, copy);
      IdentitiesKept(v, order[..n], pods, copy, order[n]);
      StepOrigins(v, Run(v, order[..n], pods, copy), order[n], pods, copy);
    }
  }

  lemma SameIdentitySame(d: SetData, d': SetData)
    requires SameIdentity(d'.labels, d.labels)
    ensures Id(d') == Id(d)
    ensures HasType(d', TYPE_POD) <==> HasType(d, TYPE_POD)
    ensures HasType(d', TYPE_POD_CONTAINER) <==> HasType(d, TYPE_POD_CONTAINER)
  {}

  /** A stub added in this round is for the pod of the set visited. */
  lemma StubOrigin(v: View, s: State, key: string, pods: Lister, copy: Copier, k: string)
    requires Filed(v) && KeepsIdentity(copy) && Listed(pods) && key in v && key in s.sets
    requires SameIdentity(s.sets[key].labels, v[key].labels) && Id(s.sets[key]) in pods
    requires k in Step(s, key, pods, copy).newMs && k !in s.newMs
    ensures var d := Step(s, key, pods, copy).newMs[k];
            && Id(d) == Id(s.sets[key]) && Scraped(v, Id(d).0, Id(d).1)
            && (HasType(d, TYPE_POD) || HasType(d, TYPE_POD_CONTAINER))
  {
    hide Step, Touched, StubFor, Scraped, FiledUnder, KeepsIdentity, HasType, SameIdentity, Id;
    var d := s.sets[key];
    SameIdentitySame(v[key], d);
    StepGrows(s, key, pods, copy, CpuRequest);
    StubSaysItsPod(k, Step(s, key, pods, copy).newMs[k], pods[Id(d)], CpuRequest);
    StubsNeedType(s, key, pods, copy, k);
    SetIsScraped(v, key);
    ListedId(pods, Id(d));
  }

  lemma ListedId(pods: Lister, id: (string, string))
    requires Listed(pods) && id in pods
    ensures (pods[id].namespace, pods[id].name) == id
  {}

  lemma StepOrigins(v: View, s: State, key: string, pods: Lister, copy: Copier)
    requires Filed(v) && KeepsIdentity(copy) && Listed(pods) && s.sets.Keys == v.Keys && key in v
    requires SameIdentity(s.sets[key].labels, v[key].labels) && Origins(v, s, pods)
    ensures Origins(v, Step(s, key, pods, copy), pods)
  {
    hide Step, Touched, Scraped, FiledUnder, KeepsIdentity, HasType, SameIdentity, Id, StubFor;
    var d := s.sets[key];
    StepVisits(s, key, pods, copy);
    SameIdentitySame(v[key], d);
    if Id(d) !in pods {
      StepSkips(s, key, pods, copy);
    } else {
      StepGrows(s, key, pods, copy, CpuRequest);
      var s' := Step(s, key, pods, copy);
      forall k | k in s'.newMs && k !in s.newMs
        ensures Id(s'.newMs[k]) == Id(d) && Scraped(v, Id(s'.newMs[k]).0, Id(s'.newMs[k]).1)
        ensures HasType(s'.newMs[k], TYPE_POD) || HasType(s'.newMs[k], TYPE_POD_CONTAINER)
      {
        StubOrigin(v, s, key, pods, copy, k);
      }
    }
  }

  lemma StubsNeedType(s: State, key: string, pods: Lister, copy: Copier, k: string)
    requires key in s.sets && k in Step(s, key, pods, copy).newMs && k !in s.newMs
    ensures HasType(s.sets[key], TYPE_POD) || HasType(s.sets[key], TYPE_POD_CONTAINER)
  {
    hide HasType, AddPod, AddContainer;
  }

  /** A batch as the sources leave it, and what the enricher makes of it. */
  ghost predicate Enriching(v: View, order: seq<string>, pods: Lister, copy: Copier, v1: View) {
    && IsOrder(order, v) && Filed(v) && Unstated(v) && KeepsIdentity(copy) && Listed(pods)
    && v1 == Enriched(v, order, pods, copy)
  }

  predicate PodOrContainer(d: SetData) {
    HasType(d, TYPE_POD) || HasType(d, TYPE_POD_CONTAINER)
  }

  lemma EnrichedScraped(v: View, order: seq<string>, pods: Lister, copy: Copier, v1: View, k: string)
    requires Enriching(v, order, pods, copy, v1) && k in v1 && PodOrContainer(v1[k])
    ensures Scraped(v, Id(v1[k]).0, Id(v1[k]).1)
  {
    hide Run, Scraped, FiledUnder, KeepsIdentity, HasType, SameIdentity, Id;
    RunOrigins(v, order, pods, copy);
    var s := Run(v, order, pods, copy);
    if k !in s.newMs {
      IdentitiesKept(v, order, pods, copy, k);
      SameIdentitySame(v[k], s.sets[k]);
      SetIsScraped(v, k);
    }
  }

  /** Nothing of an unknown pod states r. */
  lemma UnknownStatesNothing(v: View, order: seq<string>, pods: Lister, copy: Copier, v1: View, k: string, r: Resource)
    requires Enriching(v, order, pods, copy, v1) && k in v1 && PodOrContainer(v1[k])
    requires Id(v1[k]) !in pods
    ensures MetricName(r) !in v1[k].values
  {
    hide Run, Scraped, FiledUnder, KeepsIdentity, HasType, SameIdentity, Id, MetricName;
    RunOrigins(v, order, pods, copy);
    var s := Run(v, order, pods, copy);
    assert k !in s.newMs;
    IdentitiesKept(v, order, pods, copy, k);
    SameIdentitySame(v[k], s.sets[k]);
  }

  // ----- After the pod aggregator -----

  ghost predicate Aggregating(v1: View, order: seq<string>, skipped: set<string>, v2: View) {
    IsOrder(order, v1) && PA.Aggregated(v1, order, skipped) == Some(v2)
  }

  lemma PodLabelsSay(labels: map<string, string>)
    requires NAMESPACE_NAME in labels && POD_NAME in labels
    ensures var l := PA.PodLabels(labels);
            TYPE in l && l[TYPE] == TYPE_POD && Says(l, labels[NAMESPACE_NAME], labels[POD_NAME])
  {
    LabelsDiffer();
    assert TYPE !in PA.LABELS_TO_POPULATE by {
      assert |TYPE| == 4 && |NAMESPACE_ID| == 12 && |HOSTNAME| == 8 && |POD_ID| == 6 && |HOST_ID| == 7;
    }
    assert PA.LABELS_TO_POPULATE[1] == POD_NAME && PA.LABELS_TO_POPULATE[2] == NAMESPACE_NAME;
  }

  /** A pod made up from a container is filed as that container's pod. */
  lemma MadeUpIsFiled(v1: View, k: string, d: SetData, c: string)
    requires Filed(v1) && PA.MadeUpFrom(v1, k, d, c)
    ensures FiledUnder(k, d) && HasType(d, TYPE_POD) && Id(d) == Id(v1[c])
  {
    var name := KeyOfContainer(c, v1[c]);
    PodLabelsSay(v1[c].labels);
    var e := Pod(v1[c].labels[NAMESPACE_NAME], v1[c].labels[POD_NAME]);
    assert WellNamed(e) && k == KeyOf(e) && Describes(d.labels, e);
  }

  /** Every set after aggregation: its file, its type, and where it comes from. */
  lemma AggregatedSet(v1: View, order: seq<string>, skipped: set<string>, v2: View, k: string) returns (c: string)
    requires Filed(v1) && Aggregating(v1, order, skipped, v2) && k in v2
    ensures FiledUnder(k, v2[k]) && c in v1
    ensures k in v1 ==> c == k && v2[k].labels == v1[k].labels
    ensures k !in v1 ==> HasType(v2[k], TYPE_POD) && PA.IsContainer(v1[c]) && Id(v1[c]) == Id(v2[k])
  {
    hide PA.Run, FiledUnder, HasType, Id;
    if k in v1 {
      c := k;
      PA.KindsKept(v1, order, skipped, k);
      SameLabelsFiled(k, v1[k], v2[k]);
    } else {
      c := PA.NewPodsHaveAContainer(v1, order, skipped, k);
      MadeUpIsFiled(v1, k, v2[k], c);
    }
  }

  lemma SameLabelsFiled(k: string, d: SetData, d': SetData)
    requires FiledUnder(k, d) && d'.labels == d.labels
    ensures FiledUnder(k, d')
  {}

  /** A pod that states r after aggregation is a known pod that was scraped and has containers. */
  lemma StatingPodIsKnown(
      v: View, o1: seq<string>, pods: Lister, copy: Copier, v1: View, o2: seq<string>, skipped: set<string>, v2: View,
      k: string, r: Resource)
    requires Enriching(v, o1, pods, copy, v1) && Filed(v1)
    requires Aggregating(v1, o2, skipped, v2) && MetricName(r) !in skipped
    requires k in v2 && HasType(v2[k], TYPE_POD) && MetricName(r) in v2[k].values
    ensures var id := Id(v2[k]);
            && k == PodKey(id.0, id.1) && '/' !in id.0 && '/' !in id.1
            && id in pods && Scraped(v, id.0, id.1) && pods[id].containers != []
  {
    hide Enriched, PA.Run, FiledUnder, MetricName, Scraped, KeepsIdentity, PodKey, ShowsSpec;
    var c := AggregatedSet(v1, o2, skipped, v2, k);
    PodSetKey(k, v2[k]);
    var id := Id(v2[k]);
    EnrichedScraped(v, o1, pods, copy, v1, c);
    if id !in pods {
      UnknownPodStays(v, o1, pods, copy, v1, o2, skipped, v2, k, r);
      assert false;
    } else {
      KnownPodShowsItsSpec(v, o1, pods, copy, v1, o2, skipped, v2, id, r);
      NoSpecNothing(At(v2[k].values, MetricName(r)), pods[id], r);
    }
  }

  lemma NoSpecNothing(x: Option<MetricValue>, pod: PodSpec, r: Resource)
    requires ShowsSpec(x, pod, r)
    ensures x.Some? <==> pod.containers != []
  {}

  /** Nothing is rolled up into an unknown pod. */
  lemma UnknownPodStays(
      v: View, o1: seq<string>, pods: Lister, copy: Copier, v1: View, o2: seq<string>, skipped: set<string>, v2: View,
      k: string, r: Resource)
    requires Enriching(v, o1, pods, copy, v1) && Filed(v1)
    requires Aggregating(v1, o2, skipped, v2)
    requires k in v2 && HasType(v2[k], TYPE_POD) && Id(v2[k]) !in pods
    requires k == PodKey(Id(v2[k]).0, Id(v2[k]).1) && '/' !in Id(v2[k]).0 && '/' !in Id(v2[k]).1
    ensures MetricName(r) !in v2[k].values
  {
    hide Enriched, PA.Run, FiledUnder, MetricName, Scraped, KeepsIdentity, PodKey;
    var id := Id(v2[k]);
    var m := MetricName(r);
    forall j ensures !PA.Contributes(v1, j, k, m, skipped) {
      if j in v1 && PA.IsContainer(v1[j]) && PA.PodKeyOf(v1[j]) == k {
        RolledUpIsOwn(j, v1[j], id.0, id.1);
        UnknownStatesNothing(v, o1, pods, copy, v1, j, r);
      }
    }
    if k in v1 {
      UnderPodKey(k, v1[k], id.0, id.1);
      UnknownStatesNothing(v, o1, pods, copy, v1, k, r);
    }
    FiledIsSeparated(v1);
    assert !ValueInt64.ValueOther?;
    PA.AbsentMetricIsSummed(v1, o2, skipped, k, m);
    assert PA.Contributions(v1, Seen(o2), k, m, skipped) == map[];
  }

  // ----- The cluster -----

  /** What each known pod that was seen asks for, from its spec alone. */
  ghost function Demand(v: View, pods: Lister, r: Resource): map<(string, string), Amount> {
    map id | id in pods && Scraped(v, id.0, id.1) && pods[id].containers != [] ::
      Amount(SpecTotal(pods[id], |pods[id].containers|, r), 0.0)
  }

  ghost predicate NoNamespaceSets(v: View) {
    forall k :: k in v ==> !HasType(v[k], TYPE_NAMESPACE)
  }

  lemma TypesDiffer(d: SetData)
    ensures HasType(d, TYPE_POD) || HasType(d, TYPE_POD_CONTAINER) ==> !HasType(d, TYPE_NAMESPACE)
  {
    assert |TYPE_POD| == 3 && |TYPE_POD_CONTAINER| == 13 && |TYPE_NAMESPACE| == 2;
  }

  lemma NoNamespaceInEnriched(v: View, order: seq<string>, pods: Lister, copy: Copier, v1: View)
    requires Enriching(v, order, pods, copy, v1) && NoNamespaceSets(v)
    ensures NoNamespaceSets(v1)
  {
    hide Run, Scraped, FiledUnder, KeepsIdentity, SameIdentity, Id, HasType;
    RunOrigins(v, order, pods, copy);
    var s := Run(v, order, pods, copy);
    forall k | k in v1 ensures !HasType(v1[k], TYPE_NAMESPACE) {
      if k in s.newMs {
        TypesDiffer(v1[k]);
      } else {
        IdentitiesKept(v, order, pods, copy, k);
        SameIdentityType(v[k], v1[k]);
      }
    }
  }

  lemma SameIdentityType(d: SetData, d': SetData)
    requires SameIdentity(d'.labels, d.labels)
    ensures HasType(d', TYPE_NAMESPACE) <==> HasType(d, TYPE_NAMESPACE)
  {}

  /** Nor is there one after aggregation, under any namespace's key. */
  lemma NoNamespaceInAggregated(v1: View, order: seq<string>, skipped: set<string>, v2: View)
    requires Filed(v1) && Aggregating(v1, order, skipped, v2) && NoNamespaceSets(v1)
    ensures CV.NoNamespaces(v2)
  {
    hide PA.Run, FiledUnder, PA.Aggregated;
    forall k | k in v2
      ensures !HasType(v2[k], TYPE_NAMESPACE) && FiledUnder(k, v2[k])
    {
      var c := AggregatedSet(v1, order, skipped, v2, k);
      TypesDiffer(v2[k]);
    }
    forall k | k in v2 && RU.TargetOf(RU.ByNamespace, v2[k]).Some?
      ensures RU.TargetOf(RU.ByNamespace, v2[k]).value !in v2
    {
      PodSetKey(k, v2[k]);
      var ns := v2[k].labels[NAMESPACE_NAME];
      if NamespaceKey(ns) in v2 {
        UnderNamespaceKey(NamespaceKey(ns), v2[NamespaceKey(ns)], ns);
      }
    }
  }

  lemma UnderNamespaceKey(k: string, d: SetData, ns: string)
    requires FiledUnder(k, d) && '/' !in ns && k == NamespaceKey(ns)
    ensures HasType(d, TYPE_NAMESPACE)
  {
    var e :| WellNamed(e) && k == KeyOf(e) && Describes(d.labels, e);
    KeysAreUnique(e, Namespace(ns));
  }

  /** The pod filed under k is in the demand and shows its spec. */
  ghost predicate ShowsItsDemand(v: View, pods: Lister, v2: View, k: string, r: Resource) {
    && k in v2 && MetricName(r) in v2[k].values
    && Id(v2[k]) in Demand(v, pods, r) && k == PodKey(Id(v2[k]).0, Id(v2[k]).1)
    && ShowsSpec(Some(v2[k].values[MetricName(r)]), pods[Id(v2[k])], r)
  }

  ghost predicate IsThere(v2: View, id: (string, string), r: Resource) {
    PodKey(id.0, id.1) in CV.PodValues(v2, MetricName(r)) && Id(v2[PodKey(id.0, id.1)]) == id
  }

  /** The pods that state r, by their keys, are the pods in the demand, by their names, and show their specs. */
  ghost predicate StateTheDemand(v: View, pods: Lister, v2: View, r: Resource) {
    && (forall k :: k in CV.PodValues(v2, MetricName(r)) ==> ShowsItsDemand(v, pods, v2, k, r))
    && (forall id :: id in Demand(v, pods, r) ==> IsThere(v2, id, r))
  }

  /** A pod that states r is in the demand, and shows its spec. */
  lemma StatingPodIsDemanded(
      v: View, o1: seq<string>, pods: Lister, copy: Copier, v1: View, o2: seq<string>, skipped: set<string>, v2: View,
      k: string, r: Resource)
    requires Enriching(v, o1, pods, copy, v1) && Filed(v1)
    requires Aggregating(v1, o2, skipped, v2) && MetricName(r) !in skipped
    requires k in CV.PodValues(v2, MetricName(r))
    ensures ShowsItsDemand(v, pods, v2, k, r)
  {
    hide Enriched, PA.Run, PA.Aggregated, FiledUnder, MetricName, Scraped, KeepsIdentity, PodKey, ShowsSpec, SpecTotal;
    StatingPodIsKnown(v, o1, pods, copy, v1, o2, skipped, v2, k, r);
    KnownPodShowsItsSpec(v, o1, pods, copy, v1, o2, skipped, v2, Id(v2[k]), r);
  }

  /** A pod in the demand states r. */
  lemma DemandedPodStates(
      v: View, o1: seq<string>, pods: Lister, copy: Copier, v1: View, o2: seq<string>, skipped: set<string>, v2: View,
      id: (string, string), r: Resource)
    requires Enriching(v, o1, pods, copy, v1) && Filed(v1)
    requires Aggregating(v1, o2, skipped, v2) && MetricName(r) !in skipped
    requires id in Demand(v, pods, r)
    ensures IsThere(v2, id, r)
  {
    hide Enriched, PA.Run, PA.Aggregated, FiledUnder, MetricName, Scraped, KeepsIdentity, PodKey, ShowsSpec, SpecTotal;
    var k := PodKey(id.0, id.1);
    KnownPodShowsItsSpec(v, o1, pods, copy, v1, o2, skipped, v2, id, r);
    NoSpecNothing(At(v2[k].values, MetricName(r)), pods[id], r);
    var c := AggregatedSet(v1, o2, skipped, v2, k);
    UnderPodKey(k, v2[k], id.0, id.1);
  }

  lemma StatingPods(
      v: View, o1: seq<string>, pods: Lister, copy: Copier, v1: View, o2: seq<string>, skipped: set<string>, v2: View,
      r: Resource)
    requires Enriching(v, o1, pods, copy, v1) && Filed(v1)
    requires Aggregating(v1, o2, skipped, v2) && MetricName(r) !in skipped
    ensures StateTheDemand(v, pods, v2, r)
  {
    hide Enriching, Aggregating, Filed, MetricName, CV.PodValues, Demand, ShowsItsDemand, IsThere;
    forall k | k in CV.PodValues(v2, MetricName(r))
      ensures ShowsItsDemand(v, pods, v2, k, r)
    {
      StatingPodIsDemanded(v, o1, pods, copy, v1, o2, skipped, v2, k, r);
    }
    forall id | id in Demand(v, pods, r)
      ensures IsThere(v2, id, r)
    {
      DemandedPodStates(v, o1, pods, copy, v1, o2, skipped, v2, id, r);
    }
  }

  lemma SpecShown(x: MetricValue, pod: PodSpec, r: Resource)
    requires ShowsSpec(Some(x), pod, r)
    ensures x.valueType == ValueInt64
    ensures x.Shows(Amount(SpecTotal(pod, |pod.containers|, r), 0.0))
  {
    hide SpecTotal, Wrap64;
    WrapIsSame(SpecTotal(pod, |pod.containers|, r));
  }

  lemma PodShowsDemand(v: View, pods: Lister, v2: View, k: string, r: Resource)
    requires ShowsItsDemand(v, pods, v2, k, r)
    ensures k in v2 && MetricName(r) in v2[k].values && Id(v2[k]) in Demand(v, pods, r)
    ensures k == PodKey(Id(v2[k]).0, Id(v2[k]).1)
    ensures var x := v2[k].values[MetricName(r)]; x.valueType == ValueInt64 && x.Shows(Demand(v, pods, r)[Id(v2[k])])
  {
    hide MetricName, Scraped, PodKey, ShowsSpec, SpecTotal, Wrap64, Id, MetricValue.Shows;
    SpecShown(v2[k].values[MetricName(r)], pods[Id(v2[k])], r);
  }

  /** What the pods show, by key, is the demand, by name. */
  lemma ShownAreDemanded(v: View, pods: Lister, v2: View, r: Resource) returns (sums: map<string, Amount>)
    requires StateTheDemand(v, pods, v2, r)
    ensures var pv := CV.PodValues(v2, MetricName(r));
            && sums.Keys == pv.Keys && Sum(sums) == Sum(Demand(v, pods, r))
            && (forall k :: k in pv ==> pv[k].valueType == ValueInt64 && pv[k].Shows(sums[k]))
            && (pv == map[] <==> Demand(v, pods, r) == map[])
  {
    hide MetricName, PodKey, Id, MetricValue.Shows, ShowsItsDemand, Demand;
    var pv := CV.PodValues(v2, MetricName(r));
    var demand := Demand(v, pods, r);
    forall k | k in pv
      ensures Id(v2[k]) in demand && k == PodKey(Id(v2[k]).0, Id(v2[k]).1)
      ensures pv[k].valueType == ValueInt64 && pv[k].Shows(demand[Id(v2[k])])
    {
      PodShowsDemand(v, pods, v2, k, r);
    }
    sums := map k | k in pv :: demand[Id(v2[k])];
    var name := map k | k in pv :: Id(v2[k]);
    forall id | id in demand ensures exists k :: k in sums && name[k] == id {
      assert IsThere(v2, id, r);
      assert PodKey(id.0, id.1) in sums && name[PodKey(id.0, id.1)] == id;
    }
    SumRenamed(sums, demand, name);
  }

  /** What the pods show adds up to the demand. */
  lemma DemandAddsUp(v: View, pods: Lister, v2: View, r: Resource, x: Option<MetricValue>)
    requires StateTheDemand(v, pods, v2, r) && RU.AddsUp(x, None, CV.PodValues(v2, MetricName(r)))
    ensures if Demand(v, pods, r) == map[] then x.None?
            else x.Some? && x.value.valueType == ValueInt64 && x.value.intValue == Wrap64(Sum(Demand(v, pods, r)).i)
  {
    hide MetricName, Wrap64, StateTheDemand, CV.PodValues, Demand, MetricValue.Shows;
    var sums := ShownAreDemanded(v, pods, v2, r);
    var pv := CV.PodValues(v2, MetricName(r));
    if pv != map[] {
      var k :| k in pv;
      assert x.value.valueType == pv[k].valueType;
      CV.ShowsSumOfSums(x.value, pv, sums);
      x.value.ShownExactly(Sum(Demand(v, pods, r)));
    }
  }

  /**
   * The cluster's requests and limits are those of all the containers in the specs of the known
   * pods of which anything was scraped: whatever was scraped of them, and in whatever order each
   * of the five processors goes through the batch.
   */
  lemma ClusterShowsDemand(
      v: View, o1: seq<string>, pods: Lister, copy: Copier, v1: View,
      o2: seq<string>, skipped: set<string>, v2: View,
      o3: seq<string>, names: seq<string>, v3: View,
      o4: seq<string>, nodeNames: seq<string>, v4: View,
      o5: seq<string>, v5: View, r: Resource)
    requires Enriching(v, o1, pods, copy, v1) && NoNamespaceSets(v)
    requires Aggregating(v1, o2, skipped, v2) && MetricName(r) !in skipped
    requires MetricName(r) in names
    requires CV.Done(RU.ByNamespace, v2, o3, names, v3)
    requires CV.Done(RU.ByNode, v3, o4, nodeNames, v4)
    requires CV.Done(RU.ByCluster, v4, o5, names, v5)
    ensures ClusterKey() in v5
    ensures var x := At(v5[ClusterKey()].values, MetricName(r));
            if Demand(v, pods, r) == map[] then x.None?
            else x.Some? && x.value.valueType == ValueInt64 && x.value.intValue == Wrap64(Sum(Demand(v, pods, r)).i)
  {
    hide Enriching, Aggregating, Filed, NoNamespaceSets, CV.NoNamespaces, CV.Done, CV.PodValues, RU.AddsUp, MetricName,
         StateTheDemand, Demand, Wrap64;
    EnrichedIsFiled(v, o1, pods, copy, v1);
    NoNamespaceInEnriched(v, o1, pods, copy, v1);
    NoNamespaceInAggregated(v1, o2, skipped, v2);
    CV.ClusterConservesPods(v2, o3, names, v3, o4, nodeNames, v4, o5, v5, MetricName(r));
    StatingPods(v, o1, pods, copy, v1, o2, skipped, v2, r);
    DemandAddsUp(v, pods, v2, r, At(v5[ClusterKey()].values, MetricName(r)));
  }

  lemma EnrichedIsFiled(v: View, order: seq<string>, pods: Lister, copy: Copier, v1: View)
    requires Enriching(v, order, pods, copy, v1)
    ensures Filed(v1)
  {
    hide Run, FiledUnder, KeepsIdentity;
    RunFiled(v, order, pods, copy);
  }
}
