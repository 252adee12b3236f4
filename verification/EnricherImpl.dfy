/** The in-place form of the pod-based enricher, proved to be one run of Enrichment. */
module EnricherImpl {
  import opened Sums
  import opened Core
  import opened Keys
  import opened Labels
  import opened Enrichment
  import EnrichmentMeaning

  /** The orders in which pod labels are gone through, which may differ from one set to the next. */
  type Ranges = f: (string, map<string, string>) -> seq<string> | Fair(f)
    ghost witness (key: string, given: map<string, string>) => SomeOrder(given.Keys)

  ghost predicate Fair(f: (string, map<string, string>) -> seq<string>) {
    forall key, given :: IsOrder(f(key, given), given)
  }

  /** What this label copier leaves on a set. */
  ghost function CopyOf(lc: LabelCopier, ranges: Ranges): Copier {
    (key: string, given: map<string, string>, labels: map<string, string>) =>
      Copied(labels, given, ranges(key, given), lc.labelSeparator, lc.storedLabels, lc.ignoredLabels)
  }

  /** No label is to be stored over a set's type, namespace or pod name. */
  predicate SafeNames(stored: map<string, string>) {
    forall k :: k in stored ==> stored[k] != TYPE && stored[k] != NAMESPACE_NAME && stored[k] != POD_NAME
  }

  lemma CopyKeepsAt(labels: map<string, string>, given: map<string, string>, order: seq<string>, lc: LabelCopier,
        l: string)
    requires IsOrder(order, given) && l != LABELS && forall k :: k in lc.storedLabels ==> lc.storedLabels[k] != l
    ensures EnrichmentMeaning.SameAt(
              Copied(labels, given, order, lc.labelSeparator, lc.storedLabels, lc.ignoredLabels), labels, l)
  {
    LastWriterWins(labels, given, order, lc.storedLabels, l);
  }

  /** With safe names the copier is one the enricher's guarantees hold for. */
  lemma SafeCopierKeepsIdentity(lc: LabelCopier, ranges: Ranges)
    requires SafeNames(lc.storedLabels)
    ensures EnrichmentMeaning.KeepsIdentity(CopyOf(lc, ranges))
  {
    hide Copied;
    assert |LABELS| == 6 && |TYPE| == 4 && |NAMESPACE_NAME| == 14 && |POD_NAME| == 8;
    forall key: string, given: map<string, string>, labels: map<string, string>
      ensures EnrichmentMeaning.SameIdentity(CopyOf(lc, ranges)(key, given, labels), labels)
    {
      var order := ranges(key, given);
      CopyKeepsAt(labels, given, order, lc, TYPE);
      CopyKeepsAt(labels, given, order, lc, NAMESPACE_NAME);
      CopyKeepsAt(labels, given, order, lc, POD_NAME);
    }
  }

  // ----- Requests and limits -----

  /** The request loop of updateContainerResourcesAndLimits, in the order given. */
  method UpdateRequests(values: map<string, MetricValue>, requests: map<string, Quantity>, order: seq<string>)
      returns (r: map<string, MetricValue>)
    requires IsOrder(order, requests)
    ensures r == Requested(values, requests, order)
  {
    hide RequestName, RequestValue;
    r := values;
    assert order[..0] == [];
    for i := 0 to |order|
      invariant r == Requested(values, requests, order[..i])
    {
      assert order[..i + 1][..i] == order[..i];
      r := r[RequestName(order[i]) := RequestValue(order[i], requests[order[i]])];
    }
    assert order[..|order|] == order;
  }

  method UpdateContainerResourcesAndLimits(metricSet: MetricSet, container: Container)
    requires container.Ranged()
    modifies metricSet`values
    ensures metricSet.values == Resourced(old(metricSet.values), container)
  {
    hide Requested;
    var requests := container.requests;
    var values := UpdateRequests(metricSet.values, requests, container.range);
    values := PutZeros(values, requests);
    metricSet.values := PutLimits(values, container);
  }

  method PutZero(values: map<string, MetricValue>, requests: map<string, Quantity>, resource: string, metric: string)
      returns (r: map<string, MetricValue>)
    ensures r == values + Zero(requests, resource, metric)
  {
    r := values;
    if resource !in requests {
      r := r[metric := IntValue(0)];
    }
  }

  method PutZeros(values: map<string, MetricValue>, requests: map<string, Quantity>)
      returns (r: map<string, MetricValue>)
    ensures r == values + ZeroRequests(requests)
  {
    hide Zero;
    r := PutZero(values, requests, CPU, CPU_REQUEST);
    r := PutZero(r, requests, MEMORY, MEMORY_REQUEST);
    r := PutZero(r, requests, EPHEMERAL, EPHEMERAL_REQUEST);
    Regroup(values, Zero(requests, CPU, CPU_REQUEST), Zero(requests, MEMORY, MEMORY_REQUEST), Zero(requests, EPHEMERAL,
        EPHEMERAL_REQUEST));
  }

  lemma Regroup(v: map<string, MetricValue>, a: map<string, MetricValue>, b: map<string, MetricValue>,
        c: map<string, MetricValue>)
    ensures v + a + b + c == v + (a + b + c)
  {}

  method PutLimits(values: map<string, MetricValue>, container: Container) returns (r: map<string, MetricValue>)
    ensures r == values + LimitMap(container)
  {
    var limits := container.limits;
    r := values[CPU_LIMIT := IntValue(if CPU in limits then limits[CPU].milliValue else 0)];
    r := r[MEMORY_LIMIT := IntValue(if MEMORY in limits then limits[MEMORY].value else 0)];
    r := r[EPHEMERAL_LIMIT := IntValue(if EPHEMERAL in limits then limits[EPHEMERAL].value else 0)];
  }

  // ----- The enricher -----

  ghost predicate Apart(batch: DataBatch, newMs: map<string, MetricSet>)
    reads batch
  {
    && newMs.Keys !! batch.metricSets.Keys
    && Distinct(batch.metricSets) && Distinct(newMs)
    && forall j, k :: j in batch.metricSets && k in newMs ==> batch.metricSets[j] != newMs[k]
  }

  ghost function StateOf(batch: DataBatch, newMs: map<string, MetricSet>): State
    reads batch, batch.metricSets.Values, newMs.Values
  {
    State(batch.Contents(), ViewOf(newMs))
  }

  lemma SameKeys(batch: DataBatch, newMs: map<string, MetricSet>, k: string)
    ensures var s := StateOf(batch, newMs); (k in s.sets <==> k in batch.metricSets) && (k in s.newMs <==> k in newMs)
  {}

  /** newMs' is newMs and fresh sets. */
  ghost predicate Extends(newMs': map<string, MetricSet>, newMs: map<string, MetricSet>) {
    newMs.Keys <= newMs'.Keys && forall k :: k in newMs ==> newMs'[k] == newMs[k]
  }

  class PodBasedEnricher {
    var podLister: Lister
    const labelCopier: LabelCopier

    constructor (podLister: Lister, labelCopier: LabelCopier)
      ensures this.podLister == podLister && this.labelCopier == labelCopier
    {
      this.podLister := podLister;
      this.labelCopier := labelCopier;
    }

    /** The loops over requests go in orders that a range can take. */
    ghost predicate Usable(pod: PodSpec) {
      forall c :: c in pod.containers ==> c.Ranged()
    }

    method Copy(key: string, pod: PodSpec, labels: map<string, string>, ranges: Ranges)
        returns (labels': map<string, string>)
      ensures labels' == CopyOf(labelCopier, ranges)(key, pod.labels, labels)
    {
      labels' := labelCopier.Copy(pod.labels, labels, ranges(key, pod.labels));
    }

    /** The first container of the spec that is filed under key. */
    method FindSpec(pod: PodSpec, key: string) returns (c: Option<Container>)
      ensures c == Spec(pod, key)
    {
      c := None;
      var i := 0;
      while i < |pod.containers| && c.None?
        invariant 0 <= i <= |pod.containers| && c == SpecOf(pod, i, key)
        decreases |pod.containers| - i
      {
        if key == PodContainerKey(pod.namespace, pod.name, pod.containers[i].name) {
          c := Some(pod.containers[i]);
        }
        i := i + 1;
      }
      if c.Some? {
        SpecStays(pod, i, |pod.containers|, key);
      }
    }

    static lemma {:induction false} SpecStays(pod: PodSpec, i: nat, n: nat, key: string)
      requires i <= n <= |pod.containers| && SpecOf(pod, i, key).Some?
      ensures SpecOf(pod, n, key) == SpecOf(pod, i, key)
      decreases n - i
    {
      if i < n { SpecStays(pod, i, n - 1, key); }
    }

    method FindStatus(pod: PodSpec, key: string) returns (s: Option<ContainerStatus>)
      ensures s == Status(pod, key)
    {
      s := None;
      var i := 0;
      while i < |pod.statuses| && s.None?
        invariant 0 <= i <= |pod.statuses| && s == StatusOf(pod, i, key)
        decreases |pod.statuses| - i
      {
        if key == PodContainerKey(pod.namespace, pod.name, pod.statuses[i].name) {
          s := Some(pod.statuses[i]);
        }
        i := i + 1;
      }
      if s.Some? {
        StatusStays(pod, i, |pod.statuses|, key);
      }
    }

    static lemma {:induction false} StatusStays(pod: PodSpec, i: nat, n: nat, key: string)
      requires i <= n <= |pod.statuses| && StatusOf(pod, i, key).Some?
      ensures StatusOf(pod, n, key) == StatusOf(pod, i, key)
      decreases n - i
    {
      if i < n { StatusStays(pod, i, n - 1, key); }
    }

    /** What addContainerInfo does to the container's own set. */
    method FillContainer(key: string, containerMs: MetricSet, pod: PodSpec, ranges: Ranges)
      requires Usable(pod)
      modifies containerMs
      ensures containerMs.Data() == ContainerInfo(old(containerMs.Data()), key, pod, CopyOf(labelCopier, ranges))
    {
      hide Spec, Status, Resourced, CopyOf;
      ghost var d := containerMs.Data();
      var c := FindSpec(pod, key);
      if c.Some? {
        EnrichmentMeaning.SpecIsListed(pod, |pod.containers|, key);
        SpecInList(pod, key);
        UpdateContainerResourcesAndLimits(containerMs, c.value);
        if CONTAINER_BASE_IMAGE !in containerMs.labels {
          containerMs.labels := containerMs.labels[CONTAINER_BASE_IMAGE := c.value.image];
        }
      }
      assert containerMs.Data() == WithSpec(d, key, pod);
      var s := FindStatus(pod, key);
      if s.Some? {
        containerMs.values := containerMs.values[RESTART_COUNT := IntValue(s.value.restartCount)];
        if pod.startTime.Some? {
          containerMs.entityCreateTime := pod.startTime.value;
        }
      }
      containerMs.labels := containerMs.labels[POD_ID := pod.uid];
      var copied := Copy(key, pod, containerMs.labels, ranges);
      containerMs.labels := copied;
    }

    static lemma SpecInList(pod: PodSpec, key: string)
      requires Spec(pod, key).Some?
      ensures Spec(pod, key).value in pod.containers
    {
      EnrichmentMeaning.SpecIsListed(pod, |pod.containers|, key);
    }

    /** What addPodInfo does to the pod's own set. */
    method FillPod(key: string, podMs: MetricSet, pod: PodSpec, ranges: Ranges)
      requires Usable(pod)
      modifies podMs
      ensures podMs.Data() == PodInfo(old(podMs.Data()), key, pod, CopyOf(labelCopier, ranges))
    {
      hide CopyOf;
      podMs.labels := podMs.labels[POD_ID := pod.uid];
      if pod.startTime.Some? {
        podMs.entityCreateTime := pod.startTime.value;
      }
      var copied := Copy(key, pod, podMs.labels, ranges);
      podMs.labels := copied;
    }

    method NewStub(podMs: MetricSet, key: string, pod: PodSpec, c: Container, ranges: Ranges) returns (stub: MetricSet)
      requires Usable(pod) && c in pod.containers
      ensures fresh(stub) && stub.Data() == Stubber(podMs.Data(), pod, CopyOf(labelCopier, ranges))(key, c)
    {
      hide CopyOf, Resourced, StubLabels;
      var labels := LabelsOfStub(podMs, pod, c);
      stub := new MetricSet(labels);
      stub.entityCreateTime := podMs.collectionStartTime;
      var copied := Copy(key, pod, stub.labels, ranges);
      stub.labels := copied;
      UpdateContainerResourcesAndLimits(stub, c);
    }

    method LabelsOfStub(podMs: MetricSet, pod: PodSpec, c: Container) returns (labels: map<string, string>)
      ensures labels == StubLabels(podMs.Data(), pod, c)
    {
      labels := map[
        TYPE := TYPE_POD_CONTAINER,
        NAMESPACE_NAME := pod.namespace,
        POD_NAME := pod.name,
        CONTAINER_NAME := c.name,
        CONTAINER_BASE_IMAGE := c.image,
        POD_ID := pod.uid,
        NODENAME := Get(podMs.labels, NODENAME),
        HOSTNAME := Get(podMs.labels, HOSTNAME),
        HOST_ID := Get(podMs.labels, HOST_ID)];
    }

    method AddStub(podMs: MetricSet, pod: PodSpec, i: nat, batch: DataBatch, newMs: map<string, MetricSet>,
        ranges: Ranges) returns (newMs': map<string, MetricSet>)
      requires Usable(pod) && Apart(batch, newMs) && i < |pod.containers|
      ensures Apart(batch, newMs') && Extends(newMs', newMs)
      ensures forall k :: k in newMs' && k !in newMs ==> fresh(newMs'[k])
      ensures StateOf(batch, newMs') ==
              WithStub(old(StateOf(batch, newMs)), pod, i, Stubber(podMs.Data(), pod, CopyOf(labelCopier, ranges)))
    {
      hide CopyOf, Stubber, PodContainerKey;
      newMs' := newMs;
      var containerKey := ContainerKey(pod, i);
      if containerKey !in batch.metricSets && containerKey !in newMs {
        var stub := NewStub(podMs, containerKey, pod, pod.containers[i], ranges);
        newMs' := newMs[containerKey := stub];
        assert ViewOf(newMs') == old(ViewOf(newMs))[containerKey := stub.Data()];
      }
    }

    /** The loop of addPodInfo: stubs for the containers of the spec that are missing. */
    method AddStubs(podMs: MetricSet, pod: PodSpec, batch: DataBatch, newMs: map<string, MetricSet>,
        ranges: Ranges) returns (newMs': map<string, MetricSet>)
      requires Usable(pod) && Apart(batch, newMs)
      ensures Apart(batch, newMs') && Extends(newMs', newMs)
      ensures forall k :: k in newMs' && k !in newMs ==> fresh(newMs'[k])
      ensures StateOf(batch, newMs') ==
              WithStubs(old(StateOf(batch, newMs)), pod, |pod.containers|,
                        Stubber(podMs.Data(), pod, CopyOf(labelCopier, ranges)))
    {
      hide CopyOf, Stubber, WithStub, Usable;
      newMs' := newMs;
      ghost var s := StateOf(batch, newMs);
      ghost var make := Stubber(podMs.Data(), pod, CopyOf(labelCopier, ranges));
      var i := 0;
      while i < |pod.containers|
        invariant 0 <= i <= |pod.containers|
        invariant Apart(batch, newMs') && Extends(newMs', newMs)
        invariant forall k :: k in newMs' && k !in newMs ==> fresh(newMs'[k])
        invariant StateOf(batch, newMs') == WithStubs(s, pod, i, make)
      {
        newMs' := AddStub(podMs, pod, i, batch, newMs', ranges);
        i := i + 1;
      }
    }

    /** The same for a set of the batch: no other set changes. */
    method FillPodOf(batch: DataBatch, key: string, pod: PodSpec, ghost newMs: map<string, MetricSet>, ranges: Ranges)
      requires Usable(pod) && Apart(batch, newMs) && key in batch.metricSets
      modifies batch.metricSets[key]
      ensures var s := old(StateOf(batch, newMs));
              StateOf(batch, newMs) ==
              s.(sets := s.sets[key := PodInfo(s.sets[key], key, pod, CopyOf(labelCopier, ranges))])
    {
      hide CopyOf, Usable, PodInfo;
      FillPod(key, batch.metricSets[key], pod, ranges);
    }

    method FillContainerOf(batch: DataBatch, key: string, pod: PodSpec, ghost newMs: map<string, MetricSet>,
          ranges: Ranges)
      requires Usable(pod) && Apart(batch, newMs) && key in batch.metricSets
      modifies batch.metricSets[key]
      ensures var s := old(StateOf(batch, newMs));
              StateOf(batch, newMs) ==
              s.(sets := s.sets[key := ContainerInfo(s.sets[key], key, pod, CopyOf(labelCopier, ranges))])
    {
      hide CopyOf, Usable, ContainerInfo;
      FillContainer(key, batch.metricSets[key], pod, ranges);
    }

    /** addPodInfo for a pod of the batch. */
    method AddPodInfo(key: string, pod: PodSpec, batch: DataBatch, newMs: map<string, MetricSet>,
        ranges: Ranges) returns (newMs': map<string, MetricSet>)
      requires Usable(pod) && Apart(batch, newMs) && key in batch.metricSets
      modifies batch.metricSets[key]
      ensures Apart(batch, newMs') && Extends(newMs', newMs)
      ensures forall k :: k in newMs' && k !in newMs ==> fresh(newMs'[k])
      ensures StateOf(batch, newMs') == AddPod(old(StateOf(batch, newMs)), key, pod, CopyOf(labelCopier, ranges))
    {
      hide CopyOf, Stubber, Usable, PodInfo, WithStubs;
      FillPodOf(batch, key, pod, newMs, ranges);
      assert batch.metricSets[key].Data() == batch.Contents()[key];
      newMs' := AddStubs(batch.metricSets[key], pod, batch, newMs, ranges);
    }

    method NewPodStub(labels: map<string, string>) returns (podMs: MetricSet)
      ensures fresh(podMs) && podMs.Data() == PodStub(labels)
    {
      podMs := new MetricSet(map[
        TYPE := TYPE_POD,
        NAMESPACE_NAME := Get(labels, NAMESPACE_NAME),
        POD_NAME := Get(labels, POD_NAME),
        NODENAME := Get(labels, NODENAME),
        HOSTNAME := Get(labels, HOSTNAME),
        HOST_ID := Get(labels, HOST_ID)]);
    }

    method FilledStub(podKey: string, containerMs: MetricSet, pod: PodSpec, ranges: Ranges) returns (podMs: MetricSet)
      requires Usable(pod)
      ensures fresh(podMs)
      ensures podMs.Data() == PodInfo(PodStub(containerMs.labels), podKey, pod, CopyOf(labelCopier, ranges))
    {
      hide CopyOf, Usable, PodInfo, PodStub;
      podMs := NewPodStub(containerMs.labels);
      FillPod(podKey, podMs, pod, ranges);
    }

    method NewPodOf(podKey: string, containerMs: MetricSet, pod: PodSpec, batch: DataBatch,
          newMs: map<string, MetricSet>, ranges: Ranges) returns (podMs: MetricSet, newMs': map<string, MetricSet>)
      requires Usable(pod) && Apart(batch, newMs) && podKey !in batch.metricSets && podKey !in newMs
      ensures Apart(batch, newMs') && newMs' == newMs[podKey := podMs] && fresh(podMs)
      ensures podMs.Data() == PodInfo(PodStub(containerMs.labels), podKey, pod, CopyOf(labelCopier, ranges))
      ensures var s := old(StateOf(batch, newMs));
              StateOf(batch, newMs') == s.(newMs := s.newMs[podKey := podMs.Data()])
    {
      hide CopyOf, Usable, PodInfo, PodStub;
      podMs := FilledStub(podKey, containerMs, pod, ranges);
      newMs' := newMs[podKey := podMs];
    }

    /** The end of addContainerInfo: a stub for a pod nobody has. */
    method AddPodStub(podKey: string, containerMs: MetricSet, pod: PodSpec, batch: DataBatch,
          newMs: map<string, MetricSet>, ranges: Ranges) returns (newMs': map<string, MetricSet>)
      requires Usable(pod) && Apart(batch, newMs)
      ensures Apart(batch, newMs') && Extends(newMs', newMs)
      ensures forall k :: k in newMs' && k !in newMs ==> fresh(newMs'[k])
      ensures StateOf(batch, newMs') ==
              WithPodStub(old(StateOf(batch, newMs)), podKey, containerMs.Data(), pod, CopyOf(labelCopier, ranges))
    {
      hide CopyOf, Stubber, Usable, PodInfo, WithStubs, PodStub, Apart, StateOf;
      newMs' := newMs;
      SameKeys(batch, newMs, podKey);
      if podKey !in batch.metricSets && podKey !in newMs {
        var podMs, withPod := NewPodOf(podKey, containerMs, pod, batch, newMs, ranges);
        newMs' := AddStubs(podMs, pod, batch, withPod, ranges);
      }
    }

    method AddContainerInfo(key: string, pod: PodSpec, batch: DataBatch, newMs: map<string, MetricSet>,
        ranges: Ranges) returns (newMs': map<string, MetricSet>)
      requires Usable(pod) && Apart(batch, newMs) && key in batch.metricSets
      modifies batch.metricSets[key]
      ensures Apart(batch, newMs') && Extends(newMs', newMs)
      ensures forall k :: k in newMs' && k !in newMs ==> fresh(newMs'[k])
      ensures StateOf(batch, newMs') == AddContainer(old(StateOf(batch, newMs)), key, pod, CopyOf(labelCopier, ranges))
    {
      hide CopyOf, Usable, ContainerInfo, WithPodStub, PodKey;
      FillContainerOf(batch, key, pod, newMs, ranges);
      var containerMs := batch.metricSets[key];
      assert containerMs.Data() == batch.Contents()[key];
      var podKey := PodKey(Get(containerMs.labels, NAMESPACE_NAME), Get(containerMs.labels, POD_NAME));
      newMs' := AddPodStub(podKey, containerMs, pod, batch, newMs, ranges);
    }

    /** One round of the loop over the batch. */
    method Visit(batch: DataBatch, key: string, newMs: map<string, MetricSet>, ranges: Ranges)
        returns (newMs': map<string, MetricSet>)
      requires (forall id :: id in podLister ==> Usable(podLister[id])) && Apart(batch, newMs)
      requires key in batch.metricSets
      modifies batch.metricSets[key]
      ensures Apart(batch, newMs') && Extends(newMs', newMs)
      ensures forall k :: k in newMs' && k !in newMs ==> fresh(newMs'[k])
      ensures StateOf(batch, newMs') == Step(old(StateOf(batch, newMs)), key, podLister, CopyOf(labelCopier, ranges))
    {
      hide CopyOf, Usable, AddPod, AddContainer;
      newMs' := newMs;
      var v := batch.metricSets[key];
      var id := (Get(v.labels, NAMESPACE_NAME), Get(v.labels, POD_NAME));
      if Get(v.labels, TYPE) == TYPE_POD {
        if id in podLister {
          newMs' := AddPodInfo(key, podLister[id], batch, newMs, ranges);
        }
      } else if Get(v.labels, TYPE) == TYPE_POD_CONTAINER {
        if id in podLister {
          newMs' := AddContainerInfo(key, podLister[id], batch, newMs, ranges);
        }
      }
    }

    /** The loop over the batch, in some order of its keys. */
    method VisitAll(batch: DataBatch, ranges: Ranges) returns (newMs: map<string, MetricSet>, ghost order: seq<string>)
      requires batch.Valid() && forall id :: id in podLister ==> Usable(podLister[id])
      modifies batch.metricSets.Values
      ensures IsOrder(order, batch.metricSets) && Apart(batch, newMs)
      ensures StateOf(batch, newMs) == Run(old(batch.Contents()), order, podLister, CopyOf(labelCopier, ranges))
    {
      hide CopyOf, Usable, Step;
      newMs := map[];
      order := [];
      var todo := batch.metricSets.Keys;
      ghost var v := batch.Contents();
      assert StateOf(batch, newMs) == Run(v, order, podLister, CopyOf(labelCopier, ranges));
      hide Run;
      while todo != {}
        invariant todo <= batch.metricSets.Keys
        invariant NoRepeats(order) && forall k :: k in order <==> k in batch.metricSets && k !in todo
        invariant Apart(batch, newMs) && forall k :: k in newMs ==> fresh(newMs[k])
        invariant StateOf(batch, newMs) == Run(v, order, podLister, CopyOf(labelCopier, ranges))
      {
        var key :| key in todo;
        todo := todo - {key};
        RunNext(v, order, key, podLister, CopyOf(labelCopier, ranges));
        newMs := Visit(batch, key, newMs, ranges);
        order := order + [key];
      }
    }

    /** Process: the batch is completed in place, in some order of its keys. */
    method Process(batch: DataBatch, ranges: Ranges) returns (ghost order: seq<string>)
      requires batch.Valid() && forall id :: id in podLister ==> Usable(podLister[id])
      modifies batch, batch.metricSets.Values
      ensures batch.Valid() && batch.timestamp == old(batch.timestamp)
      ensures IsOrder(order, old(batch.metricSets))
      ensures batch.Contents() == Enriched(old(batch.Contents()), order, podLister, CopyOf(labelCopier, ranges))
    {
      hide CopyOf, Usable, Run;
      var newMs;
      newMs, order := VisitAll(batch, ranges);
      File(batch, newMs);
    }

    method File(batch: DataBatch, newMs: map<string, MetricSet>)
      requires Apart(batch, newMs)
      modifies batch
      ensures batch.Valid() && batch.timestamp == old(batch.timestamp)
      ensures batch.Contents() == old(batch.Contents()) + ViewOf(newMs)
    {
      batch.metricSets := batch.metricSets + newMs;
    }
  }
}
