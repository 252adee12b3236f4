/** Every set of a batch after the pod-based enricher, field by field. */
module EnrichedSets {
  import opened Sums
  import opened Core
  import opened Keys
  import opened Filing
  import opened Enrichment
  import opened EnrichmentMeaning

  // ----- What is said of a set -----

  predicate FirstStatus(pod: PodSpec, c: string, i: nat) {
    i < |pod.statuses| && pod.statuses[i].name == c && forall j :: 0 <= j < i ==> pod.statuses[j].name != c
  }

  predicate FirstContainer(pod: PodSpec, c: string, i: nat) {
    i < |pod.containers| && pod.containers[i].name == c && forall j :: 0 <= j < i ==> pod.containers[j].name != c
  }

  predicate NoStatus(pod: PodSpec, c: string) {
    forall j :: 0 <= j < |pod.statuses| ==> pod.statuses[j].name != c
  }

  predicate NoContainer(pod: PodSpec, c: string) {
    forall j :: 0 <= j < |pod.containers| ==> pod.containers[j].name != c
  }

  /** Cpu is counted in thousandths, everything else as it is; what is not quoted is zero. */
  function Quoted(quantities: map<string, Quantity>, resource: string): int64 {
    if resource !in quantities then 0
    else if resource == "cpu" then quantities[resource].milliValue
    else quantities[resource].value
  }

  ghost predicate Reads(values: map<string, MetricValue>, m: string, n: int64) {
    m in values && values[m] == MetricValue(n, 0.0, MetricGauge, ValueInt64)
  }

  /** The two resources that share a request metric. */
  predicate Ephemeral(resource: string) {
    resource == "ephemeral-storage" || resource == "ephemeral_storage"
  }

  /** The values say all that the container's spec says. */
  ghost predicate SaysSpec(values: map<string, MetricValue>, c: Container) {
    && Reads(values, "cpu/request", Quoted(c.requests, "cpu"))
    && Reads(values, "memory/request", Quoted(c.requests, "memory"))
    && Reads(values, "ephemeral_storage/request", Quoted(c.requests, "ephemeral-storage"))
    && Reads(values, "cpu/limit", Quoted(c.limits, "cpu"))
    && Reads(values, "memory/limit", Quoted(c.limits, "memory"))
    && Reads(values, "ephemeral_storage/limit", Quoted(c.limits, "ephemeral-storage"))
    && (forall resource :: resource in c.requests && !Ephemeral(resource) ==>
          Reads(values, resource + "/request", Quoted(c.requests, resource)))
  }

  /** A metric that the spec of a container is written to. */
  ghost predicate IsSpecMetric(m: string, c: Container) {
    || m in {"cpu/request", "memory/request", "ephemeral_storage/request"}
    || m in {"cpu/limit", "memory/limit", "ephemeral_storage/limit"}
    || exists resource :: resource in c.requests && m == resource + "/request"
  }

  ghost predicate InSpecOf(m: string, pod: PodSpec, c: string) {
    exists i: nat :: FirstContainer(pod, c, i) && IsSpecMetric(m, pod.containers[i])
  }

  function StartOf(pod: PodSpec, otherwise: int): int {
    if pod.startTime.Some? then pod.startTime.value else otherwise
  }

  /** The pod's own set: only its create time and labels change. */
  ghost predicate PodMeaning(d: SetData, r: SetData, k: string, pod: PodSpec, copy: Copier) {
    r == d.(entityCreateTime := StartOf(pod, d.entityCreateTime),
            labels := copy(k, pod.labels, d.labels[POD_ID := pod.uid]))
  }

  /** A scraped container called c: its values. */
  ghost predicate ContainerValues(d: SetData, r: SetData, c: string, pod: PodSpec) {
    && (forall i: nat :: FirstContainer(pod, c, i) ==> SaysSpec(r.values, pod.containers[i]))
    && (forall i: nat :: FirstStatus(pod, c, i) ==> Reads(r.values, "restart_count", pod.statuses[i].restartCount))
    && (NoStatus(pod, c) ==> At(r.values, "restart_count") == At(d.values, "restart_count"))
    && (forall m :: m != "restart_count" && !InSpecOf(m, pod, c) ==> At(r.values, m) == At(d.values, m))
  }

  function WithImage(labels: map<string, string>, image: string): map<string, string> {
    labels[CONTAINER_BASE_IMAGE := if CONTAINER_BASE_IMAGE in labels then labels[CONTAINER_BASE_IMAGE] else image]
  }

  /** Its labels: the pod's id, the image if it had none, and what is copied from the pod. */
  ghost predicate ContainerLabels(d: SetData, r: SetData, k: string, c: string, pod: PodSpec, copy: Copier) {
    && (forall i: nat :: FirstContainer(pod, c, i) ==>
          r.labels == copy(k, pod.labels, WithImage(d.labels, pod.containers[i].image)[POD_ID := pod.uid]))
    && (NoContainer(pod, c) ==> r.labels == copy(k, pod.labels, d.labels[POD_ID := pod.uid]))
  }

  ghost predicate ContainerMeaning(d: SetData, r: SetData, k: string, c: string, pod: PodSpec, copy: Copier) {
    && r.collectionStartTime == d.collectionStartTime && r.scrapeTime == d.scrapeTime && r.labeled == d.labeled
    && r.entityCreateTime == (if NoStatus(pod, c) then d.entityCreateTime else StartOf(pod, d.entityCreateTime))
    && ContainerValues(d, r, c, pod) && ContainerLabels(d, r, k, c, pod, copy)
  }

  /** What becomes of a set d that was scraped. */
  ghost predicate ScrapedMeaning(d: SetData, r: SetData, k: string, pods: Lister, copy: Copier) {
    var id := (Get(d.labels, NAMESPACE_NAME), Get(d.labels, POD_NAME));
    if id in pods && HasType(d, "pod") then PodMeaning(d, r, k, pods[id], copy)
    else if id in pods && HasType(d, "pod_container") then
      exists c :: k == PodContainerKey(id.0, id.1, c) && ContainerMeaning(d, r, k, c, pods[id], copy)
    else r == d
  }

  /** A made-up pod: on the host of a container that was scraped, whose labels are l. */
  ghost predicate PodStubMeaning(r: SetData, k: string, pod: PodSpec, l: map<string, string>, copy: Copier) {
    r == SetData(0, StartOf(pod, 0), 0, map[], copy(k, pod.labels, map[
      TYPE := "pod", NAMESPACE_NAME := pod.namespace, POD_NAME := pod.name, POD_ID := pod.uid,
      NODENAME := Get(l, NODENAME), HOSTNAME := Get(l, HOSTNAME), HOST_ID := Get(l, HOST_ID)]), [])
  }

  /** A made-up container: on its pod's host, saying its spec and nothing else. */
  ghost predicate ContainerStubMeaning(r: SetData, k: string, pod: PodSpec, c: Container, podMs: SetData,
        copy: Copier) {
    && r.collectionStartTime == r.scrapeTime == 0 && r.entityCreateTime == podMs.collectionStartTime && r.labeled == []
    && SaysSpec(r.values, c) && (forall m :: m in r.values ==> IsSpecMetric(m, c))
    && r.labels == copy(k, pod.labels, map[
         TYPE := "pod_container", NAMESPACE_NAME := pod.namespace, POD_NAME := pod.name, POD_ID := pod.uid,
         CONTAINER_NAME := c.name, CONTAINER_BASE_IMAGE := c.image, NODENAME := Get(podMs.labels, NODENAME),
         HOSTNAME := Get(podMs.labels, HOSTNAME), HOST_ID := Get(podMs.labels, HOST_ID)])
  }

  ghost predicate MadeUpPod(v: View, e: View, r: SetData, k: string, pod: PodSpec, copy: Copier) {
    && k == PodKey(pod.namespace, pod.name)
    && exists j :: && j in v && j in e && IsContainerOf(v[j], pod.namespace, pod.name)
                   && PodStubMeaning(r, k, pod, e[j].labels, copy)
  }

  ghost predicate MadeUpContainer(r: SetData, k: string, pod: PodSpec, podMs: SetData, copy: Copier) {
    exists i: nat :: && i < |pod.containers| && k == PodContainerKey(pod.namespace, pod.name, pod.containers[i].name)
                     && ContainerStubMeaning(r, k, pod, pod.containers[i], podMs, copy)
  }

  /** Set k of the result e, which was not scraped, is a stub for this pod. */
  ghost predicate StubMeaning(v: View, e: View, k: string, pod: PodSpec, copy: Copier)
    requires k in e
  {
    var podKey := PodKey(pod.namespace, pod.name);
    MadeUpPod(v, e, e[k], k, pod, copy) || (podKey in e && MadeUpContainer(e[k], k, pod, e[podKey], copy))
  }

  // ----- The spec of a container -----

  lemma {:induction false} RequestedOnly(values: map<string, MetricValue>, requests: map<string, Quantity>,
        order: seq<string>, m: string)
    requires forall resource :: resource in requests ==> RequestName(resource) != m
    ensures At(Requested(values, requests, order), m) == At(values, m)
  {
    hide RequestName;
    if order != [] {
      RequestedOnly(values, requests, order[..|order| - 1], m);
    }
  }

  lemma SpecMetricsOnly(values: map<string, MetricValue>, c: Container, m: string)
    requires !IsSpecMetric(m, c)
    ensures At(Resourced(values, c), m) == At(values, m)
  {
    hide Requested;
    RequestedOnly(values, c.requests, c.range, m);
  }

  lemma RequestSaid(values: map<string, MetricValue>, c: Container, resource: string)
    requires c.Ranged() && resource in c.requests && !Ephemeral(resource)
    ensures Reads(Resourced(values, c), resource + "/request", Quoted(c.requests, resource))
  {
    hide Requested;
    forall j | RequestName(j) == RequestName(resource)
      ensures j == resource
    {
      OwnRequestName(j, resource);
    }
    RequestWritten(values, c.requests, c.range, resource);
    NotWrittenAgain(c, resource);
  }

  lemma OwnRequestName(j: string, resource: string)
    requires !Ephemeral(resource) && RequestName(j) == RequestName(resource)
    ensures j == resource
  {
    if j != resource {
      assert resource in {j, resource};
      RequestNamesDiffer(j, resource);
    }
  }

  /** The zeros and the limits leave a request alone. */
  lemma NotWrittenAgain(c: Container, resource: string)
    requires resource in c.requests && !Ephemeral(resource)
    ensures resource + "/request" !in ZeroRequests(c.requests) && resource + "/request" !in LimitMap(c)
  {
    var m := resource + "/request";
    assert m[|m| - 8] == '/' && m[..|m| - 8] == resource;
    assert CPU_REQUEST[..3] == CPU && MEMORY_REQUEST[..6] == MEMORY && EPHEMERAL_REQUEST[..17] == EPHEMERAL_TWIN;
    assert m[|m| - 1] == 't' && m[|m| - 2] == 's';
    assert CPU_LIMIT[7] == 'i' && MEMORY_LIMIT[10] == 'i' && EPHEMERAL_LIMIT[21] == 'i';
    NamesDiffer();
  }

  lemma ResourcedSays(values: map<string, MetricValue>, c: Container)
    requires c.Ranged() && Plain(c.requests)
    ensures SaysSpec(Resourced(values, c), c)
  {
    hide Resourced;
    assert |"cpu"| == 3 && |"memory"| == 6 && |"ephemeral-storage"| == 17;
    ResourcedStates(values, c, CpuRequest);
    ResourcedStates(values, c, MemoryRequest);
    ResourcedStates(values, c, EphemeralRequest);
    ResourcedStates(values, c, CpuLimit);
    ResourcedStates(values, c, MemoryLimit);
    ResourcedStates(values, c, EphemeralLimit);
    forall resource | resource in c.requests && !Ephemeral(resource)
      ensures Reads(Resourced(values, c), resource + "/request", Quoted(c.requests, resource))
    {
      RequestSaid(values, c, resource);
    }
  }

  lemma RestartCountIsNoSpecMetric(c: Container)
    ensures !IsSpecMetric(RESTART_COUNT, c)
  {
    NamesDiffer();
    forall resource: string
      ensures resource + "/request" != RESTART_COUNT
    {
      assert |RESTART_COUNT| == 13 && RESTART_COUNT[5] == 'r';
      var m := resource + "/request";
      assert m[|m| - 8] == '/';
    }
  }

  // ----- A scraped set -----

  lemma SameContainerKey(ns: string, p: string, c: string, c': string)
    requires '/' !in ns && '/' !in p
    ensures PodContainerKey(ns, p, c) == PodContainerKey(ns, p, c') <==> c == c'
  {
    hide PodContainerKey;
    if PodContainerKey(ns, p, c) == PodContainerKey(ns, p, c') {
      ContainerKeysDiffer(ns, p, c, ns, p, c');
    }
  }

  lemma {:induction false} StatusIs(pod: PodSpec, n: nat, c: string)
    requires n <= |pod.statuses| && '/' !in pod.namespace && '/' !in pod.name
    ensures var s := StatusOf(pod, n, PodContainerKey(pod.namespace, pod.name, c));
            && (forall i: nat :: FirstStatus(pod, c, i) ==> s == if i < n then Some(pod.statuses[i]) else None)
            && (NoStatus(pod, c) ==> s.None?)
  {
    hide PodContainerKey;
    if n > 0 {
      StatusIs(pod, n - 1, c);
      SameContainerKey(pod.namespace, pod.name, c, pod.statuses[n - 1].name);
    }
  }

  lemma {:induction false} SpecIs(pod: PodSpec, n: nat, c: string)
    requires n <= |pod.containers| && '/' !in pod.namespace && '/' !in pod.name
    ensures var s := SpecOf(pod, n, PodContainerKey(pod.namespace, pod.name, c));
            && (forall i: nat :: FirstContainer(pod, c, i) ==> s == if i < n then Some(pod.containers[i]) else None)
            && (NoContainer(pod, c) ==> s.None?)
  {
    hide PodContainerKey;
    if n > 0 {
      SpecIs(pod, n - 1, c);
      SameContainerKey(pod.namespace, pod.name, c, pod.containers[n - 1].name);
    }
  }

  lemma {:induction false} FirstOf(names: seq<string>, c: string) returns (i: nat)
    requires c in names
    ensures i < |names| && names[i] == c && forall j :: 0 <= j < i ==> names[j] != c
  {
    if names[0] == c {
      i := 0;
    } else {
      var k := FirstOf(names[1..], c);
      i := k + 1;
      assert forall j :: 0 < j < |names| ==> names[j] == names[1..][j - 1];
    }
  }

  lemma StatusOrNone(pod: PodSpec, c: string) returns (i: nat)
    ensures FirstStatus(pod, c, i) || NoStatus(pod, c)
  {
    var names := seq(|pod.statuses|, j requires 0 <= j < |pod.statuses| => pod.statuses[j].name);
    i := 0;
    if c in names {
      i := FirstOf(names, c);
      assert forall j :: 0 <= j < |names| ==> names[j] == pod.statuses[j].name;
    } else {
      assert forall j :: 0 <= j < |names| ==> names[j] == pod.statuses[j].name && names[j] in names;
    }
  }

  lemma ContainerOrNone(pod: PodSpec, c: string) returns (i: nat)
    ensures FirstContainer(pod, c, i) || NoContainer(pod, c)
  {
    var names := seq(|pod.containers|, j requires 0 <= j < |pod.containers| => pod.containers[j].name);
    i := 0;
    if c in names {
      i := FirstOf(names, c);
      assert forall j :: 0 <= j < |names| ==> names[j] == pod.containers[j].name;
    } else {
      assert forall j :: 0 <= j < |names| ==> names[j] == pod.containers[j].name && names[j] in names;
    }
  }

  lemma OneFirstContainer(pod: PodSpec, c: string, i: nat, j: nat)
    requires FirstContainer(pod, c, i) && FirstContainer(pod, c, j)
    ensures i == j
  {}

  /** The container's spec applied: everything but the restart count, the create time and the pod's labels. */
  lemma WithSpecIs(d: SetData, k: string, c: string, pod: PodSpec, i: nat)
    requires Admitted(pod) && k == PodContainerKey(pod.namespace, pod.name, c)
    requires FirstContainer(pod, c, i) || NoContainer(pod, c)
    ensures var s := WithSpec(d, k, pod);
            && s == d.(values := s.values, labels := s.labels)
            && if FirstContainer(pod, c, i) then
                 && s.values == Resourced(d.values, pod.containers[i])
                 && s.labels == WithImage(d.labels, pod.containers[i].image)
               else s == d
  {
    hide Resourced, PodContainerKey;
    SpecIs(pod, |pod.containers|, c);
  }

  lemma WithStatusIs(d: SetData, k: string, c: string, pod: PodSpec, i: nat)
    requires Admitted(pod) && k == PodContainerKey(pod.namespace, pod.name, c)
    requires FirstStatus(pod, c, i) || NoStatus(pod, c)
    ensures WithStatus(d, k, pod) ==
            if NoStatus(pod, c) then d
            else d.(values := d.values[RESTART_COUNT := IntValue(pod.statuses[i].restartCount)],
                    entityCreateTime := StartOf(pod, d.entityCreateTime))
  {
    hide PodContainerKey;
    StatusIs(pod, |pod.statuses|, c);
  }

  lemma SaysSpecStill(values: map<string, MetricValue>, c: Container, x: MetricValue)
    requires SaysSpec(values, c)
    ensures SaysSpec(values[RESTART_COUNT := x], c)
  {
    RestartCountIsNoSpecMetric(c);
    forall resource | resource in c.requests
      ensures resource + "/request" != RESTART_COUNT
    {
      assert IsSpecMetric(resource + "/request", c);
    }
  }

  /** The values once the spec is applied. */
  lemma SpecValuesHold(d: SetData, k: string, c: string, pod: PodSpec)
    requires Admitted(pod) && k == PodContainerKey(pod.namespace, pod.name, c)
    ensures var values := WithSpec(d, k, pod).values;
            && (forall i: nat :: FirstContainer(pod, c, i) ==> SaysSpec(values, pod.containers[i]))
            && At(values, "restart_count") == At(d.values, "restart_count")
            && (forall m :: !InSpecOf(m, pod, c) ==> At(values, m) == At(d.values, m))
  {
    hide WithSpec, PodContainerKey, SaysSpec, IsSpecMetric, Resourced;
    var i := ContainerOrNone(pod, c);
    WithSpecIs(d, k, c, pod, i);
    if FirstContainer(pod, c, i) {
      var container := pod.containers[i];
      assert forall j: nat :: FirstContainer(pod, c, j) ==> j == i;
      assert container in pod.containers;
      ResourcedSays(d.values, container);
      RestartCountIsNoSpecMetric(container);
      forall m | !IsSpecMetric(m, container)
        ensures At(Resourced(d.values, container), m) == At(d.values, m)
      {
        SpecMetricsOnly(d.values, container, m);
      }
    }
  }

  lemma ContainerValuesHold(d: SetData, k: string, c: string, pod: PodSpec)
    requires Admitted(pod) && k == PodContainerKey(pod.namespace, pod.name, c)
    ensures ContainerValues(d, WithStatus(WithSpec(d, k, pod), k, pod), c, pod)
  {
    hide WithSpec, WithStatus, PodContainerKey, SaysSpec, InSpecOf, Admitted;
    var s := WithSpec(d, k, pod);
    var h := StatusOrNone(pod, c);
    SpecValuesHold(d, k, c, pod);
    WithStatusIs(s, k, c, pod, h);
    if !NoStatus(pod, c) {
      forall i: nat | FirstContainer(pod, c, i)
        ensures SaysSpec(s.values[RESTART_COUNT := IntValue(pod.statuses[h].restartCount)], pod.containers[i])
      {
        SaysSpecStill(s.values, pod.containers[i], IntValue(pod.statuses[h].restartCount));
      }
    }
  }

  lemma ContainerHolds(d: SetData, k: string, c: string, pod: PodSpec, copy: Copier)
    requires Admitted(pod) && k == PodContainerKey(pod.namespace, pod.name, c)
    ensures ContainerMeaning(d, ContainerInfo(d, k, pod, copy), k, c, pod, copy)
  {
    hide WithSpec, WithStatus, PodContainerKey, ContainerValues;
    var s := WithSpec(d, k, pod);
    var i := ContainerOrNone(pod, c);
    var h := StatusOrNone(pod, c);
    WithSpecIs(d, k, c, pod, i);
    WithStatusIs(s, k, c, pod, h);
    ContainerValuesHold(d, k, c, pod);
    SameValues(d, WithStatus(s, k, pod), ContainerInfo(d, k, pod, copy), c, pod);
    assert forall j: nat :: FirstContainer(pod, c, j) && FirstContainer(pod, c, i) ==> j == i;
  }

  lemma SameValues(d: SetData, r: SetData, r': SetData, c: string, pod: PodSpec)
    requires ContainerValues(d, r, c, pod) && r'.values == r.values
    ensures ContainerValues(d, r', c, pod)
  {
    hide SaysSpec, IsSpecMetric, FirstContainer, FirstStatus, NoStatus;
  }

  lemma TouchedMeaning(d: SetData, k: string, pods: Lister, copy: Copier)
    requires Listed(pods) && FiledUnder(k, d)
    ensures ScrapedMeaning(d, Touched(d, k, pods, copy), k, pods, copy)
  {
    hide ContainerInfo, ContainerMeaning, PodContainerKey, FiledUnder, Admitted;
    if Id(d) in pods && HasType(d, TYPE_POD_CONTAINER) && !HasType(d, TYPE_POD) {
      var c := ContainerNameOf(k, d);
      ContainerHolds(d, k, c, pods[Id(d)], copy);
    }
  }

  lemma ContainerNameOf(k: string, d: SetData) returns (c: string)
    requires FiledUnder(k, d) && HasType(d, TYPE_POD_CONTAINER)
    ensures k == PodContainerKey(Get(d.labels, NAMESPACE_NAME), Get(d.labels, POD_NAME), c)
  {
    var e :| WellNamed(e) && k == KeyOf(e) && Describes(d.labels, e);
    c := KeyOfContainer(k, d);
  }

  /** Each set of the batch is touched once. */
  lemma {:induction false} RunTouches(v: View, order: seq<string>, pods: Lister, copy: Copier, k: string)
    requires (forall j :: j in order ==> j in v) && NoRepeats(order) && k in v
    ensures Run(v, order, pods, copy).sets[k] == if k in order then Touched(v[k], k, pods, copy) else v[k]
  {
    hide Step, Touched;
    if order != [] {
      var n := |order| - 1;
      assert order == order[..n] + [order[n]];
      RunTouches(v, order[..n], pods, copy, k);
      StepVisits(Run(v, order[..n], pods, copy), order[n], pods, copy);
    }
  }

  // ----- Stubs -----

  lemma {:induction false} NewStub(s: State, pod: PodSpec, n: nat, make: Maker, k: string) returns (i: nat)
    requires n <= |pod.containers| && k in WithStubs(s, pod, n, make).newMs && k !in s.newMs
    ensures i < n && k == ContainerKey(pod, i) && WithStubs(s, pod, n, make).newMs[k] == make(k, pod.containers[i])
  {
    hide ContainerKey;
    if n > 0 {
      if k in WithStubs(s, pod, n - 1, make).newMs {
        i := NewStub(s, pod, n - 1, make, k);
      } else {
        i := n - 1;
      }
    }
  }

  lemma StubHolds(podMs: SetData, k: string, pod: PodSpec, c: Container, copy: Copier)
    requires c.Ranged() && Plain(c.requests)
    ensures ContainerStubMeaning(ContainerStub(podMs, k, pod, c, copy), k, pod, c, podMs, copy)
  {
    hide SaysSpec, IsSpecMetric, Resourced;
    ResourcedSays(map[], c);
    forall m | !IsSpecMetric(m, c)
      ensures m !in Resourced(map[], c)
    {
      SpecMetricsOnly(map[], c, m);
    }
    SameStubLabels(podMs, pod, c);
  }

  lemma SameStubLabels(podMs: SetData, pod: PodSpec, c: Container)
    ensures StubLabels(podMs, pod, c) == map[
         TYPE := "pod_container", NAMESPACE_NAME := pod.namespace, POD_NAME := pod.name, POD_ID := pod.uid,
         CONTAINER_NAME := c.name, CONTAINER_BASE_IMAGE := c.image, NODENAME := Get(podMs.labels, NODENAME),
         HOSTNAME := Get(podMs.labels, HOSTNAME), HOST_ID := Get(podMs.labels, HOST_ID)]
  {}

  lemma PodStubHolds(k: string, pod: PodSpec, l: map<string, string>, copy: Copier)
    requires Get(l, NAMESPACE_NAME) == pod.namespace && Get(l, POD_NAME) == pod.name
    ensures PodStubMeaning(PodInfo(PodStub(l), k, pod, copy), k, pod, l, copy)
  {
    assert PodStub(l).labels[POD_ID := pod.uid] == map[
      TYPE := "pod", NAMESPACE_NAME := pod.namespace, POD_NAME := pod.name, POD_ID := pod.uid,
      NODENAME := Get(l, NODENAME), HOSTNAME := Get(l, HOSTNAME), HOST_ID := Get(l, HOST_ID)];
  }

  /** What does not change any more when the keys in done have been visited. */
  ghost function Settled(s: State, done: set<string>): View {
    (map j | j in s.sets && j in done :: s.sets[j]) + s.newMs
  }

  ghost predicate StubsNow(v: View, s: State, done: set<string>, pods: Lister, copy: Copier) {
    forall k :: k in s.newMs ==> exists id :: id in pods && StubMeaning(v, Settled(s, done), k, pods[id], copy)
  }

  /** A stub stays one when more is settled. */
  lemma StubStays(v: View, e: View, e': View, k: string, pod: PodSpec, copy: Copier)
    requires k in e && StubMeaning(v, e, k, pod, copy)
    requires e.Keys <= e'.Keys && forall j :: j in e ==> e'[j] == e[j]
    ensures StubMeaning(v, e', k, pod, copy)
  {
    hide PodStubMeaning, MadeUpContainer, PodKey, IsContainerOf;
  }

  lemma MoreSettled(s: State, key: string, done: set<string>, pods: Lister, copy: Copier)
    requires key in s.sets && key !in done && KeepsIdentity(copy) && Listed(pods) && s.newMs.Keys !! s.sets.Keys
    ensures var e, e' := Settled(s, done), Settled(Step(s, key, pods, copy), done + {key});
            e.Keys <= e'.Keys && forall j :: j in e ==> e'[j] == e[j]
  {
    hide Step, KeepsIdentity, Touched, StubFor;
    StepVisits(s, key, pods, copy);
    if Id(s.sets[key]) in pods {
      StepGrows(s, key, pods, copy, CpuRequest);
    } else {
      StepSkips(s, key, pods, copy);
    }
  }

  /** A pod that is visited makes up containers after itself. */
  lemma PodBrings(v: View, s: State, key: string, done: set<string>, pods: Lister, copy: Copier, k: string)
    requires key in s.sets && Listed(pods) && FiledUnder(key, s.sets[key])
    requires HasType(s.sets[key], TYPE_POD) && Id(s.sets[key]) in pods
    requires k in Step(s, key, pods, copy).newMs && k !in s.newMs
    requires Step(s, key, pods, copy).newMs.Keys !! s.sets.Keys
    ensures StubMeaning(v, Settled(Step(s, key, pods, copy), done + {key}), k, pods[Id(s.sets[key])], copy)
  {
    hide PodInfo, ContainerInfo, WithPodStub, WithStubs, ContainerStub, ContainerStubMeaning, PodKey, PodContainerKey;
    var pod := pods[Id(s.sets[key])];
    PodSetKey(key, s.sets[key]);
    var podMs := PodInfo(s.sets[key], key, pod, copy);
    var s1 := s.(sets := s.sets[key := podMs]);
    StubsKeepSets(s1, pod, |pod.containers|, Stubber(podMs, pod, copy));
    var i := NewStub(s1, pod, |pod.containers|, Stubber(podMs, pod, copy), k);
    assert pod.containers[i] in pod.containers;
    StubHolds(podMs, k, pod, pod.containers[i], copy);
  }

  /** A pod made up after labels l, and the containers made up after it. */
  lemma PodStubBrings(s: State, podKey: string, d: SetData, pod: PodSpec, copy: Copier, k: string)
    requires Admitted(pod) && podKey == PodKey(pod.namespace, pod.name)
    requires Get(d.labels, NAMESPACE_NAME) == pod.namespace && Get(d.labels, POD_NAME) == pod.name
    requires k in WithPodStub(s, podKey, d, pod, copy).newMs && k !in s.newMs
    ensures var s' := WithPodStub(s, podKey, d, pod, copy);
            && podKey in s'.newMs
            && if k == podKey then PodStubMeaning(s'.newMs[k], k, pod, d.labels, copy)
               else MadeUpContainer(s'.newMs[k], k, pod, s'.newMs[podKey], copy)
  {
    hide PodInfo, PodStub, WithStubs, ContainerStub, ContainerStubMeaning, PodKey, PodContainerKey, PodStubMeaning;
    var podMs := PodInfo(PodStub(d.labels), podKey, pod, copy);
    var s1 := s.(newMs := s.newMs[podKey := podMs]);
    StubsKeepSets(s1, pod, |pod.containers|, Stubber(podMs, pod, copy));
    PodStubHolds(podKey, pod, d.labels, copy);
    if k != podKey {
      var i := NewStub(s1, pod, |pod.containers|, Stubber(podMs, pod, copy), k);
      assert pod.containers[i] in pod.containers;
      StubHolds(podMs, k, pod, pod.containers[i], copy);
    }
  }

  /** A container that is visited makes up its pod, and the pod's containers after that. */
  lemma ContainerBrings(v: View, s: State, key: string, done: set<string>, pods: Lister, copy: Copier, k: string)
    requires key in s.sets && key in v && KeepsIdentity(copy) && Listed(pods)
    requires IsContainerOf(v[key], Id(s.sets[key]).0, Id(s.sets[key]).1)
    requires HasType(s.sets[key], TYPE_POD_CONTAINER) && Id(s.sets[key]) in pods
    requires k in Step(s, key, pods, copy).newMs && k !in s.newMs
    requires Step(s, key, pods, copy).newMs.Keys !! s.sets.Keys
    ensures StubMeaning(v, Settled(Step(s, key, pods, copy), done + {key}), k, pods[Id(s.sets[key])], copy)
  {
    hide PodInfo, ContainerInfo, WithPodStub, MadeUpContainer, PodKey, PodStubMeaning, IsContainerOf, KeepsIdentity;
    assert |TYPE_POD| != |TYPE_POD_CONTAINER|;
    var d := s.sets[key];
    var pod := pods[Id(d)];
    var d' := ContainerInfo(d, key, pod, copy);
    ContainerInfoKeepsIdentity(d, key, pod, copy);
    var s1, podKey := s.(sets := s.sets[key := d']), PodKey(pod.namespace, pod.name);
    PodStubKeepsSets(s1, podKey, d', pod, copy);
    PodStubBrings(s1, podKey, d', pod, copy, k);
  }

  lemma StepNew(v: View, s: State, key: string, done: set<string>, pods: Lister, copy: Copier, k: string)
    requires key in s.sets && key in v && KeepsIdentity(copy) && Listed(pods) && FiledUnder(key, v[key])
    requires SameIdentity(s.sets[key].labels, v[key].labels)
    requires k in Step(s, key, pods, copy).newMs && k !in s.newMs
    requires Step(s, key, pods, copy).newMs.Keys !! s.sets.Keys
    ensures Id(s.sets[key]) in pods
    ensures StubMeaning(v, Settled(Step(s, key, pods, copy), done + {key}), k, pods[Id(s.sets[key])], copy)
  {
    hide Step, StubMeaning, FiledUnder, KeepsIdentity, SameIdentity, Settled;
    if Id(s.sets[key]) !in pods {
      StepSkips(s, key, pods, copy);
    }
    SameIdentityFiled(key, v[key], s.sets[key]);
    MakesUpOnlyForPods(s, key, pods, copy);
    if HasType(s.sets[key], TYPE_POD) {
      PodBrings(v, s, key, done, pods, copy, k);
    } else {
      var c := ContainerNameOf(key, s.sets[key]);
      ContainerSays(key, s.sets[key]);
      ContainerBrings(v, s, key, done, pods, copy, k);
    }
  }

  lemma ContainerSays(k: string, d: SetData)
    requires FiledUnder(k, d) && HasType(d, TYPE_POD_CONTAINER)
    ensures IsContainerOf(d, Id(d).0, Id(d).1)
  {}

  lemma MakesUpOnlyForPods(s: State, key: string, pods: Lister, copy: Copier)
    requires key in s.sets && Step(s, key, pods, copy).newMs.Keys != s.newMs.Keys
    ensures HasType(s.sets[key], TYPE_POD) || HasType(s.sets[key], TYPE_POD_CONTAINER)
  {
    hide AddPod, AddContainer;
  }

  lemma StepStubsNow(v: View, s: State, key: string, done: set<string>, pods: Lister, copy: Copier)
    requires key in s.sets && key !in done && key in v && KeepsIdentity(copy) && Listed(pods) && Filed(v)
    requires SameIdentity(s.sets[key].labels, v[key].labels) && WellFiled(s) && StubsNow(v, s, done, pods, copy)
    ensures StubsNow(v, Step(s, key, pods, copy), done + {key}, pods, copy)
  {
    hide Step, StubMeaning, FiledUnder, KeepsIdentity, SameIdentity, Listed;
    var s' := Step(s, key, pods, copy);
    StepFiled(s, key, pods, copy);
    StepKeepsKeys(s, key, pods, copy);
    MoreSettled(s, key, done, pods, copy);
    forall k | k in s'.newMs
      ensures exists id :: id in pods && StubMeaning(v, Settled(s', done + {key}), k, pods[id], copy)
    {
      if k in s.newMs {
        var id :| id in pods && StubMeaning(v, Settled(s, done), k, pods[id], copy);
        StubStays(v, Settled(s, done), Settled(s', done + {key}), k, pods[id], copy);
      } else {
        StepNew(v, s, key, done, pods, copy, k);
      }
    }
  }

  lemma {:induction false} RunStubs(v: View, order: seq<string>, pods: Lister, copy: Copier)
    requires (forall k :: k in order ==> k in v) && NoRepeats(order) && KeepsIdentity(copy) && Listed(pods) && Filed(v)
    ensures StubsNow(v, Run(v, order, pods, copy), Seen(order), pods, copy)
  {
    hide Step, StubsNow, KeepsIdentity, SameIdentity, Listed, Filed;
    if order == [] {
      NoStubs(v, pods, copy);
      assert Seen(order) == {};
    } else {
      var n := |order| - 1;
      assert order == order[..n] + [order[n]];
      RunStubs(v, order[..n], pods, copy);
      RunFiled(v, order[..n], pods, copy);
      SeenNext(order);
      IdentitiesKept(v, order[..n], pods, copy, order[n]);
      StepStubsNow(v, Run(v, order[..n], pods, copy), order[n], Seen(order[..n]), pods, copy);
    }
  }

  lemma NoStubs(v: View, pods: Lister, copy: Copier)
    ensures StubsNow(v, State(v, map[]), {}, pods, copy)
  {}

  // ----- The whole batch -----

  /**
   * For every filed batch, every lister and every map order: what becomes of each set that was scraped, and what
   * each other set of the result is.
   */
  lemma EnrichedMeaning(v: View, order: seq<string>, pods: Lister, copy: Copier)
    requires IsOrder(order, v) && Filed(v) && KeepsIdentity(copy) && Listed(pods)
    ensures var e := Enriched(v, order, pods, copy);
            && (forall k :: k in v ==> k in e && ScrapedMeaning(v[k], e[k], k, pods, copy))
            && (forall k :: k in e && k !in v ==> exists id :: id in pods && StubMeaning(v, e, k, pods[id], copy))
  {
    hide Run, ScrapedMeaning, StubMeaning, Touched, KeepsIdentity, Listed, FiledUnder;
    var s := Run(v, order, pods, copy);
    RunFiled(v, order, pods, copy);
    RunStubs(v, order, pods, copy);
    assert Seen(order) == v.Keys;
    assert Settled(s, v.Keys) == s.sets + s.newMs;
    forall k | k in v
      ensures ScrapedMeaning(v[k], (s.sets + s.newMs)[k], k, pods, copy)
    {
      RunTouches(v, order, pods, copy, k);
      TouchedMeaning(v[k], k, pods, copy);
    }
  }
}
