/** metrics/processors/pod_based_enricher.go: completing a batch from the pod specs. */
module Enrichment {
  import opened Sums
  import opened Core
  import opened Keys

  /** What the resource library reads off a quantity. */
  datatype Quantity = Quantity(milliValue: int64, value: int64)

  /** A container of a spec. The loop over its requests happens to go in the order of range. */
  datatype Container = Container(
    name: string, image: string, requests: map<string, Quantity>, limits: map<string, Quantity>, range: seq<string>)
  {
    ghost predicate Ranged() {
      IsOrder(range, requests)
    }
  }

  datatype ContainerStatus = ContainerStatus(name: string, restartCount: int64)

  datatype PodSpec = PodSpec(
    namespace: string, name: string, uid: string, labels: map<string, string>,
    containers: seq<Container>, statuses: seq<ContainerStatus>, startTime: Option<int>)

  /** The pod lister's snapshot: namespace and name to pod. */
  type Lister = map<(string, string), PodSpec>

  /**
   * What the label copier leaves on the set filed under a key, given the pod's labels and the
   * set's.  The copier ranges over a map, so its result may differ from one set to the next.
   */
  type Copier = (string, map<string, string>, map<string, string>) -> map<string, string>

  const CPU := "cpu"
  const MEMORY := "memory"
  const EPHEMERAL := "ephemeral-storage"
  const CPU_REQUEST := "cpu/request"
  const CPU_LIMIT := "cpu/limit"
  const MEMORY_REQUEST := "memory/request"
  const MEMORY_LIMIT := "memory/limit"
  const EPHEMERAL_REQUEST := "ephemeral_storage/request"
  const EPHEMERAL_LIMIT := "ephemeral_storage/limit"
  const RESTART_COUNT := "restart_count"

  /** The six metrics that say what a container asks for and may use. */
  datatype Resource = CpuRequest | MemoryRequest | EphemeralRequest | CpuLimit | MemoryLimit | EphemeralLimit

  function MetricName(r: Resource): string {
    match r
    case CpuRequest => CPU_REQUEST
    case MemoryRequest => MEMORY_REQUEST
    case EphemeralRequest => EPHEMERAL_REQUEST
    case CpuLimit => CPU_LIMIT
    case MemoryLimit => MEMORY_LIMIT
    case EphemeralLimit => EPHEMERAL_LIMIT
  }

  /** The amount of r in a container's spec; what is not stated is zero. */
  function Stated(c: Container, r: Resource): int64 {
    match r
    case CpuRequest => if CPU in c.requests then c.requests[CPU].milliValue else 0
    case MemoryRequest => if MEMORY in c.requests then c.requests[MEMORY].value else 0
    case EphemeralRequest => if EPHEMERAL in c.requests then c.requests[EPHEMERAL].value else 0
    case CpuLimit => if CPU in c.limits then c.limits[CPU].milliValue else 0
    case MemoryLimit => if MEMORY in c.limits then c.limits[MEMORY].value else 0
    case EphemeralLimit => if EPHEMERAL in c.limits then c.limits[EPHEMERAL].value else 0
  }

  /** The metric that tracks requests of a resource: three have a name of their own. */
  function RequestName(resource: string): string {
    if resource == EPHEMERAL then EPHEMERAL_REQUEST else resource + "/request"
  }

  function RequestValue(resource: string, q: Quantity): MetricValue {
    IntValue(if resource == CPU then q.milliValue else q.value)
  }

  const EPHEMERAL_TWIN := "ephemeral_storage"

  /** Only two resources share a metric: where both are requested, they are requested alike. */
  predicate Plain(requests: map<string, Quantity>) {
    EPHEMERAL_TWIN in requests && EPHEMERAL in requests ==> requests[EPHEMERAL_TWIN].value == requests[EPHEMERAL].value
  }

  lemma RequestNamesDiffer(a: string, b: string)
    requires RequestName(a) == RequestName(b) && a != b
    ensures {a, b} == {EPHEMERAL, EPHEMERAL_TWIN}
  {
    assert EPHEMERAL_REQUEST == EPHEMERAL_TWIN + "/request";
    var a' := if a == EPHEMERAL then EPHEMERAL_TWIN else a;
    var b' := if b == EPHEMERAL then EPHEMERAL_TWIN else b;
    assert (a' + "/request")[..|a'|] == a' && (b' + "/request")[..|b'|] == b';
  }

  /** The values after the loop has gone through the requests in order. */
  function Requested(values: map<string, MetricValue>, requests: map<string, Quantity>,
        order: seq<string>): map<string, MetricValue> {
    if order == [] then values
    else
      var k := order[|order| - 1];
      var before := Requested(values, requests, order[..|order| - 1]);
      if k in requests then before[RequestName(k) := RequestValue(k, requests[k])] else before
  }

  /** The metric of a resource ends at its request, if whoever shares the metric requests the same. */
  lemma {:induction false} RequestWritten(values: map<string, MetricValue>, requests: map<string, Quantity>,
        order: seq<string>, k: string)
    requires k in requests && k in order
    requires forall j :: j in requests && RequestName(j) == RequestName(k) ==>
               RequestValue(j, requests[j]) == RequestValue(k, requests[k])
    ensures RequestName(k) in Requested(values, requests, order)
    ensures Requested(values, requests, order)[RequestName(k)] == RequestValue(k, requests[k])
  {
    hide RequestName, RequestValue;
    var n := |order| - 1;
    assert order == order[..n] + [order[n]];
    if order[n] != k {
      RequestWritten(values, requests, order[..n], k);
    }
  }

  lemma PlainAgrees(requests: map<string, Quantity>, j: string, k: string)
    requires Plain(requests) && j in requests && k in requests && RequestName(j) == RequestName(k)
    ensures RequestValue(j, requests[j]) == RequestValue(k, requests[k])
  {
    if j != k {
      RequestNamesDiffer(j, k);
      assert |CPU| == 3 && |EPHEMERAL| == 17 && |EPHEMERAL_TWIN| == 17;
      assert j in {EPHEMERAL, EPHEMERAL_TWIN} && k in {EPHEMERAL, EPHEMERAL_TWIN};
    }
  }

  function Zero(requests: map<string, Quantity>, resource: string, metric: string): map<string, MetricValue> {
    if resource in requests then map[] else map[metric := IntValue(0)]
  }

  /** Primary resources that are not requested are zero. */
  function ZeroRequests(requests: map<string, Quantity>): map<string, MetricValue> {
    Zero(requests, CPU, CPU_REQUEST) + Zero(requests, MEMORY, MEMORY_REQUEST) +
    Zero(requests, EPHEMERAL, EPHEMERAL_REQUEST)
  }

  function LimitMap(c: Container): map<string, MetricValue> {
    map[CPU_LIMIT := IntValue(Stated(c, CpuLimit)),
        MEMORY_LIMIT := IntValue(Stated(c, MemoryLimit)),
        EPHEMERAL_LIMIT := IntValue(Stated(c, EphemeralLimit))]
  }

  /** updateContainerResourcesAndLimits. */
  function Resourced(values: map<string, MetricValue>, c: Container): map<string, MetricValue> {
    Requested(values, c.requests, c.range) + ZeroRequests(c.requests) + LimitMap(c)
  }

  /** The names differ in length. */
  lemma NamesDiffer()
    ensures |CPU_REQUEST| == 11 && |MEMORY_REQUEST| == 14 && |EPHEMERAL_REQUEST| == 25
    ensures |CPU_LIMIT| == 9 && |MEMORY_LIMIT| == 12 && |EPHEMERAL_LIMIT| == 23 && |RESTART_COUNT| == 13
  {}

  lemma LimitsStated(values: map<string, MetricValue>, c: Container, r: Resource)
    requires r.CpuLimit? || r.MemoryLimit? || r.EphemeralLimit?
    ensures MetricName(r) in LimitMap(c) && LimitMap(c)[MetricName(r)] == IntValue(Stated(c, r))
  {
    NamesDiffer();
  }

  lemma LimitsOnly(c: Container, r: Resource)
    requires r.CpuRequest? || r.MemoryRequest? || r.EphemeralRequest?
    ensures MetricName(r) !in LimitMap(c)
  {
    NamesDiffer();
  }

  function ResourceName(r: Resource): string {
    match r
    case CpuRequest => CPU
    case MemoryRequest => MEMORY
    case EphemeralRequest => EPHEMERAL
    case CpuLimit => CPU
    case MemoryLimit => MEMORY
    case EphemeralLimit => EPHEMERAL
  }

  lemma ZerosStated(requests: map<string, Quantity>, r: Resource)
    requires r.CpuRequest? || r.MemoryRequest? || r.EphemeralRequest?
    ensures MetricName(r) in ZeroRequests(requests) <==> ResourceName(r) !in requests
    ensures MetricName(r) in ZeroRequests(requests) ==> ZeroRequests(requests)[MetricName(r)] == IntValue(0)
  {
    NamesDiffer();
  }

  lemma RequestNamed(r: Resource)
    requires r.CpuRequest? || r.MemoryRequest? || r.EphemeralRequest?
    ensures RequestName(ResourceName(r)) == MetricName(r)
  {
    assert |CPU| == 3 && |MEMORY| == 6 && |EPHEMERAL| == 17;
    assert CPU + "/request" == CPU_REQUEST && MEMORY + "/request" == MEMORY_REQUEST;
  }

  lemma RequestsStated(values: map<string, MetricValue>, c: Container, r: Resource)
    requires r.CpuRequest? || r.MemoryRequest? || r.EphemeralRequest?
    requires c.Ranged() && Plain(c.requests) && ResourceName(r) in c.requests
    ensures var q := Requested(values, c.requests, c.range);
            MetricName(r) in q && q[MetricName(r)] == IntValue(Stated(c, r))
  {
    hide Requested;
    RequestNamed(r);
    forall j | j in c.requests && RequestName(j) == RequestName(ResourceName(r))
      ensures RequestValue(j, c.requests[j]) == RequestValue(ResourceName(r), c.requests[ResourceName(r)])
    {
      PlainAgrees(c.requests, j, ResourceName(r));
    }
    RequestWritten(values, c.requests, c.range, ResourceName(r));
    assert |CPU| == 3 && |MEMORY| == 6 && |EPHEMERAL| == 17;
  }

  /** Whatever was there before, the six metrics are as the spec states them. */
  lemma ResourcedStates(values: map<string, MetricValue>, c: Container, r: Resource)
    requires c.Ranged() && Plain(c.requests)
    ensures MetricName(r) in Resourced(values, c)
    ensures Resourced(values, c)[MetricName(r)] == IntValue(Stated(c, r))
  {
    hide Requested;
    if r.CpuLimit? || r.MemoryLimit? || r.EphemeralLimit? {
      LimitsStated(values, c, r);
    } else {
      LimitsOnly(c, r);
      ZerosStated(c.requests, r);
      if ResourceName(r) in c.requests {
        RequestsStated(values, c, r);
      }
    }
  }

  /** The six metrics state the spec, in whatever order the requests are gone through. */
  ghost predicate StatedInEveryOrder(values: map<string, MetricValue>, c: Container) {
    forall order, r :: IsOrder(order, c.requests) ==>
      At(Resourced(values, c.(range := order)), MetricName(r)) == Some(IntValue(Stated(c, r)))
  }

  /** This holds if and only if the two resources that share a metric are not requested differently. */
  lemma StatedExactlyWhenPlain(values: map<string, MetricValue>, c: Container)
    ensures StatedInEveryOrder(values, c) <==> Plain(c.requests)
  {
    hide Resourced, MetricName, Stated;
    if Plain(c.requests) {
      forall order, r | IsOrder(order, c.requests)
        ensures At(Resourced(values, c.(range := order)), MetricName(r)) == Some(IntValue(Stated(c, r)))
      {
        ResourcedStates(values, c.(range := order), r);
        SameStated(c, c.(range := order), r);
      }
    } else {
      var order := SomeOrder(c.requests.Keys - {EPHEMERAL_TWIN}) + [EPHEMERAL_TWIN];
      TwinLast(values, c.(range := order));
      SameStated(c, c.(range := order), EphemeralRequest);
    }
  }

  lemma SameStated(c: Container, d: Container, r: Resource)
    requires d == c.(range := d.range)
    ensures Stated(c, r) == Stated(d, r)
  {}

  /** Where it fails: the twin's request, gone through last, takes the metric. */
  lemma TwinLast(values: map<string, MetricValue>, c: Container)
    requires c.range != [] && c.range[|c.range| - 1] == EPHEMERAL_TWIN && !Plain(c.requests)
    ensures At(Resourced(values, c), MetricName(EphemeralRequest)) != Some(IntValue(Stated(c, EphemeralRequest)))
  {
    LimitsOnly(c, EphemeralRequest);
    ZerosStated(c.requests, EphemeralRequest);
    assert |EPHEMERAL| == 17 && EPHEMERAL[9] == '-' && EPHEMERAL_TWIN[9] == '_';
    assert EPHEMERAL_TWIN + "/request" == EPHEMERAL_REQUEST;
    assert |CPU| == 3;
  }

  // ----- The loop -----

  /** The batch, and the sets made up on the way. */
  datatype State = State(sets: View, newMs: View)

  function SpecOf(pod: PodSpec, n: nat, key: string): Option<Container>
    requires n <= |pod.containers|
  {
    if n == 0 then None
    else
      var before := SpecOf(pod, n - 1, key);
      if before.Some? then before
      else if key == PodContainerKey(pod.namespace, pod.name, pod.containers[n - 1].name)
      then Some(pod.containers[n - 1])
      else None
  }

  /** The first container of the spec that is filed under this key. */
  function Spec(pod: PodSpec, key: string): Option<Container> {
    SpecOf(pod, |pod.containers|, key)
  }

  function StatusOf(pod: PodSpec, n: nat, key: string): Option<ContainerStatus>
    requires n <= |pod.statuses|
  {
    if n == 0 then None
    else
      var before := StatusOf(pod, n - 1, key);
      if before.Some? then before
      else if key == PodContainerKey(pod.namespace, pod.name, pod.statuses[n - 1].name) then Some(pod.statuses[n - 1])
      else None
  }

  function Status(pod: PodSpec, key: string): Option<ContainerStatus> {
    StatusOf(pod, |pod.statuses|, key)
  }

  function Started(d: SetData, pod: PodSpec): SetData {
    if pod.startTime.Some? then d.(entityCreateTime := pod.startTime.value) else d
  }

  /** A scraped container gets its spec, its restart count and its pod's labels. */
  ghost function WithSpec(d: SetData, key: string, pod: PodSpec): SetData {
    var c := Spec(pod, key);
    if c.None? then d
    else d.(values := Resourced(d.values, c.value),
            labels :=
              if CONTAINER_BASE_IMAGE in d.labels then d.labels else d.labels[CONTAINER_BASE_IMAGE := c.value.image])
  }

  function WithStatus(d: SetData, key: string, pod: PodSpec): SetData {
    var s := Status(pod, key);
    if s.None? then d
    else Started(d.(values := d.values[RESTART_COUNT := IntValue(s.value.restartCount)]), pod)
  }

  function Labelled(d: SetData, key: string, pod: PodSpec, copy: Copier): SetData {
    d.(labels := copy(key, pod.labels, d.labels[POD_ID := pod.uid]))
  }

  ghost function ContainerInfo(d: SetData, key: string, pod: PodSpec, copy: Copier): SetData {
    Labelled(WithStatus(WithSpec(d, key, pod), key, pod), key, pod, copy)
  }

  function PodInfo(d: SetData, key: string, pod: PodSpec, copy: Copier): SetData {
    Labelled(Started(d, pod), key, pod, copy)
  }

  function PodStub(labels: map<string, string>): SetData {
    SetData(0, 0, 0, map[], map[
      TYPE := TYPE_POD,
      NAMESPACE_NAME := Get(labels, NAMESPACE_NAME),
      POD_NAME := Get(labels, POD_NAME),
      NODENAME := Get(labels, NODENAME),
      HOSTNAME := Get(labels, HOSTNAME),
      HOST_ID := Get(labels, HOST_ID)], [])
  }

  function StubLabels(podMs: SetData, pod: PodSpec, c: Container): map<string, string> {
    map[TYPE := TYPE_POD_CONTAINER,
        NAMESPACE_NAME := pod.namespace,
        POD_NAME := pod.name,
        CONTAINER_NAME := c.name,
        CONTAINER_BASE_IMAGE := c.image,
        POD_ID := pod.uid,
        NODENAME := Get(podMs.labels, NODENAME),
        HOSTNAME := Get(podMs.labels, HOSTNAME),
        HOST_ID := Get(podMs.labels, HOST_ID)]
  }

  ghost function ContainerStub(podMs: SetData, key: string, pod: PodSpec, c: Container, copy: Copier): SetData {
    SetData(0, podMs.collectionStartTime, 0, Resourced(map[], c), copy(key, pod.labels, StubLabels(podMs, pod, c)), [])
  }

  function ContainerKey(pod: PodSpec, i: nat): string
    requires i < |pod.containers|
  {
    PodContainerKey(pod.namespace, pod.name, pod.containers[i].name)
  }

  /** What a missing container's set is made of. */
  type Maker = (string, Container) -> SetData

  /** A stub for the i-th container of the spec, if it is missing. */
  function WithStub(s: State, pod: PodSpec, i: nat, make: Maker): State
    requires i < |pod.containers|
  {
    var key := ContainerKey(pod, i);
    if key in s.sets || key in s.newMs then s
    else s.(newMs := s.newMs[key := make(key, pod.containers[i])])
  }

  /** Stubs for the first n containers of the spec that are missing. */
  function WithStubs(s: State, pod: PodSpec, n: nat, make: Maker): State
    requires n <= |pod.containers|
  {
    if n == 0 then s else WithStub(WithStubs(s, pod, n - 1, make), pod, n - 1, make)
  }

  ghost function Stubber(podMs: SetData, pod: PodSpec, copy: Copier): Maker {
    (key, c) => ContainerStub(podMs, key, pod, c, copy)
  }

  ghost function AddPod(s: State, key: string, pod: PodSpec, copy: Copier): State
    requires key in s.sets
  {
    var podMs := PodInfo(s.sets[key], key, pod, copy);
    WithStubs(s.(sets := s.sets[key := podMs]), pod, |pod.containers|, Stubber(podMs, pod, copy))
  }

  /** A container whose pod nobody has brings a stub for the pod, and the pod its other containers. */
  ghost function WithPodStub(s: State, podKey: string, d: SetData, pod: PodSpec, copy: Copier): State {
    if podKey in s.sets || podKey in s.newMs then s
    else
      var podMs := PodInfo(PodStub(d.labels), podKey, pod, copy);
      WithStubs(s.(newMs := s.newMs[podKey := podMs]), pod, |pod.containers|, Stubber(podMs, pod, copy))
  }

  ghost function AddContainer(s: State, key: string, pod: PodSpec, copy: Copier): State
    requires key in s.sets
  {
    var d := ContainerInfo(s.sets[key], key, pod, copy);
    WithPodStub(s.(sets := s.sets[key := d]), PodKey(Get(d.labels, NAMESPACE_NAME), Get(d.labels, POD_NAME)),
                d, pod, copy)
  }

  /** One round of the loop over the batch; sets of pods the lister does not know are left alone. */
  ghost function Step(s: State, key: string, pods: Lister, copy: Copier): State
    requires key in s.sets
  {
    var d := s.sets[key];
    var id := (Get(d.labels, NAMESPACE_NAME), Get(d.labels, POD_NAME));
    if id !in pods then s
    else if HasType(d, TYPE_POD) then AddPod(s, key, pods[id], copy)
    else if HasType(d, TYPE_POD_CONTAINER) then AddContainer(s, key, pods[id], copy)
    else s
  }

  lemma {:induction false} StubsKeepSets(s: State, pod: PodSpec, n: nat, make: Maker)
    requires n <= |pod.containers|
    ensures WithStubs(s, pod, n, make).sets == s.sets
    ensures s.newMs.Keys <= WithStubs(s, pod, n, make).newMs.Keys
    ensures forall k :: k in s.newMs ==> WithStubs(s, pod, n, make).newMs[k] == s.newMs[k]
  {
    if n > 0 {
      StubsKeepSets(s, pod, n - 1, make);
    }
  }

  lemma StepKeepsKeys(s: State, key: string, pods: Lister, copy: Copier)
    requires key in s.sets
    ensures Step(s, key, pods, copy).sets.Keys == s.sets.Keys
  {
    var d := s.sets[key];
    var id := (Get(d.labels, NAMESPACE_NAME), Get(d.labels, POD_NAME));
    if id in pods {
      var pod := pods[id];
      if HasType(d, TYPE_POD) {
        var podMs := PodInfo(d, key, pod, copy);
        StubsKeepSets(s.(sets := s.sets[key := podMs]), pod, |pod.containers|, Stubber(podMs, pod, copy));
      } else if HasType(d, TYPE_POD_CONTAINER) {
        var d' := ContainerInfo(d, key, pod, copy);
        PodStubKeepsSets(s.(sets := s.sets[key := d']),
                         PodKey(Get(d'.labels, NAMESPACE_NAME), Get(d'.labels, POD_NAME)),
            d', pod, copy);
      }
    }
  }

  lemma PodStubKeepsSets(s: State, podKey: string, d: SetData, pod: PodSpec, copy: Copier)
    ensures WithPodStub(s, podKey, d, pod, copy).sets == s.sets
    ensures s.newMs.Keys <= WithPodStub(s, podKey, d, pod, copy).newMs.Keys
    ensures forall k :: k in s.newMs ==> WithPodStub(s, podKey, d, pod, copy).newMs[k] == s.newMs[k]
  {
    var podMs := PodInfo(PodStub(d.labels), podKey, pod, copy);
    StubsKeepSets(s.(newMs := s.newMs[podKey := podMs]), pod, |pod.containers|, Stubber(podMs, pod, copy));
  }

  ghost function Run(v: View, order: seq<string>, pods: Lister, copy: Copier): (s: State)
    requires forall k :: k in order ==> k in v
    ensures s.sets.Keys == v.Keys
  {
    if order == [] then State(v, map[])
    else
      var n := |order| - 1;
      assert forall k :: k in order[..n] ==> k in order;
      var before := Run(v, order[..n], pods, copy);
      StepKeepsKeys(before, order[n], pods, copy);
      Step(before, order[n], pods, copy)
  }

  lemma RunNext(v: View, order: seq<string>, key: string, pods: Lister, copy: Copier)
    requires (forall k :: k in order ==> k in v) && key in v
    ensures Run(v, order + [key], pods, copy) == Step(Run(v, order, pods, copy), key, pods, copy)
  {
    assert (order + [key])[..|order|] == order;
  }

  /** Process: the loop, then the sets made up are filed in the batch. */
  ghost function Enriched(v: View, order: seq<string>, pods: Lister, copy: Copier): View
    requires forall k :: k in order ==> k in v
  {
    var s := Run(v, order, pods, copy);
    s.sets + s.newMs
  }
}
