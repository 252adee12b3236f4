/** What the enricher leaves behind, for every batch, lister snapshot and order. */
module EnrichmentMeaning {
  import opened Sums
  import opened Core
  import opened Keys
  import opened Filing
  import opened Enrichment

  predicate SameAt(a: map<string, string>, b: map<string, string>, l: string) {
    (l in a <==> l in b) && (l in a ==> a[l] == b[l])
  }

  /** The labels that say what a set is about are the same. */
  predicate SameIdentity(a: map<string, string>, b: map<string, string>) {
    SameAt(a, b, TYPE) && SameAt(a, b, NAMESPACE_NAME) && SameAt(a, b, POD_NAME)
  }

  /** No pod label is stored over a set's type, namespace or pod name. */
  ghost predicate KeepsIdentity(copy: Copier) {
    forall key, given, labels :: SameIdentity(copy(key, given, labels), labels)
  }

  /** Pods as the API server admits them. */
  ghost predicate Admitted(pod: PodSpec) {
    && '/' !in pod.namespace && '/' !in pod.name
    && (forall i, j :: 0 <= i < j < |pod.containers| ==> pod.containers[i].name != pod.containers[j].name)
    && (forall c :: c in pod.containers ==> c.Ranged() && Plain(c.requests))
  }

  ghost predicate Listed(pods: Lister) {
    forall id :: id in pods ==> Admitted(pods[id]) && pods[id].namespace == id.0 && pods[id].name == id.1
  }

  function Id(d: SetData): (string, string) {
    (Get(d.labels, NAMESPACE_NAME), Get(d.labels, POD_NAME))
  }

  // ----- One set at a time -----

  lemma LabelsDiffer()
    ensures POD_ID !in {TYPE, NAMESPACE_NAME, POD_NAME}
    ensures CONTAINER_BASE_IMAGE !in {TYPE, NAMESPACE_NAME, POD_NAME}
    ensures NODENAME !in {TYPE, NAMESPACE_NAME, POD_NAME}
    ensures HOSTNAME !in {TYPE, NAMESPACE_NAME, POD_NAME}
    ensures HOST_ID !in {TYPE, NAMESPACE_NAME, POD_NAME}
    ensures CONTAINER_NAME !in {TYPE, NAMESPACE_NAME, POD_NAME}
    ensures TYPE != NAMESPACE_NAME && TYPE != POD_NAME && NAMESPACE_NAME != POD_NAME
  {
    assert |TYPE| == 4 && |NAMESPACE_NAME| == 14 && |POD_NAME| == 8;
    assert |POD_ID| == 6 && |CONTAINER_BASE_IMAGE| == 20 && |HOST_ID| == 7;
    assert NODENAME[0] == 'n' && HOSTNAME[0] == 'h' && POD_NAME[0] == 'p';
    assert CONTAINER_NAME[0] == 'c' && NAMESPACE_NAME[0] == 'n' && |CONTAINER_NAME| == 14;
    assert |NODENAME| == 8 && |HOSTNAME| == 8;
  }

  lemma LabelledKeepsIdentity(d: SetData, key: string, pod: PodSpec, copy: Copier)
    requires KeepsIdentity(copy)
    ensures SameIdentity(Labelled(d, key, pod, copy).labels, d.labels)
    ensures Labelled(d, key, pod, copy).values == d.values
  {
    LabelsDiffer();
    assert SameIdentity(copy(key, pod.labels, d.labels[POD_ID := pod.uid]), d.labels[POD_ID := pod.uid]);
  }

  lemma PodInfoFacts(d: SetData, key: string, pod: PodSpec, copy: Copier)
    requires KeepsIdentity(copy)
    ensures SameIdentity(PodInfo(d, key, pod, copy).labels, d.labels)
    ensures PodInfo(d, key, pod, copy).values == d.values
  {
    LabelledKeepsIdentity(Started(d, pod), key, pod, copy);
  }

  lemma WithSpecKeepsIdentity(d: SetData, key: string, pod: PodSpec)
    ensures SameIdentity(WithSpec(d, key, pod).labels, d.labels)
  {
    LabelsDiffer();
  }

  lemma WithStatusKeepsLabels(d: SetData, key: string, pod: PodSpec)
    ensures WithStatus(d, key, pod).labels == d.labels
  {}

  lemma ContainerInfoKeepsIdentity(d: SetData, key: string, pod: PodSpec, copy: Copier)
    requires KeepsIdentity(copy)
    ensures SameIdentity(ContainerInfo(d, key, pod, copy).labels, d.labels)
  {
    hide WithSpec, WithStatus, Labelled;
    var d1 := WithSpec(d, key, pod);
    WithSpecKeepsIdentity(d, key, pod);
    WithStatusKeepsLabels(d1, key, pod);
    LabelledKeepsIdentity(WithStatus(d1, key, pod), key, pod, copy);
  }

  /** What the set filed under key has of r once the enricher has seen it. */
  function Expected(pod: PodSpec, key: string, r: Resource): Option<MetricValue> {
    var c := Spec(pod, key);
    if c.Some? then Some(IntValue(Stated(c.value, r))) else None
  }

  lemma {:induction false} SpecIsListed(pod: PodSpec, n: nat, key: string)
    requires n <= |pod.containers|
    ensures SpecOf(pod, n, key).Some? ==> SpecOf(pod, n, key).value in pod.containers
  {
    if n > 0 {
      SpecIsListed(pod, n - 1, key);
    }
  }

  lemma RestartsAreNoResource(r: Resource)
    ensures MetricName(r) != RESTART_COUNT
  {
    NamesDiffer();
  }

  lemma ContainerInfoStates(d: SetData, key: string, pod: PodSpec, copy: Copier, r: Resource)
    requires KeepsIdentity(copy) && Admitted(pod) && MetricName(r) !in d.values
    ensures At(ContainerInfo(d, key, pod, copy).values, MetricName(r)) == Expected(pod, key, r)
  {
    hide WithSpec, WithStatus, Labelled, MetricName, Stated;
    var d1 := WithSpec(d, key, pod);
    LabelledKeepsIdentity(WithStatus(d1, key, pod), key, pod, copy);
    WithStatusAt(d1, key, pod, r);
    WithSpecStates(d, key, pod, r);
  }

  lemma WithStatusAt(d: SetData, key: string, pod: PodSpec, r: Resource)
    ensures At(WithStatus(d, key, pod).values, MetricName(r)) == At(d.values, MetricName(r))
  {
    hide MetricName;
    RestartsAreNoResource(r);
  }

  lemma WithSpecStates(d: SetData, key: string, pod: PodSpec, r: Resource)
    requires Admitted(pod) && MetricName(r) !in d.values
    ensures At(WithSpec(d, key, pod).values, MetricName(r)) == Expected(pod, key, r)
  {
    hide MetricName, Stated, Resourced;
    SpecIsListed(pod, |pod.containers|, key);
    if Spec(pod, key).Some? {
      ResourcedStates(d.values, Spec(pod, key).value, r);
    }
  }

  lemma {:induction false} SpecAt(pod: PodSpec, n: nat, i: nat)
    requires Admitted(pod) && i < |pod.containers| && n <= |pod.containers|
    ensures SpecOf(pod, n, ContainerKey(pod, i)) == if i < n then Some(pod.containers[i]) else None
  {
    if n > 0 {
      SpecAt(pod, n - 1, i);
      if ContainerKey(pod, n - 1) == ContainerKey(pod, i) {
        ContainerKeysDiffer(pod.namespace, pod.name, pod.containers[n - 1].name, pod.namespace, pod.name,
            pod.containers[i].name);
      }
    }
  }

  // ----- Stubs -----

  ghost predicate IsPodStub(k: string, d: SetData, pod: PodSpec, r: Resource) {
    && k == PodKey(pod.namespace, pod.name)
    && HasType(d, TYPE_POD) && Says(d.labels, pod.namespace, pod.name)
    && MetricName(r) !in d.values
  }

  /** The stub of the i-th container says what its spec states of r. */
  ghost predicate IsContainerStub(k: string, d: SetData, pod: PodSpec, i: nat, r: Resource) {
    && i < |pod.containers| && k == ContainerKey(pod, i)
    && IsContainerOf(d, pod.namespace, pod.name)
    && At(d.values, MetricName(r)) == Some(IntValue(Stated(pod.containers[i], r)))
  }

  ghost predicate StubFor(k: string, d: SetData, pod: PodSpec, r: Resource) {
    IsPodStub(k, d, pod, r) || exists i: nat :: IsContainerStub(k, d, pod, i, r)
  }

  ghost predicate MakesStubs(make: Maker, pod: PodSpec, r: Resource) {
    forall i :: 0 <= i < |pod.containers| ==>
      IsContainerStub(ContainerKey(pod, i), make(ContainerKey(pod, i), pod.containers[i]), pod, i, r)
  }

  lemma StubLabelsSay(podMs: SetData, pod: PodSpec, c: Container)
    ensures var l := StubLabels(podMs, pod, c);
            TYPE in l && l[TYPE] == TYPE_POD_CONTAINER && Says(l, pod.namespace, pod.name)
  {
    LabelsDiffer();
  }

  lemma StubberMakesStubs(podMs: SetData, pod: PodSpec, copy: Copier, r: Resource)
    requires KeepsIdentity(copy) && Admitted(pod)
    ensures MakesStubs(Stubber(podMs, pod, copy), pod, r)
  {
    hide MetricName, Stated, Resourced, StubLabels, ContainerKey;
    forall i | 0 <= i < |pod.containers|
      ensures var k := ContainerKey(pod, i);
              IsContainerStub(k, ContainerStub(podMs, k, pod, pod.containers[i], copy), pod, i, r)
    {
      var key, c := ContainerKey(pod, i), pod.containers[i];
      StubLabelsSay(podMs, pod, c);
      assert SameIdentity(copy(key, pod.labels, StubLabels(podMs, pod, c)), StubLabels(podMs, pod, c));
      ResourcedStates(map[], c, r);
    }
  }

  lemma PodStubSays(labels: map<string, string>)
    ensures HasType(PodStub(labels), TYPE_POD)
    ensures Says(PodStub(labels).labels, Get(labels, NAMESPACE_NAME), Get(labels, POD_NAME))
  {
    LabelsDiffer();
  }

  /** What is new is a stub for the pod, and every container of the spec is there. */
  ghost predicate Grown(s: State, s': State, pod: PodSpec, r: Resource) {
    && s.newMs.Keys <= s'.newMs.Keys
    && (forall k :: k in s.newMs ==> s'.newMs[k] == s.newMs[k])
    && (forall k :: k in s'.newMs && k !in s.newMs ==> k !in s.sets && StubFor(k, s'.newMs[k], pod, r))
  }

  ghost predicate Covered(s: State, pod: PodSpec, n: nat)
    requires n <= |pod.containers|
  {
    forall i :: 0 <= i < n ==> ContainerKey(pod, i) in s.sets || ContainerKey(pod, i) in s.newMs
  }

  lemma {:induction false} StubsGrow(s: State, pod: PodSpec, n: nat, make: Maker, r: Resource)
    requires n <= |pod.containers| && MakesStubs(make, pod, r)
    ensures Grown(s, WithStubs(s, pod, n, make), pod, r)
    ensures Covered(WithStubs(s, pod, n, make), pod, n)
  {
    hide ContainerKey, IsPodStub, IsContainerStub;
    StubsKeepSets(s, pod, n, make);
    if n > 0 {
      StubsKeepSets(s, pod, n - 1, make);
      StubsGrow(s, pod, n - 1, make, r);
    }
  }

  // ----- One round -----

  /** What a round makes of the set it visits. */
  ghost function Touched(d: SetData, key: string, pods: Lister, copy: Copier): SetData {
    if Id(d) !in pods then d
    else if HasType(d, TYPE_POD) then PodInfo(d, key, pods[Id(d)], copy)
    else if HasType(d, TYPE_POD_CONTAINER) then ContainerInfo(d, key, pods[Id(d)], copy)
    else d
  }

  lemma TouchedKeepsIdentity(d: SetData, key: string, pods: Lister, copy: Copier)
    requires KeepsIdentity(copy)
    ensures SameIdentity(Touched(d, key, pods, copy).labels, d.labels)
  {
    hide PodInfo, ContainerInfo;
    if Id(d) in pods {
      PodInfoFacts(d, key, pods[Id(d)], copy);
      ContainerInfoKeepsIdentity(d, key, pods[Id(d)], copy);
    }
  }

  /** A round changes the set it visits and no other. */
  lemma StepVisits(s: State, key: string, pods: Lister, copy: Copier)
    requires key in s.sets
    ensures Step(s, key, pods, copy).sets == s.sets[key := Touched(s.sets[key], key, pods, copy)]
  {
    hide PodInfo, ContainerInfo, WithPodStub, Stubber, WithStubs, HasType;
    var d := s.sets[key];
    if Id(d) in pods {
      var pod := pods[Id(d)];
      var podMs := PodInfo(d, key, pod, copy);
      StubsKeepSets(s.(sets := s.sets[key := podMs]), pod, |pod.containers|, Stubber(podMs, pod, copy));
      var d' := ContainerInfo(d, key, pod, copy);
      PodStubKeepsSets(s.(sets := s.sets[key := d']), PodKey(Get(d'.labels, NAMESPACE_NAME), Get(d'.labels, POD_NAME)),
          d', pod, copy);
    }
  }

  lemma PodStubIsStub(podKey: string, d: SetData, pod: PodSpec, copy: Copier, r: Resource)
    requires KeepsIdentity(copy)
    requires Get(d.labels, NAMESPACE_NAME) == pod.namespace && Get(d.labels, POD_NAME) == pod.name
    requires podKey == PodKey(pod.namespace, pod.name)
    ensures IsPodStub(podKey, PodInfo(PodStub(d.labels), podKey, pod, copy), pod, r)
  {
    hide PodInfo, MetricName;
    PodStubSays(d.labels);
    PodInfoFacts(PodStub(d.labels), podKey, pod, copy);
  }

  /** A container brings its pod, and the pod brings all the containers of its spec. */
  lemma PodStubGrows(s: State, podKey: string, d: SetData, pod: PodSpec, copy: Copier, r: Resource)
    requires KeepsIdentity(copy) && Admitted(pod)
    requires Get(d.labels, NAMESPACE_NAME) == pod.namespace && Get(d.labels, POD_NAME) == pod.name
    requires podKey == PodKey(pod.namespace, pod.name)
    ensures var s' := WithPodStub(s, podKey, d, pod, copy);
            && Grown(s, s', pod, r)
            && (podKey in s.sets || podKey in s'.newMs)
            && (podKey in s.sets || podKey in s.newMs || Covered(s', pod, |pod.containers|))
  {
    hide PodInfo, PodStub, Stubber, ContainerKey, IsPodStub, IsContainerStub, PodKey, WithStubs;
    if podKey !in s.sets && podKey !in s.newMs {
      var podMs := PodInfo(PodStub(d.labels), podKey, pod, copy);
      var s1 := s.(newMs := s.newMs[podKey := podMs]);
      PodStubIsStub(podKey, d, pod, copy, r);
      StubberMakesStubs(podMs, pod, copy, r);
      StubsGrow(s1, pod, |pod.containers|, Stubber(podMs, pod, copy), r);
    }
  }

  /** What a round adds: stubs for the pod of the set it visits. */
  lemma StepGrows(s: State, key: string, pods: Lister, copy: Copier, r: Resource)
    requires key in s.sets && KeepsIdentity(copy) && Listed(pods) && Id(s.sets[key]) in pods
    ensures var s' := Step(s, key, pods, copy);
            var pod := pods[Id(s.sets[key])];
            && Grown(s, s', pod, r)
            && (HasType(s.sets[key], TYPE_POD) ==> Covered(s', pod, |pod.containers|))
  {
    hide PodInfo, ContainerInfo, WithPodStub, Stubber, WithStubs, HasType, Covered;
    var d := s.sets[key];
    var pod := pods[Id(d)];
    if HasType(d, TYPE_POD) {
      var podMs := PodInfo(d, key, pod, copy);
      StubberMakesStubs(podMs, pod, copy, r);
      StubsGrow(s.(sets := s.sets[key := podMs]), pod, |pod.containers|, Stubber(podMs, pod, copy), r);
    } else if HasType(d, TYPE_POD_CONTAINER) {
      var d' := ContainerInfo(d, key, pod, copy);
      ContainerInfoKeepsIdentity(d, key, pod, copy);
      PodStubGrows(s.(sets := s.sets[key := d']), PodKey(pod.namespace, pod.name), d', pod, copy, r);
    }
  }

  /** After a container is visited its pod is there, with its containers if it was not before. */
  lemma StepBringsPod(s: State, key: string, pods: Lister, copy: Copier, r: Resource)
    requires key in s.sets && KeepsIdentity(copy) && Listed(pods) && Id(s.sets[key]) in pods
    requires HasType(s.sets[key], TYPE_POD_CONTAINER)
    ensures var s' := Step(s, key, pods, copy);
            var pod := pods[Id(s.sets[key])];
            var podKey := PodKey(pod.namespace, pod.name);
            && (podKey in s.sets || podKey in s'.newMs)
            && (podKey in s.sets || podKey in s.newMs || Covered(s', pod, |pod.containers|))
  {
    hide PodInfo, ContainerInfo, WithPodStub, Stubber, WithStubs, Covered;
    var d := s.sets[key];
    var pod := pods[Id(d)];
    var d' := ContainerInfo(d, key, pod, copy);
    assert |TYPE_POD| != |TYPE_POD_CONTAINER|;
    ContainerInfoKeepsIdentity(d, key, pod, copy);
    PodStubGrows(s.(sets := s.sets[key := d']), PodKey(pod.namespace, pod.name), d', pod, copy, r);
  }

  // ----- Whole runs -----

  ghost predicate WellFiled(s: State) {
    Filed(s.sets) && Filed(s.newMs) && s.newMs.Keys !! s.sets.Keys
  }

  lemma StubIsFiled(k: string, d: SetData, pod: PodSpec, r: Resource)
    requires Admitted(pod) && StubFor(k, d, pod, r)
    ensures FiledUnder(k, d)
  {
    hide MetricName, Stated;
    if IsPodStub(k, d, pod, r) {
      assert k == KeyOf(Pod(pod.namespace, pod.name)) && Describes(d.labels, Pod(pod.namespace, pod.name));
    } else {
      var i: nat :| IsContainerStub(k, d, pod, i, r);
      var e := PodContainer(pod.namespace, pod.name, pod.containers[i].name);
      assert k == KeyOf(e) && Describes(d.labels, e);
    }
  }

  lemma SameIdentityFiled(k: string, d: SetData, d': SetData)
    requires FiledUnder(k, d) && SameIdentity(d'.labels, d.labels)
    ensures FiledUnder(k, d')
    ensures forall t :: HasType(d', t) <==> HasType(d, t)
    ensures Id(d') == Id(d)
    ensures forall ns, p :: IsContainerOf(d', ns, p) <==> IsContainerOf(d, ns, p)
  {
    var e :| WellNamed(e) && k == KeyOf(e) && Describes(d.labels, e);
    assert Describes(d'.labels, e);
  }

  lemma StepFiled(s: State, key: string, pods: Lister, copy: Copier)
    requires key in s.sets && KeepsIdentity(copy) && Listed(pods) && WellFiled(s)
    ensures WellFiled(Step(s, key, pods, copy))
  {
    hide Step, FiledUnder, Touched, StubFor, SameIdentity;
    var s' := Step(s, key, pods, copy);
    StepVisits(s, key, pods, copy);
    TouchedKeepsIdentity(s.sets[key], key, pods, copy);
    SameIdentityFiled(key, s.sets[key], Touched(s.sets[key], key, pods, copy));
    if Id(s.sets[key]) in pods {
      StepGrows(s, key, pods, copy, CpuRequest);
      forall k | k in s'.newMs && k !in s.newMs ensures FiledUnder(k, s'.newMs[k]) {
        StubIsFiled(k, s'.newMs[k], pods[Id(s.sets[key])], CpuRequest);
      }
    } else {
      StepSkips(s, key, pods, copy);
    }
  }

  lemma StepSkips(s: State, key: string, pods: Lister, copy: Copier)
    requires key in s.sets && Id(s.sets[key]) !in pods
    ensures Step(s, key, pods, copy) == s
  {}

  /** What a pod's own sets look like when the keys in done have been visited. */
  ghost predicate PodState(s: State, done: set<string>, pod: PodSpec, r: Resource) {
    var ns, p := pod.namespace, pod.name;
    var podKey := PodKey(ns, p);
    // Its scraped containers state r once visited, if the spec has them.
    && (forall k :: k in s.sets && IsContainerOf(s.sets[k], ns, p) ==>
          At(s.sets[k].values, MetricName(r)) == if k in done then Expected(pod, k, r) else None)
    // Its stubs state r.
    && (forall k :: k in s.newMs && IsContainerOf(s.newMs[k], ns, p) ==>
          Expected(pod, k, r).Some? && At(s.newMs[k].values, MetricName(r)) == Expected(pod, k, r))
    // The pod itself does not.
    && (podKey in s.sets ==> MetricName(r) !in s.sets[podKey].values)
    && (podKey in s.newMs ==> MetricName(r) !in s.newMs[podKey].values)
    // Whoever was visited brought the rest.
    && (podKey in s.newMs || (podKey in s.sets && podKey in done) ==> Covered(s, pod, |pod.containers|))
    && (forall k :: k in done && k in s.sets && IsContainerOf(s.sets[k], ns, p) ==>
        podKey in s.sets || podKey in s.newMs)
  }

  /** The visited set's share of PodState. */
  lemma VisitedStates(d: SetData, key: string, pods: Lister, copy: Copier, id: (string, string), r: Resource)
    requires KeepsIdentity(copy) && Listed(pods) && id in pods && FiledUnder(key, d)
    requires MetricName(r) !in d.values
    ensures var d' := Touched(d, key, pods, copy);
            && (IsContainerOf(d, id.0, id.1) ==> At(d'.values, MetricName(r)) == Expected(pods[id], key, r))
            && (HasType(d, TYPE_POD) ==> MetricName(r) !in d'.values)
  {
    hide MetricName, PodInfo, ContainerInfo, Expected, FiledUnder, KeepsIdentity;
    assert |TYPE_POD| != |TYPE_POD_CONTAINER|;
    if Id(d) in pods {
      PodInfoFacts(d, key, pods[Id(d)], copy);
      ContainerInfoStates(d, key, pods[Id(d)], copy, r);
    }
  }

  /** A new stub's share of PodState. */
  lemma StubStates(k: string, d: SetData, q: PodSpec, pod: PodSpec, pods: Lister, r: Resource)
    requires Listed(pods) && (q.namespace, q.name) in pods && pods[(q.namespace, q.name)] == q
    requires (pod.namespace, pod.name) in pods && pods[(pod.namespace, pod.name)] == pod
    requires StubFor(k, d, q, r)
    ensures IsContainerOf(d, pod.namespace, pod.name) ==>
      Expected(pod, k, r).Some? && At(d.values, MetricName(r)) == Expected(pod, k, r)
    ensures k == PodKey(pod.namespace, pod.name) ==> MetricName(r) !in d.values && q == pod
  {
    hide MetricName, Stated, PodKey, PodContainerKey;
    assert |TYPE_POD| != |TYPE_POD_CONTAINER|;
    if IsPodStub(k, d, q, r) {
      if k == PodKey(pod.namespace, pod.name) {
        PodKeysDiffer(q.namespace, q.name, pod.namespace, pod.name);
      }
    } else {
      var i: nat :| IsContainerStub(k, d, q, i, r);
      PodKeyIsNoContainerKey(pod.namespace, pod.name, q.namespace, q.name, q.containers[i].name);
      if q == pod {
        SpecAt(pod, |pod.containers|, i);
      }
    }
  }

  lemma CoveredStays(s: State, s': State, pod: PodSpec)
    requires Covered(s, pod, |pod.containers|)
    requires s'.sets.Keys == s.sets.Keys && s.newMs.Keys <= s'.newMs.Keys
    ensures Covered(s', pod, |pod.containers|)
  {}

  lemma StepSetStates(s: State, key: string, done: set<string>, pods: Lister, copy: Copier, id: (string, string),
        r: Resource)
    requires key in s.sets && key !in done && KeepsIdentity(copy) && Listed(pods) && id in pods && WellFiled(s)
    requires PodState(s, done, pods[id], r)
    ensures var s' := Step(s, key, pods, copy);
            && (forall k :: k in s'.sets && IsContainerOf(s'.sets[k], id.0, id.1) ==>
                  At(s'.sets[k].values, MetricName(r)) == if k in done + {key} then Expected(pods[id], k, r) else None)
            && (PodKey(id.0, id.1) in s'.sets ==> MetricName(r) !in s'.sets[PodKey(id.0, id.1)].values)
  {
    hide Step, FiledUnder, Touched, MetricName, Expected, PodKey, SameIdentity, IsContainerOf, Covered, KeepsIdentity;
    var d := s.sets[key];
    var d' := Touched(d, key, pods, copy);
    StepVisits(s, key, pods, copy);
    TouchedKeepsIdentity(d, key, pods, copy);
    SameIdentityFiled(key, d, d');
    if IsContainerOf(d, id.0, id.1) {
      VisitedStates(d, key, pods, copy, id, r);
    }
    if key == PodKey(id.0, id.1) {
      UnderPodKey(key, d, id.0, id.1);
      VisitedStates(d, key, pods, copy, id, r);
    }
  }

  lemma StepStubStates(s: State, key: string, done: set<string>, pods: Lister, copy: Copier, id: (string, string),
        r: Resource)
    requires key in s.sets && KeepsIdentity(copy) && Listed(pods) && id in pods && WellFiled(s)
    requires PodState(s, done, pods[id], r)
    ensures var s' := Step(s, key, pods, copy);
            && (forall k :: k in s'.newMs && IsContainerOf(s'.newMs[k], id.0, id.1) ==>
                  Expected(pods[id], k, r).Some? && At(s'.newMs[k].values, MetricName(r)) == Expected(pods[id], k, r))
            && (PodKey(id.0, id.1) in s'.newMs ==> MetricName(r) !in s'.newMs[PodKey(id.0, id.1)].values)
  {
    hide Step, FiledUnder, MetricName, Expected, PodKey, IsContainerOf, Covered, KeepsIdentity, StubFor;
    var s' := Step(s, key, pods, copy);
    if Id(s.sets[key]) in pods {
      var q := pods[Id(s.sets[key])];
      StepGrows(s, key, pods, copy, r);
      forall k | k in s'.newMs && k !in s.newMs
        ensures IsContainerOf(s'.newMs[k], id.0, id.1) ==>
          Expected(pods[id], k, r).Some? && At(s'.newMs[k].values, MetricName(r)) == Expected(pods[id], k, r)
        ensures k == PodKey(id.0, id.1) ==> MetricName(r) !in s'.newMs[k].values
      {
        StubStates(k, s'.newMs[k], q, pods[id], pods, r);
      }
    } else {
      StepSkips(s, key, pods, copy);
    }
  }

  lemma StepCovers(s: State, key: string, done: set<string>, pods: Lister, copy: Copier, id: (string, string),
        r: Resource)
    requires key in s.sets && KeepsIdentity(copy) && Listed(pods) && id in pods && WellFiled(s)
    requires PodState(s, done, pods[id], r)
    ensures var s' := Step(s, key, pods, copy);
            var podKey := PodKey(id.0, id.1);
            podKey in s'.newMs || (podKey in s'.sets && podKey in done + {key}) ==>
              Covered(s', pods[id], |pods[id].containers|)
  {
    hide Step, FiledUnder, MetricName, Expected, PodKey, IsContainerOf, Covered, KeepsIdentity, StubFor;
    var s' := Step(s, key, pods, copy);
    var podKey := PodKey(id.0, id.1);
    StepKeepsKeys(s, key, pods, copy);
    if Id(s.sets[key]) !in pods {
      StepSkips(s, key, pods, copy);
      if key == podKey {
        UnderPodKey(key, s.sets[key], id.0, id.1);
      }
    } else {
      var q := pods[Id(s.sets[key])];
      StepGrows(s, key, pods, copy, r);
      if podKey in s.newMs || (podKey in s.sets && podKey in done) {
        CoveredStays(s, s', pods[id]);
      } else if key == podKey {
        UnderPodKey(key, s.sets[key], id.0, id.1);
      } else if podKey in s'.newMs {
        StubStates(podKey, s'.newMs[podKey], q, pods[id], pods, r);
        PodStubNeedsContainer(s, key, pods, copy, r, podKey);
        StepBringsPod(s, key, pods, copy, r);
      }
    }
  }

  /** A pod stub only comes with a container. */
  lemma PodStubNeedsContainer(s: State, key: string, pods: Lister, copy: Copier, r: Resource, podKey: string)
    requires key in s.sets && KeepsIdentity(copy) && Listed(pods) && Id(s.sets[key]) in pods
    requires podKey == PodKey(pods[Id(s.sets[key])].namespace, pods[Id(s.sets[key])].name)
    requires podKey in Step(s, key, pods, copy).newMs && podKey !in s.newMs
    ensures HasType(s.sets[key], TYPE_POD_CONTAINER)
  {
    hide PodInfo, Stubber, ContainerInfo, WithPodStub, WithStubs, PodKey;
    var d := s.sets[key];
    var pod := pods[Id(d)];
    if HasType(d, TYPE_POD) {
      var podMs := PodInfo(d, key, pod, copy);
      StubsAreContainers(s.(sets := s.sets[key := podMs]), pod, |pod.containers|, Stubber(podMs, pod, copy), podKey);
      assert false;
    }
  }

  lemma {:induction false} StubsAreContainers(s: State, pod: PodSpec, n: nat, make: Maker, podKey: string)
    requires Admitted(pod) && n <= |pod.containers| && podKey == PodKey(pod.namespace, pod.name)
    ensures podKey in WithStubs(s, pod, n, make).newMs <==> podKey in s.newMs
  {
    hide PodKey, PodContainerKey;
    if n > 0 {
      StubsAreContainers(s, pod, n - 1, make, podKey);
      PodKeyIsNoContainerKey(pod.namespace, pod.name, pod.namespace, pod.name, pod.containers[n - 1].name);
    }
  }

  lemma StepKeepsPodState(s: State, key: string, done: set<string>, pods: Lister, copy: Copier, id: (string, string),
        r: Resource)
    requires key in s.sets && key !in done && KeepsIdentity(copy) && Listed(pods) && id in pods && WellFiled(s)
    requires PodState(s, done, pods[id], r)
    ensures PodState(Step(s, key, pods, copy), done + {key}, pods[id], r)
  {
    StepSetStates(s, key, done, pods, copy, id, r);
    StepStubStates(s, key, done, pods, copy, id, r);
    StepCovers(s, key, done, pods, copy, id, r);
    StepKeepsContainersPods(s, key, done, pods, copy, id, r);
    hide Step, MetricName, Expected, PodKey, IsContainerOf, Covered, KeepsIdentity, FiledUnder;
  }

  lemma StepKeepsContainersPods(s: State, key: string, done: set<string>, pods: Lister, copy: Copier, id: (string,
        string), r: Resource)
    requires key in s.sets && KeepsIdentity(copy) && Listed(pods) && id in pods && WellFiled(s)
    requires PodState(s, done, pods[id], r)
    ensures var s' := Step(s, key, pods, copy);
            var podKey := PodKey(id.0, id.1);
            forall k :: k in done + {key} && k in s'.sets && IsContainerOf(s'.sets[k], id.0, id.1) ==>
              podKey in s'.sets || podKey in s'.newMs
  {
    hide Step, FiledUnder, Touched, MetricName, Expected, PodKey, SameIdentity, Covered, KeepsIdentity, StubFor;
    var d := s.sets[key];
    StepVisits(s, key, pods, copy);
    TouchedKeepsIdentity(d, key, pods, copy);
    SameIdentityFiled(key, d, Touched(d, key, pods, copy));
    if Id(d) in pods {
      StepGrows(s, key, pods, copy, r);
      if IsContainerOf(d, id.0, id.1) {
        StepBringsPod(s, key, pods, copy, r);
      }
    } else {
      StepSkips(s, key, pods, copy);
    }
  }

  /** No scraped set of a pod or container carries the six metrics yet. */
  ghost predicate Unstated(v: View) {
    forall k, r :: k in v && (HasType(v[k], TYPE_POD) || HasType(v[k], TYPE_POD_CONTAINER)) ==>
      MetricName(r) !in v[k].values
  }

  lemma {:induction false} RunFiled(v: View, order: seq<string>, pods: Lister, copy: Copier)
    requires (forall k :: k in order ==> k in v) && Filed(v) && KeepsIdentity(copy) && Listed(pods)
    ensures WellFiled(Run(v, order, pods, copy))
  {
    if order != [] {
      var n := |order| - 1;
      assert forall k :: k in order[..n] ==> k in order;
      RunFiled(v, order[..n], pods, copy);
      StepFiled(Run(v, order[..n], pods, copy), order[n], pods, copy);
    }
  }

  lemma StartPodState(v: View, pods: Lister, id: (string, string), r: Resource)
    requires Filed(v) && Unstated(v) && Listed(pods) && id in pods
    ensures PodState(State(v, map[]), {}, pods[id], r)
  {
    hide MetricName, Expected, FiledUnder, Covered, PodKey;
    var podKey := PodKey(id.0, id.1);
    if podKey in v {
      UnderPodKey(podKey, v[podKey], id.0, id.1);
    }
  }

  lemma {:induction false} RunPodState(v: View, order: seq<string>, pods: Lister, copy: Copier, id: (string, string),
        r: Resource)
    requires (forall k :: k in order ==> k in v) && NoRepeats(order)
    requires Filed(v) && Unstated(v) && KeepsIdentity(copy) && Listed(pods) && id in pods
    ensures PodState(Run(v, order, pods, copy), Seen(order), pods[id], r)
  {
    hide PodState, Filed, KeepsIdentity, Listed, Unstated, Step;
    if order == [] {
      StartPodState(v, pods, id, r);
      assert Seen(order) == {};
    } else {
      var n := |order| - 1;
      assert forall k :: k in order[..n] ==> k in order;
      RunPodState(v, order[..n], pods, copy, id, r);
      RunFiled(v, order[..n], pods, copy);
      SeenNext(order);
      StepKeepsPodState(Run(v, order[..n], pods, copy), order[n], Seen(order[..n]), pods, copy, id, r);
    }
  }

  // ----- After the enricher -----

  /** The pod's sets after the enricher: exactly the spec's containers state r, each what it should. */
  ghost predicate PodCompleted(v: View, pod: PodSpec, r: Resource) {
    var podKey := PodKey(pod.namespace, pod.name);
    && podKey in v && MetricName(r) !in v[podKey].values
    && (forall i :: 0 <= i < |pod.containers| ==>
          ContainerKey(pod, i) in v && IsContainerOf(v[ContainerKey(pod, i)], pod.namespace, pod.name))
    && (forall k :: k in v && IsContainerOf(v[k], pod.namespace, pod.name) ==>
          At(v[k].values, MetricName(r)) == Expected(pod, k, r))
  }

  /** Something of the pod was scraped. */
  ghost predicate Scraped(v: View, ns: string, p: string) {
    PodKey(ns, p) in v || exists k :: k in v && IsContainerOf(v[k], ns, p)
  }

  lemma {:induction false} IdentitiesKept(v: View, order: seq<string>, pods: Lister, copy: Copier, k: string)
    requires (forall k :: k in order ==> k in v) && KeepsIdentity(copy) && k in v
    ensures SameIdentity(Run(v, order, pods, copy).sets[k].labels, v[k].labels)
  {
    if order != [] {
      hide Step, Touched, KeepsIdentity;
      var n := |order| - 1;
      assert forall k :: k in order[..n] ==> k in order;
      IdentitiesKept(v, order[..n], pods, copy, k);
      var s := Run(v, order[..n], pods, copy);
      StepVisits(s, order[n], pods, copy);
      TouchedKeepsIdentity(s.sets[order[n]], order[n], pods, copy);
    }
  }

  /** Every known pod of which anything was scraped is completed. */
  lemma EnrichedIsComplete(v: View, order: seq<string>, pods: Lister, copy: Copier, id: (string, string), r: Resource)
    requires IsOrder(order, v) && Filed(v) && Unstated(v) && KeepsIdentity(copy) && Listed(pods)
    requires id in pods && Scraped(v, id.0, id.1)
    ensures Filed(Enriched(v, order, pods, copy))
    ensures PodCompleted(Enriched(v, order, pods, copy), pods[id], r)
  {
    hide Run, KeepsIdentity, Unstated, PodState, PodCompleted, PodKey, Admitted, Scraped;
    var s := Run(v, order, pods, copy);
    RunFiled(v, order, pods, copy);
    RunPodState(v, order, pods, copy, id, r);
    assert Seen(order) == v.Keys;
    PodIsThere(v, order, pods, copy, id, r);
    Completed(s, v.Keys, pods[id], r);
  }

  lemma PodIsThere(v: View, order: seq<string>, pods: Lister, copy: Copier, id: (string, string), r: Resource)
    requires IsOrder(order, v) && KeepsIdentity(copy) && Listed(pods) && id in pods && Scraped(v, id.0, id.1)
    requires PodState(Run(v, order, pods, copy), v.Keys, pods[id], r)
    ensures var s := Run(v, order, pods, copy); PodKey(id.0, id.1) in s.sets || PodKey(id.0, id.1) in s.newMs
  {
    hide Run, KeepsIdentity, MetricName, Expected, Covered, PodKey;
    if PodKey(id.0, id.1) !in v {
      var k :| k in v && IsContainerOf(v[k], id.0, id.1);
      IdentitiesKept(v, order, pods, copy, k);
    }
  }

  lemma Completed(s: State, all: set<string>, pod: PodSpec, r: Resource)
    requires WellFiled(s) && s.sets.Keys == all && Admitted(pod) && PodState(s, all, pod, r)
    requires PodKey(pod.namespace, pod.name) in s.sets || PodKey(pod.namespace, pod.name) in s.newMs
    ensures PodCompleted(s.sets + s.newMs, pod, r)
  {
    hide MetricName, Expected, FiledUnder, PodKey, PodContainerKey;
    var v := s.sets + s.newMs;
    forall i | 0 <= i < |pod.containers|
      ensures ContainerKey(pod, i) in v && IsContainerOf(v[ContainerKey(pod, i)], pod.namespace, pod.name)
    {
      UnderContainerKey(ContainerKey(pod, i), v[ContainerKey(pod, i)], pod.namespace, pod.name, pod.containers[i].name);
    }
  }
}
