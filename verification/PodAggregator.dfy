/** metrics/processors/pod_aggregator.go: rolling container metrics up into their pod. */
module PodAggregation {
  import opened Sums
  import opened Core
  import Keys

  const LABELS_TO_POPULATE := [POD_ID, POD_NAME, NAMESPACE_NAME, NAMESPACE_ID, HOSTNAME, HOST_ID]

  /** A pod container that says which pod it is in. */
  predicate IsContainer(d: SetData) {
    HasType(d, TYPE_POD_CONTAINER) && POD_NAME in d.labels && NAMESPACE_NAME in d.labels
  }

  function PodKeyOf(d: SetData): string
    requires IsContainer(d)
  {
    Keys.PodKey(d.labels[NAMESPACE_NAME], d.labels[POD_NAME])
  }

  function Restricted(labels: map<string, string>, names: seq<string>): map<string, string> {
    map l | l in labels && l in names :: labels[l]
  }

  /** The labels of a pod set made up from one of its containers. */
  function PodLabels(labels: map<string, string>): map<string, string> {
    map[TYPE := TYPE_POD] + Restricted(labels, LABELS_TO_POPULATE)
  }

  function NewPod(labels: map<string, string>): SetData {
    SetData(0, 0, 0, map[], PodLabels(labels), [])
  }

  /** One run's state: the batch, the pods made up so far, and the requireAggregate flags. */
  datatype State = State(sets: View, newPods: View, flags: set<string>) {
    predicate HasPod(pod: string) {
      pod in sets || pod in newPods
    }

    function PodValues(pod: string): map<string, MetricValue> {
      if pod in sets then sets[pod].values
      else if pod in newPods then newPods[pod].values
      else map[]
    }
  }

  /** What one container value does to the pod's value of the same name. */
  function Merged(pod: map<string, MetricValue>, m: string, v: MetricValue, flagged: bool): MetricValue {
    if m !in pod then v
    else if flagged && pod[m].valueType == v.valueType then pod[m].Add(v)
    else pod[m]
  }

  /** The pod's values after the container values called names were added. */
  function Contribute(pod: map<string, MetricValue>, podKey: string, flags: set<string>,
                      c: map<string, MetricValue>, names: set<string>): map<string, MetricValue>
    requires names <= c.Keys
  {
    map m | m in pod.Keys + names :: if m in names then Merged(pod, m, c[m], podKey + m in flags) else pod[m]
  }

  function NewFlags(pod: map<string, MetricValue>, podKey: string, names: set<string>): set<string> {
    set m | m in names && m !in pod :: podKey + m
  }

  /** Some value of this container has a type the aggregator refuses to add. */
  predicate Refused(pod: map<string, MetricValue>, podKey: string, flags: set<string>,
                    c: map<string, MetricValue>, names: set<string>)
    requires names <= c.Keys
  {
    exists m :: m in names && m in pod && podKey + m in flags && pod[m].valueType == c[m].valueType && !c[m].Supported()
  }

  function Rolled(c: SetData, skipped: set<string>): set<string> {
    set m | m in c.values && m !in skipped
  }

  /** A pod set is made up the first time a container names a pod nobody has. */
  function WithPod(s: State, podKey: string, labels: map<string, string>): (s': State)
    ensures s'.HasPod(podKey) && s'.sets == s.sets && s'.flags == s.flags
  {
    if s.HasPod(podKey) then s else s.(newPods := s.newPods[podKey := NewPod(labels)])
  }

  /** Container c rolled into the pod. None: the type of some value is not supported. */
  function RollInto(s: State, podKey: string, c: SetData, skipped: set<string>): Option<State>
    requires s.HasPod(podKey)
  {
    var pod := s.PodValues(podKey);
    var names := Rolled(c, skipped);
    if Refused(pod, podKey, s.flags, c.values, names) then None
    else
      var pod' := Contribute(pod, podKey, s.flags, c.values, names);
      var flags' := s.flags + NewFlags(pod, podKey, names);
      if podKey in s.sets then
        Some(State(s.sets[podKey := s.sets[podKey].(values := pod')], s.newPods, flags'))
      else
        Some(State(s.sets, s.newPods[podKey := s.newPods[podKey].(values := pod')], flags'))
  }

  /** One round of the loop over the batch. */
  function Step(s: State, key: string, skipped: set<string>): Option<State>
    requires key in s.sets
  {
    var c := s.sets[key];
    if !IsContainer(c) then Some(s)
    else RollInto(WithPod(s, PodKeyOf(c), c.labels), PodKeyOf(c), c, skipped)
  }

  function Start(v: View): State {
    State(v, map[], {})
  }

  /** The loop over the keys of order, from the whole batch. */
  function Run(v: View, order: seq<string>, skipped: set<string>): (r: Option<State>)
    requires forall k :: k in order ==> k in v
    ensures r.Some? ==> r.value.sets.Keys == v.Keys && r.value.newPods.Keys !! v.Keys
  {
    if order == [] then Some(Start(v))
    else
      var n := |order| - 1;
      assert forall k :: k in order[..n] ==> k in order;
      var before := Run(v, order[..n], skipped);
      if before.None? then None else Step(before.value, order[n], skipped)
  }

  lemma RunNext(v: View, order: seq<string>, key: string, skipped: set<string>)
    requires (forall k :: k in order ==> k in v) && key in v
    ensures Run(v, order + [key], skipped) ==
            var r := Run(v, order, skipped); if r.None? then None else Step(r.value, key, skipped)
  {
    assert (order + [key])[..|order|] == order;
  }

  /** Process: the loop, then the made-up pods are filed in the batch. */
  function Aggregated(v: View, order: seq<string>, skipped: set<string>): Option<View>
    requires forall k :: k in order ==> k in v
  {
    var r := Run(v, order, skipped);
    if r.None? then None else Some(r.value.sets + r.value.newPods)
  }

  // ----- What it means -----

  predicate Contributes(v: View, key: string, pod: string, m: string, skipped: set<string>) {
    key in v && IsContainer(v[key]) && PodKeyOf(v[key]) == pod && m in v[key].values && m !in skipped
  }

  /** The amounts that the containers among keys report for metric m of this pod. */
  ghost function Contributions(v: View, keys: set<string>, pod: string, m: string,
        skipped: set<string>): map<string, Amount> {
    map k | k in keys && Contributes(v, k, pod, m, skipped) :: v[k].values[m].Reports()
  }

  /** No container is filed under a pod's key. */
  ghost predicate Separated(v: View) {
    forall c, d :: c in v && d in v && IsContainer(v[c]) && IsContainer(v[d]) ==> PodKeyOf(v[c]) != d
  }

  /** The containers of this pod agree on the type of m, and it can be added. */
  ghost predicate Consistent(v: View, pod: string, m: string, skipped: set<string>) {
    exists t: ValueType ::
      && !t.ValueOther?
      && forall k :: Contributes(v, k, pod, m, skipped) ==> v[k].values[m].valueType == t
  }

  /**
   * The flags are filed under podKey + metricName, which two pairs can share.  It does harm only
   * when m is already there for pod while the other pair is absent and rolled up.
   */
  ghost predicate FlagClash(v: View, pod: string, m: string, skipped: set<string>) {
    exists k, pod', m' ::
      && Contributes(v, k, pod', m', skipped)
      && !(pod' in v && m' in v[pod'].values)
      && pod' + m' == pod + m
  }

  /** Containers stay as they were. */
  lemma {:induction false} ContainersKept(v: View, order: seq<string>, skipped: set<string>, c: string)
    requires forall k :: k in order ==> k in v
    requires Separated(v) && Run(v, order, skipped).Some?
    requires c in v && (IsContainer(v[c]) || forall d :: d in v && IsContainer(v[d]) ==> PodKeyOf(v[d]) != c)
    ensures Run(v, order, skipped).value.sets[c] == v[c]
  {
    if order != [] {
      var n := |order| - 1;
      ContainersKept(v, order[..n], skipped, c);
      var s := Run(v, order[..n], skipped).value;
      KindsKept(v, order[..n], skipped, order[n]);
    }
  }

  /** No set changes anything but its values. */
  lemma {:induction false} KindsKept(v: View, order: seq<string>, skipped: set<string>, key: string)
    requires forall k :: k in order ==> k in v
    requires Run(v, order, skipped).Some? && key in v
    ensures var d := Run(v, order, skipped).value.sets[key]; d == v[key].(values := d.values)
  {
    if order != [] {
      KindsKept(v, order[..|order| - 1], skipped, key);
    }
  }

  /** How one round changes one metric of one pod. */
  lemma StepOnOneMetric(s: State, key: string, skipped: set<string>, pod: string, m: string)
    requires key in s.sets && s.newPods.Keys !! s.sets.Keys
    requires Step(s, key, skipped).Some?
    ensures var s' := Step(s, key, skipped).value;
            var p, p' := s.PodValues(pod), s'.PodValues(pod);
            if Contributes(s.sets, key, pod, m, skipped) then
              && m in p' && p'[m] == Merged(p, m, s.sets[key].values[m], pod + m in s.flags)
              && (m in p && pod + m in s.flags && p[m].valueType == s.sets[key].values[m].valueType ==>
                  p[m].Supported())
            else
              && (m in p' <==> m in p) && (m in p ==> p'[m] == p[m])
  {}

  lemma StepOnFlags(s: State, key: string, skipped: set<string>, f: string)
    requires key in s.sets && s.newPods.Keys !! s.sets.Keys
    requires Step(s, key, skipped).Some?
    ensures s.flags <= Step(s, key, skipped).value.flags
    ensures f in Step(s, key, skipped).value.flags && f !in s.flags ==>
      exists pod, m :: Contributes(s.sets, key, pod, m, skipped) && m !in s.PodValues(pod) && f == pod + m
    ensures forall pod, m :: Contributes(s.sets, key, pod, m, skipped) && m !in s.PodValues(pod) ==>
      pod + m in Step(s, key, skipped).value.flags
  {
    var c := s.sets[key];
    if IsContainer(c) && f in Step(s, key, skipped).value.flags && f !in s.flags {
      var podKey := PodKeyOf(c);
      assert f in NewFlags(s.PodValues(podKey), podKey, Rolled(c, skipped));
      var m :| m in Rolled(c, skipped) && m !in s.PodValues(podKey) && f == podKey + m;
      assert Contributes(s.sets, key, podKey, m, skipped);
    }
  }

  predicate Present(v: View, pod: string, m: string) {
    pod in v && m in v[pod].values
  }

  lemma RunPrefix(v: View, order: seq<string>, skipped: set<string>)
    requires order != [] && forall k :: k in order ==> k in v
    requires Run(v, order, skipped).Some?
    ensures var n := |order| - 1;
            && (forall k :: k in order[..n] ==> k in v)
            && Run(v, order[..n], skipped).Some?
            && Step(Run(v, order[..n], skipped).value, order[n], skipped) == Run(v, order, skipped)
  {}

  /** A container contributes to the running state what it contributed at the start. */
  lemma SameContribution(v: View, order: seq<string>, skipped: set<string>, key: string, pod: string, m: string)
    requires forall k :: k in order ==> k in v
    requires Separated(v) && Run(v, order, skipped).Some? && key in v
    ensures var s := Run(v, order, skipped).value;
            && (Contributes(s.sets, key, pod, m, skipped) <==> Contributes(v, key, pod, m, skipped))
            && (Contributes(v, key, pod, m, skipped) ==> s.sets[key] == v[key])
  {
    KindsKept(v, order, skipped, key);
    if IsContainer(v[key]) {
      ContainersKept(v, order, skipped, key);
    }
  }

  lemma ContributionsNext(v: View, order: seq<string>, pod: string, m: string, skipped: set<string>)
    requires order != [] && NoRepeats(order)
    ensures var n := |order| - 1;
            var before := Contributions(v, Seen(order[..n]), pod, m, skipped);
            && order[n] !in before
            && Contributions(v, Seen(order), pod, m, skipped) ==
               if Contributes(v, order[n], pod, m, skipped) then before[order[n] := v[order[n]].values[m].Reports()]
               else before
  {
    SeenNext(order);
  }

  /** The pod's value of m is the sum of what the containers seen so far report. */
  ghost predicate ShowsContributions(v: View, order: seq<string>, s: State, pod: string, m: string,
        skipped: set<string>) {
    var w := Contributions(v, Seen(order), pod, m, skipped);
    var p := s.PodValues(pod);
    && (m in p <==> w != map[])
    && (m in p ==> pod + m in s.flags && p[m].Shows(Sum(w)))
    && (m in p ==> forall k :: Contributes(v, k, pod, m, skipped) ==> p[m].valueType == v[k].values[m].valueType)
    && (m in p ==> AlikeOne(v, p[m], pod, m, skipped))
  }

  /** But for the amount, x is one of the values that the pod's containers have for m. */
  ghost predicate AlikeOne(v: View, x: MetricValue, pod: string, m: string, skipped: set<string>) {
    exists k :: Contributes(v, k, pod, m, skipped) && x.Resembles(v[k].values[m])
  }

  /** A metric the pod lacked becomes the sum over the pod's containers, in every order. */
  lemma {:induction false} AbsentMetricIsSummed(v: View, order: seq<string>, skipped: set<string>, pod: string,
        m: string)
    requires NoRepeats(order) && forall k :: k in order ==> k in v
    requires Separated(v) && Run(v, order, skipped).Some?
    requires !Present(v, pod, m) && Consistent(v, pod, m, skipped)
    ensures ShowsContributions(v, order, Run(v, order, skipped).value, pod, m, skipped)
  {
    if order == [] {
      assert Contributions(v, Seen(order), pod, m, skipped) == map[];
    } else {
      var n := |order| - 1;
      var key := order[n];
      RunPrefix(v, order, skipped);
      AbsentMetricIsSummed(v, order[..n], skipped, pod, m);
      var s := Run(v, order[..n], skipped).value;
      SameContribution(v, order[..n], skipped, key, pod, m);
      StepOnOneMetric(s, key, skipped, pod, m);
      StepOnFlags(s, key, skipped, pod + m);
      ContributionsNext(v, order, pod, m, skipped);
      if Contributes(v, key, pod, m, skipped) {
        OneMore(v, order, skipped, pod, m, s);
      }
    }
  }

  lemma OneMore(v: View, order: seq<string>, skipped: set<string>, pod: string, m: string, s: State)
    requires order != [] && NoRepeats(order)
    requires Consistent(v, pod, m, skipped)
    requires Contributes(v, order[|order| - 1], pod, m, skipped)
    requires ShowsContributions(v, order[..|order| - 1], s, pod, m, skipped)
    ensures var x := Merged(s.PodValues(pod), m, v[order[|order| - 1]].values[m], pod + m in s.flags);
            && x.Shows(Sum(Contributions(v, Seen(order), pod, m, skipped)))
            && (forall k :: Contributes(v, k, pod, m, skipped) ==> x.valueType == v[k].values[m].valueType)
            && AlikeOne(v, x, pod, m, skipped)
  {
    var n := |order| - 1;
    var x := v[order[n]].values[m];
    var w := Contributions(v, Seen(order[..n]), pod, m, skipped);
    ContributionsNext(v, order, pod, m, skipped);
    SumInsert(w, order[n], x.Reports());
    var p := s.PodValues(pod);
    if m in p {
      p[m].AddShowsSum(x, Sum(w));
      p[m].AddResembles(x);
    } else {
      x.ShowsOwnReport();
      assert Sum(w) == ZERO;
    }
  }

  lemma {:induction false} PresentStays(v: View, order: seq<string>, skipped: set<string>, pod: string, m: string)
    requires forall k :: k in order ==> k in v
    requires Run(v, order, skipped).Some? && Present(v, pod, m)
    ensures m in Run(v, order, skipped).value.PodValues(pod)
  {
    if order != [] {
      var n := |order| - 1;
      RunPrefix(v, order, skipped);
      PresentStays(v, order[..n], skipped, pod, m);
      StepOnOneMetric(Run(v, order[..n], skipped).value, order[n], skipped, pod, m);
    }
  }

  /** A flag is only ever raised for a pair that was absent and is rolled up. */
  lemma {:induction false} FlagsHaveAReason(v: View, order: seq<string>, skipped: set<string>, pod: string, m: string)
    requires forall k :: k in order ==> k in v
    requires Separated(v) && Run(v, order, skipped).Some?
    ensures pod + m in Run(v, order, skipped).value.flags ==> FlagClash(v, pod, m, skipped)
  {
    if order != [] {
      var n := |order| - 1;
      RunPrefix(v, order, skipped);
      FlagsHaveAReason(v, order[..n], skipped, pod, m);
      var s := Run(v, order[..n], skipped).value;
      StepOnFlags(s, order[n], skipped, pod + m);
      if pod + m in Run(v, order, skipped).value.flags && pod + m !in s.flags {
        var pod', m' :|
          Contributes(s.sets, order[n], pod', m', skipped) && m' !in s.PodValues(pod') && pod + m == pod' + m';
        SameContribution(v, order[..n], skipped, order[n], pod', m');
        if Present(v, pod', m') {
          PresentStays(v, order[..n], skipped, pod', m');
        }
      }
    }
  }

  /** A metric the pod came with is left alone, in every order, unless its flag clashes. */
  lemma {:induction false} PresentMetricIsKept(v: View, order: seq<string>, skipped: set<string>, pod: string,
        m: string)
    requires forall k :: k in order ==> k in v
    requires Separated(v) && Run(v, order, skipped).Some?
    requires Present(v, pod, m) && !FlagClash(v, pod, m, skipped)
    ensures m in Run(v, order, skipped).value.PodValues(pod)
    ensures Run(v, order, skipped).value.PodValues(pod)[m] == v[pod].values[m]
  {
    if order != [] {
      var n := |order| - 1;
      RunPrefix(v, order, skipped);
      PresentMetricIsKept(v, order[..n], skipped, pod, m);
      FlagsHaveAReason(v, order[..n], skipped, pod, m);
      StepOnOneMetric(Run(v, order[..n], skipped).value, order[n], skipped, pod, m);
    }
  }

  /** Every batch the aggregator can take in its stride. */
  ghost predicate Regular(v: View, skipped: set<string>) {
    && Separated(v)
    && (forall pod, m :: !Present(v, pod, m) ==> Consistent(v, pod, m, skipped))
    && (forall pod, m :: Present(v, pod, m) ==> !FlagClash(v, pod, m, skipped))
  }

  lemma {:induction false} RegularSucceeds(v: View, order: seq<string>, skipped: set<string>)
    requires NoRepeats(order) && (forall k :: k in order ==> k in v) && Regular(v, skipped)
    ensures Run(v, order, skipped).Some?
  {
    if order != [] {
      var n := |order| - 1;
      var key := order[n];
      assert forall k :: k in order[..n] ==> k in order;
      RegularSucceeds(v, order[..n], skipped);
      var s := Run(v, order[..n], skipped).value;
      KindsKept(v, order[..n], skipped, key);
      if IsContainer(v[key]) {
        ContainersKept(v, order[..n], skipped, key);
        var pod := PodKeyOf(v[key]);
        forall m | m in Rolled(v[key], skipped) && m in s.PodValues(pod) && pod + m in s.flags
          ensures v[key].values[m].Supported()
        {
          assert Contributes(v, key, pod, m, skipped);
          FlagsHaveAReason(v, order[..n], skipped, pod, m);
        }
      }
    }
  }

  /** The pods that some container names. */
  ghost function NamedPods(v: View, keys: set<string>): set<string> {
    set k | k in keys && k in v && IsContainer(v[k]) :: PodKeyOf(v[k])
  }

  lemma StepMakesUp(s: State, key: string, skipped: set<string>)
    requires key in s.sets && Step(s, key, skipped).Some?
    ensures Step(s, key, skipped).value.newPods.Keys ==
            s.newPods.Keys + if IsContainer(s.sets[key]) then {PodKeyOf(s.sets[key])} - s.sets.Keys else {}
  {}

  lemma {:induction false} PodsMadeUp(v: View, order: seq<string>, skipped: set<string>)
    requires NoRepeats(order) && forall k :: k in order ==> k in v
    requires Run(v, order, skipped).Some?
    ensures Run(v, order, skipped).value.newPods.Keys == NamedPods(v, Seen(order)) - v.Keys
  {
    if order != [] {
      var n := |order| - 1;
      RunPrefix(v, order, skipped);
      PodsMadeUp(v, order[..n], skipped);
      KindsKept(v, order[..n], skipped, order[n]);
      StepMakesUp(Run(v, order[..n], skipped).value, order[n], skipped);
      SeenNext(order);
      NamedPodsNext(v, Seen(order[..n]), order[n]);
    }
  }

  lemma NamedPodsNext(v: View, keys: set<string>, key: string)
    requires key in v
    ensures NamedPods(v, keys + {key}) == NamedPods(v, keys) + if IsContainer(v[key]) then {PodKeyOf(v[key])} else {}
  {}

  /** Metric m of this pod in the result r: kept if the pod came with it, else summed or absent. */
  ghost predicate MetricMeaning(v: View, r: View, pod: string, m: string, skipped: set<string>)
    requires pod in r
  {
    var w := Contributions(v, v.Keys, pod, m, skipped);
    if Present(v, pod, m) then m in r[pod].values && r[pod].values[m] == v[pod].values[m]
    else
      && (m in r[pod].values <==> w != map[])
      && (m in r[pod].values ==>
            && r[pod].values[m].Shows(Sum(w))
            && (forall k :: Contributes(v, k, pod, m, skipped) ==>
                  r[pod].values[m].valueType == v[k].values[m].valueType)
            && AlikeOne(v, r[pod].values[m], pod, m, skipped))
  }

  lemma MetricHasMeaning(v: View, order: seq<string>, skipped: set<string>, r: View, pod: string, m: string)
    requires IsOrder(order, v) && Regular(v, skipped)
    requires Aggregated(v, order, skipped) == Some(r) && pod in r
    ensures MetricMeaning(v, r, pod, m, skipped)
  {
    assert Seen(order) == v.Keys;
    if Present(v, pod, m) {
      PresentMetricIsKept(v, order, skipped, pod, m);
    } else {
      AbsentMetricIsSummed(v, order, skipped, pod, m);
    }
  }

  /** The exact meaning of pod aggregation, for every regular batch and every order. */
  lemma PodAggregationMeaning(v: View, order: seq<string>, skipped: set<string>)
    requires IsOrder(order, v) && Regular(v, skipped)
    ensures Aggregated(v, order, skipped).Some?
    ensures var r := Aggregated(v, order, skipped).value;
            && r.Keys == v.Keys + NamedPods(v, v.Keys)
            && (forall k :: k in v ==> r[k] == v[k].(values := r[k].values))
            && (forall pod :: pod in r && pod !in v ==> exists c :: MadeUpFrom(v, pod, r[pod], c))
            && (forall pod, m :: pod in r ==> MetricMeaning(v, r, pod, m, skipped))
  {
    RegularSucceeds(v, order, skipped);
    PodsMadeUp(v, order, skipped);
    assert Seen(order) == v.Keys;
    var r := Aggregated(v, order, skipped).value;
    forall k | k in v ensures r[k] == v[k].(values := r[k].values) {
      KindsKept(v, order, skipped, k);
    }
    forall pod | pod in r && pod !in v ensures exists c :: MadeUpFrom(v, pod, r[pod], c) {
      var c := NewPodsHaveAContainer(v, order, skipped, pod);
    }
    forall pod, m | pod in r ensures MetricMeaning(v, r, pod, m, skipped) {
      MetricHasMeaning(v, order, skipped, r, pod, m);
    }
  }

  /** Cumulative and delta standard metrics are never rolled up. */
  lemma SkippedNeverRolledUp(v: View, order: seq<string>, skipped: set<string>, pod: string, m: string)
    requires IsOrder(order, v) && Regular(v, skipped) && m in skipped
    ensures var r := Aggregated(v, order, skipped);
            r.Some? && (pod in r.value ==> (m in r.value[pod].values <==> Present(v, pod, m)))
  {
    PodAggregationMeaning(v, order, skipped);
    var r := Aggregated(v, order, skipped).value;
    assert Contributions(v, v.Keys, pod, m, skipped) == map[];
    assert pod in r ==> MetricMeaning(v, r, pod, m, skipped);
  }

  predicate Populated(l: string) {
    || l == "pod_id" || l == "pod_name" || l == "namespace_name"
    || l == "namespace_id" || l == "hostname" || l == "host_id"
  }

  /** Container c is why the pod was made up: apart from its values, all it has are labels of c. */
  ghost predicate MadeUpFrom(v: View, pod: string, d: SetData, c: string) {
    && c in v && IsContainer(v[c]) && PodKeyOf(v[c]) == pod
    && d == SetData(0, 0, 0, d.values, d.labels, []) && HasType(d, "pod")
    && forall l :: l != TYPE ==>
         && (l in d.labels <==> l in v[c].labels && Populated(l))
         && (l in d.labels ==> d.labels[l] == v[c].labels[l])
  }

  lemma NewPodIs(v: View, c: string, d: SetData)
    requires c in v && IsContainer(v[c]) && d == NewPod(v[c].labels).(values := d.values)
    ensures MadeUpFrom(v, PodKeyOf(v[c]), d, c)
  {
    hide Populated;
    forall l
      ensures (l in LABELS_TO_POPULATE <==> Populated(l)) && (Populated(l) ==> l != TYPE)
    {
      PopulatedLabels(l);
    }
  }

  lemma PopulatedLabels(l: string)
    ensures l in LABELS_TO_POPULATE <==> Populated(l)
    ensures Populated(l) ==> l != TYPE
  {
    assert |TYPE| == 4;
  }

  lemma {:induction false} NewPodsHaveAContainer(v: View, order: seq<string>, skipped: set<string>, pod: string)
        returns (c: string)
    requires forall k :: k in order ==> k in v
    requires Run(v, order, skipped).Some? && pod in Run(v, order, skipped).value.newPods
    ensures MadeUpFrom(v, pod, Run(v, order, skipped).value.newPods[pod], c)
  {
    hide PodLabels, Contribute, NewFlags, Refused, Rolled;
    var n := |order| - 1;
    RunPrefix(v, order, skipped);
    var s := Run(v, order[..n], skipped).value;
    if pod in s.newPods {
      c := NewPodsHaveAContainer(v, order[..n], skipped, pod);
    } else {
      KindsKept(v, order[..n], skipped, order[n]);
      c := order[n];
      NewPodIs(v, c, Run(v, order, skipped).value.newPods[pod]);
    }
  }
}
