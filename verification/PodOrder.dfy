/**
 * metrics/processors/pod_aggregator.go:79: a pod's metric starts as a copy of the first container's value, so the
 * metric type and the field that is not added come from whichever container the map order brings first. This is
 * exactly when that shows.
 */
module PodOrder {
  import opened Sums
  import opened Core
  import opened PodAggregation
  import Keys

  lemma MergedAlike(pod: map<string, MetricValue>, m: string, x: MetricValue, flagged: bool)
    ensures Merged(pod, m, x, flagged).Resembles(if m in pod then pod[m] else x)
  {
    if m in pod {
      pod[m].AddResembles(x);
    }
  }

  lemma StillAlike(a: MetricValue, b: MetricValue, c: MetricValue)
    requires a.Resembles(b) && b.Resembles(c)
    ensures a.Resembles(c)
  {}

  /** A container that comes first leaves its mark: but for the amount, the pod ends with its value. */
  lemma {:induction false} FirstLeavesItsMark(v: View, order: seq<string>, skipped: set<string>, pod: string,
        m: string, j: string)
    requires NoRepeats(order) && (forall k :: k in order ==> k in v) && Separated(v) && Run(v, order, skipped).Some?
    requires order != [] && order[0] == j && Contributes(v, j, pod, m, skipped) && !Present(v, pod, m)
    ensures var p := Run(v, order, skipped).value.PodValues(pod); m in p && p[m].Resembles(v[j].values[m])
  {
    hide Step, Merged, MetricValue.Resembles;
    var n := |order| - 1;
    RunPrefix(v, order, skipped);
    var s := Run(v, order[..n], skipped).value;
    SameContribution(v, order[..n], skipped, order[n], pod, m);
    StepOnOneMetric(s, order[n], skipped, pod, m);
    if n == 0 {
      MergedAlike(s.PodValues(pod), m, v[j].values[m], pod + m in s.flags);
    } else {
      FirstLeavesItsMark(v, order[..n], skipped, pod, m, j);
      if Contributes(v, order[n], pod, m, skipped) {
        var p, x := s.PodValues(pod), v[order[n]].values[m];
        MergedAlike(p, m, x, pod + m in s.flags);
        StillAlike(Merged(p, m, x, pod + m in s.flags), p[m], v[j].values[m]);
      }
    }
  }

  /** What the pod has of m after an order. */
  ghost predicate Result(v: View, order: seq<string>, skipped: set<string>, pod: string, m: string,
        x: Option<MetricValue>) {
    IsOrder(order, v) && Run(v, order, skipped).Some? && x == At(Run(v, order, skipped).value.PodValues(pod), m)
  }

  ghost predicate OrderFree(v: View, skipped: set<string>, pod: string, m: string) {
    forall o, o', x, y :: Result(v, o, skipped, pod, m, x) && Result(v, o', skipped, pod, m, y) ==> x == y
  }

  /** The values of the pod's containers differ in their amounts only. */
  ghost predicate AllAlike(v: View, skipped: set<string>, pod: string, m: string) {
    forall j, k :: Contributes(v, j, pod, m, skipped) && Contributes(v, k, pod, m, skipped) ==>
      v[j].values[m].Resembles(v[k].values[m])
  }

  lemma SameReport(x: MetricValue, y: MetricValue, a: Amount)
    requires x.valueType == y.valueType && x.Shows(a) && y.Shows(a)
    ensures x.Reports() == y.Reports()
  {
    hide Wrap64;
    x.ShownExactly(a);
    y.ShownExactly(a);
  }

  lemma AlikeEachOther(v: View, x: MetricValue, y: MetricValue, pod: string, m: string, skipped: set<string>)
    requires AlikeOne(v, x, pod, m, skipped) && AlikeOne(v, y, pod, m, skipped) && AllAlike(v, skipped, pod, m)
    ensures x.Resembles(y)
  {}

  lemma AlikeMeansSame(v: View, o: seq<string>, o': seq<string>, skipped: set<string>, pod: string, m: string,
                       x: Option<MetricValue>, y: Option<MetricValue>)
    requires Separated(v) && Consistent(v, pod, m, skipped) && !Present(v, pod, m) && AllAlike(v, skipped, pod, m)
    requires Result(v, o, skipped, pod, m, x) && Result(v, o', skipped, pod, m, y)
    ensures x == y
  {
    hide Run, Contributions, MetricValue.Resembles, MetricValue.Shows, MetricValue.Reports, Contributes;
    AbsentMetricIsSummed(v, o, skipped, pod, m);
    AbsentMetricIsSummed(v, o', skipped, pod, m);
    assert Seen(o) == v.Keys && Seen(o') == v.Keys;
    if x.Some? {
      AlikeEachOther(v, x.value, y.value, pod, m, skipped);
      SameType(x.value, y.value);
      SameReport(x.value, y.value, Sum(Contributions(v, v.Keys, pod, m, skipped)));
      x.value.SameIfAlike(y.value);
    }
  }

  lemma SameType(x: MetricValue, y: MetricValue)
    requires x.Resembles(y)
    ensures x.valueType == y.valueType
  {}

  lemma SameMeansAlike(v: View, skipped: set<string>, pod: string, m: string, j: string, k: string)
    requires Regular(v, skipped) && !Present(v, pod, m) && OrderFree(v, skipped, pod, m)
    requires Contributes(v, j, pod, m, skipped) && Contributes(v, k, pod, m, skipped)
    ensures v[j].values[m].Resembles(v[k].values[m])
  {
    hide Result, MetricValue.Resembles, Regular;
    var x := FirstGives(v, skipped, pod, m, j);
    var y := FirstGives(v, skipped, pod, m, k);
    assert x == y;
    BothAlike(x.value, v[j].values[m], v[k].values[m]);
  }

  /** Some order leaves the pod with a value like that of container j. */
  lemma FirstGives(v: View, skipped: set<string>, pod: string, m: string, j: string) returns (x: Option<MetricValue>)
    requires Regular(v, skipped) && !Present(v, pod, m) && Contributes(v, j, pod, m, skipped)
    ensures x.Some? && x.value.Resembles(v[j].values[m]) && Result(v, OrderFrom(v.Keys, j), skipped, pod, m, x)
  {
    hide Run, MetricValue.Resembles, Consistent, FlagClash;
    var o := OrderFrom(v.Keys, j);
    RegularSucceeds(v, o, skipped);
    FirstLeavesItsMark(v, o, skipped, pod, m, j);
    x := At(Run(v, o, skipped).value.PodValues(pod), m);
  }

  lemma BothAlike(x: MetricValue, a: MetricValue, b: MetricValue)
    requires x.Resembles(a) && x.Resembles(b)
    ensures a.Resembles(b)
  {}

  /**
   * The order does not show in an aggregated value at all if and only if the values rolled up differ in their amounts
   * only.
   */
  lemma OrderFreeExactlyWhenAlike(v: View, skipped: set<string>, pod: string, m: string)
    requires Regular(v, skipped) && !Present(v, pod, m)
    ensures OrderFree(v, skipped, pod, m) <==> AllAlike(v, skipped, pod, m)
  {
    hide Result, MetricValue.Resembles, Separated, Consistent, FlagClash;
    if AllAlike(v, skipped, pod, m) {
      forall o, o', x, y | Result(v, o, skipped, pod, m, x) && Result(v, o', skipped, pod, m, y)
        ensures x == y
      {
        AlikeMeansSame(v, o, o', skipped, pod, m, x, y);
      }
    }
    if OrderFree(v, skipped, pod, m) {
      forall j, k | Contributes(v, j, pod, m, skipped) && Contributes(v, k, pod, m, skipped)
        ensures v[j].values[m].Resembles(v[k].values[m])
      {
        SameMeansAlike(v, skipped, pod, m, j, k);
      }
    }
  }

  // ----- Where it shows -----

  function ContainerSet(value: MetricValue): SetData {
    SetData(0, 0, 0, map["m" := value], map[TYPE := TYPE_POD_CONTAINER, NAMESPACE_NAME := "n", POD_NAME := "p"], [])
  }

  /** Two containers of a pod report a metric, one as a gauge and one as a counter. */
  function TwoContainers(): View {
    map["a" := ContainerSet(MetricValue(1, 0.0, MetricGauge, ValueInt64)),
        "b" := ContainerSet(MetricValue(2, 0.0, MetricCumulative, ValueInt64))]
  }

  lemma ContainerOfPod(value: MetricValue)
    ensures var d := ContainerSet(value); IsContainer(d) && PodKeyOf(d) == Keys.PodKey("n", "p") && |PodKeyOf(d)| > 2
  {
    assert |TYPE| == 4 && |NAMESPACE_NAME| == 14 && |POD_NAME| == 8;
    assert |Keys.PodKey("n", "p")| == 17;
  }

  lemma FirstTypeShows()
    ensures var v, pod := TwoContainers(), Keys.PodKey("n", "p");
            Regular(v, {}) && !Present(v, pod, "m") && !OrderFree(v, {}, pod, "m")
  {
    hide OrderFree, IsContainer, PodKeyOf, Keys.PodKey;
    var v, pod := TwoContainers(), Keys.PodKey("n", "p");
    ContainerOfPod(v["a"].values["m"]);
    ContainerOfPod(v["b"].values["m"]);
    assert Contributes(v, "a", pod, "m", {}) && Contributes(v, "b", pod, "m", {});
    forall p, m
      ensures Consistent(v, p, m, {})
    {
      var t := ValueInt64;
      assert !t.ValueOther? && forall k :: Contributes(v, k, p, m, {}) ==> v[k].values[m].valueType == t;
    }
    forall p, m | Present(v, p, m)
      ensures !FlagClash(v, p, m, {})
    {
      assert |p + m| == 2;
      assert forall k, q, n :: Contributes(v, k, q, n, {}) ==> q == pod && |q + n| > 2;
    }
    OrderFreeExactlyWhenAlike(v, {}, pod, "m");
  }
}
