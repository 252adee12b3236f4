/**
 * metrics/processors/helper.go:43: aggregate copies the first value whole, so the metric type and the field that is
 * not added come from whichever set the map order brings first. This is exactly when that shows.
 */
module RollupOrder {
  import opened Core
  import opened Rollup
  import Conservation
  import Keys

  /** Metric m of target t in a result. */
  function ValueOf(r: View, t: string, m: string): Option<MetricValue> {
    if t in r then At(r[t].values, m) else None
  }

  /** What the target has of m after an order, if the run succeeds. */
  ghost predicate Result(roll: Roll, v: View, order: seq<string>, names: seq<string>, t: string, m: string,
        x: Option<MetricValue>) {
    IsOrder(order, v) && Rolled(roll, v, order, names).Some? && x == ValueOf(Rolled(roll, v, order, names).value, t, m)
  }

  lemma ResultIsRun(roll: Roll, v: View, order: seq<string>, names: seq<string>, t: string, m: string)
    requires IsOrder(order, v) && Available(roll, v, t) && Run(roll, v, order, names).Some?
    ensures Rolled(roll, v, order, names).Some?
    ensures ValueOf(Rolled(roll, v, order, names).value, t, m) == At(Run(roll, v, order, names).value.Values(t), m)
  {
    hide Run;
  }

  /** But for the amount, x is the prior value, or else one of those given. */
  ghost predicate AlikeOne(x: Option<MetricValue>, prior: Option<MetricValue>, given: map<string, MetricValue>) {
    x.Some? ==>
      if prior.Some? then x.value.Resembles(prior.value) else exists k :: k in given && x.value.Resembles(given[k])
  }

  lemma AddedAlike(x: Option<MetricValue>, y: MetricValue)
    ensures Added(x, y).Resembles(if x.Some? then x.value else y)
  {
    if x.Some? {
      x.value.AddResembles(y);
    }
  }

  lemma {:induction false} EndsAlikeOne(roll: Roll, v: View, order: seq<string>, names: seq<string>, t: string,
        m: string)
    requires NoRepeats(order) && (forall k :: k in order ==> k in v) && NoRepeats(names) && m in names
    requires Separated(roll, v) && Available(roll, v, t) && Run(roll, v, order, names).Some?
    ensures var x := At(Run(roll, v, order, names).value.Values(t), m);
            && AlikeOne(x, Prior(roll, v, t, m), Given(roll, v, Seen(order), t, m))
            && (Prior(roll, v, t, m).Some? ==> x.Some?)
  {
    hide Step, Added, MetricValue.Resembles;
    if order == [] {
      StartsAlike(roll, v, t, m);
    } else {
      var n := |order| - 1;
      RunPrefix(roll, v, order, names);
      EndsAlikeOne(roll, v, order[..n], names, t, m);
      var s := Run(roll, v, order[..n], names).value;
      SameContribution(roll, v, order[..n], names, order[n], t, m);
      TargetsHad(roll, v, order[..n], names, t);
      StepOnOneMetric(roll, s, order[n], names, t, m);
      GivenNext(roll, v, order, t, m);
      if Contributes(roll, v, order[n], t, m) {
        StaysAlike(At(s.Values(t), m), Prior(roll, v, t, m), Given(roll, v, Seen(order[..n]), t, m), order[n],
                   v[order[n]].values[m]);
      }
    }
  }

  lemma StartsAlike(roll: Roll, v: View, t: string, m: string)
    ensures var x := At(Start(roll, v).Values(t), m);
            Available(roll, v, t) ==>
              AlikeOne(x, Prior(roll, v, t, m), map[]) && (Prior(roll, v, t, m).Some? ==> x.Some?)
  {}

  lemma StaysAlike(x: Option<MetricValue>, prior: Option<MetricValue>, given: map<string, MetricValue>, key: string,
        y: MetricValue)
    requires AlikeOne(x, prior, given) && (prior.Some? ==> x.Some?) && key !in given
    ensures AlikeOne(Some(Added(x, y)), prior, given[key := y])
  {
    hide Added;
    AddedAlike(x, y);
    var more := given[key := y];
    if prior.None? {
      if x.Some? {
        var k :| k in given && x.value.Resembles(given[k]);
        assert k in more && more[k] == given[k];
      } else {
        assert key in more && more[key] == y;
      }
    }
  }

  /** A set that comes first leaves its mark: but for the amount, the target ends with its value. */
  lemma {:induction false} FirstLeavesItsMark(
      roll: Roll, v: View, order: seq<string>, names: seq<string>, t: string, m: string, j: string)
    requires NoRepeats(order) && (forall k :: k in order ==> k in v) && NoRepeats(names) && m in names
    requires Separated(roll, v) && Available(roll, v, t) && Run(roll, v, order, names).Some?
    requires order != [] && order[0] == j && Contributes(roll, v, j, t, m) && Prior(roll, v, t, m).None?
    ensures var x := At(Run(roll, v, order, names).value.Values(t), m); x.Some? && x.value.Resembles(v[j].values[m])
  {
    hide Step, Added, MetricValue.Resembles;
    var n := |order| - 1;
    RunPrefix(roll, v, order, names);
    var s := Run(roll, v, order[..n], names).value;
    SameContribution(roll, v, order[..n], names, order[n], t, m);
    TargetsHad(roll, v, order[..n], names, t);
    StepOnOneMetric(roll, s, order[n], names, t, m);
    AddedAlike(At(s.Values(t), m), v[j].values[m]);
    if n == 0 {
      NothingAtStart(roll, v, t, m);
    } else {
      FirstLeavesItsMark(roll, v, order[..n], names, t, m, j);
      if Contributes(roll, v, order[n], t, m) {
        AddedAlike(At(s.Values(t), m), v[order[n]].values[m]);
        StillAlike(Added(At(s.Values(t), m), v[order[n]].values[m]), At(s.Values(t), m).value, v[j].values[m]);
      }
    }
  }

  lemma NothingAtStart(roll: Roll, v: View, t: string, m: string)
    requires Prior(roll, v, t, m).None? && Available(roll, v, t)
    ensures At(Start(roll, v).Values(t), m).None?
  {}

  lemma StillAlike(a: MetricValue, b: MetricValue, c: MetricValue)
    requires a.Resembles(b) && b.Resembles(c)
    ensures a.Resembles(c)
  {}

  /** The target's value of m is the same in every order. */
  ghost predicate OrderFree(roll: Roll, v: View, names: seq<string>, t: string, m: string) {
    forall o, o', x, y :: Result(roll, v, o, names, t, m, x) && Result(roll, v, o', names, t, m, y) ==> x == y
  }

  /** There is a value to add to, or the values given differ in their amounts only. */
  ghost predicate AllAlike(roll: Roll, v: View, t: string, m: string) {
    var given := Given(roll, v, v.Keys, t, m);
    Prior(roll, v, t, m).Some? || forall j, k :: j in given && k in given ==> given[j].Resembles(given[k])
  }

  lemma AlikeMeansSame(roll: Roll, v: View, o: seq<string>, o': seq<string>, names: seq<string>, t: string, m: string,
                       x: Option<MetricValue>, y: Option<MetricValue>)
    requires NoRepeats(names) && m in names && Separated(roll, v) && Available(roll, v, t) && AllAlike(roll, v, t, m)
    requires Result(roll, v, o, names, t, m, x) && Result(roll, v, o', names, t, m, y)
    ensures x == y
  {
    hide Run, Given, AddsUp, MetricValue.Resembles, MetricValue.Reports;
    Conservation.DoneSeesAll(v, o);
    Conservation.DoneSeesAll(v, o');
    ResultIsRun(roll, v, o, names, t, m);
    ResultIsRun(roll, v, o', names, t, m);
    TargetIsSummed(roll, v, o, names, t, m);
    TargetIsSummed(roll, v, o', names, t, m);
    EndsAlikeOne(roll, v, o, names, t, m);
    EndsAlikeOne(roll, v, o', names, t, m);
    var prior, given := Prior(roll, v, t, m), Given(roll, v, v.Keys, t, m);
    Conservation.AddsUpToOneReport(x, y, prior, given);
    if x.Some? {
      AlikeEachOther(x.value, y.value, prior, given);
      x.value.SameIfAlike(y.value);
    }
  }

  lemma AlikeEachOther(x: MetricValue, y: MetricValue, prior: Option<MetricValue>, given: map<string, MetricValue>)
    requires AlikeOne(Some(x), prior, given) && AlikeOne(Some(y), prior, given)
    requires prior.Some? || forall j, k :: j in given && k in given ==> given[j].Resembles(given[k])
    ensures x.Resembles(y)
  {}

  /** With every order succeeding, two sets that are not alike leave different values when each comes first. */
  lemma SameMeansAlike(roll: Roll, v: View, names: seq<string>, t: string, m: string, j: string, k: string)
    requires NoRepeats(names) && m in names && Separated(roll, v) && Available(roll, v, t)
    requires AllAddable(roll, v, v.Keys, names)
    requires Prior(roll, v, t, m).None? && Contributes(roll, v, j, t, m) && Contributes(roll, v, k, t, m)
    requires OrderFree(roll, v, names, t, m)
    ensures v[j].values[m].Resembles(v[k].values[m])
  {
    hide Run, AllAddable, MetricValue.Resembles;
    var o, o' := OrderFrom(v.Keys, j), OrderFrom(v.Keys, k);
    Conservation.DoneSeesAll(v, o);
    Conservation.DoneSeesAll(v, o');
    SucceedsExactlyWhenAddable(roll, v, o, names);
    SucceedsExactlyWhenAddable(roll, v, o', names);
    FirstLeavesItsMark(roll, v, o, names, t, m, j);
    FirstLeavesItsMark(roll, v, o', names, t, m, k);
    ResultIsRun(roll, v, o, names, t, m);
    ResultIsRun(roll, v, o', names, t, m);
    var x, y := At(Run(roll, v, o, names).value.Values(t), m), At(Run(roll, v, o', names).value.Values(t), m);
    assert Result(roll, v, o, names, t, m, x) && Result(roll, v, o', names, t, m, y);
    BothAlike(x.value, v[j].values[m], v[k].values[m]);
  }

  lemma BothAlike(x: MetricValue, a: MetricValue, b: MetricValue)
    requires x.Resembles(a) && x.Resembles(b)
    ensures a.Resembles(b)
  {}

  /**
   * The order of a roll-up does not show in the target's value at all, metric type and unused field included, if
   * and only if the target had a value before or the values rolled up differ in their amounts only.
   */
  lemma OrderFreeExactlyWhenAlike(roll: Roll, v: View, names: seq<string>, t: string, m: string)
    requires NoRepeats(names) && m in names && Separated(roll, v) && Available(roll, v, t)
    requires AllAddable(roll, v, v.Keys, names)
    ensures OrderFree(roll, v, names, t, m) <==> AllAlike(roll, v, t, m)
  {
    hide Result, AllAddable, Separated, MetricValue.Resembles;
    if AllAlike(roll, v, t, m) {
      forall o, o', x, y | Result(roll, v, o, names, t, m, x) && Result(roll, v, o', names, t, m, y)
        ensures x == y
      {
        AlikeMeansSame(roll, v, o, o', names, t, m, x, y);
      }
    }
    if OrderFree(roll, v, names, t, m) && Prior(roll, v, t, m).None? {
      forall j, k | Contributes(roll, v, j, t, m) && Contributes(roll, v, k, t, m)
        ensures v[j].values[m].Resembles(v[k].values[m])
      {
        SameMeansAlike(roll, v, names, t, m, j, k);
      }
    }
  }

  /** Where it shows: two pods of a namespace report a metric, one as a gauge and one as a counter. */
  lemma FirstTypeShows()
    ensures var v := TwoPods();
            && Separated(ByNamespace, v) && AllAddable(ByNamespace, v, v.Keys, ["m"])
            && !OrderFree(ByNamespace, v, ["m"], Keys.NamespaceKey("n"), "m")
  {
    var v := TwoPods();
    var t := Keys.NamespaceKey("n");
    assert t[0] == 'n';
    TwoPodsRollUp();
    assert Contributes(ByNamespace, v, "a", t, "m") && Contributes(ByNamespace, v, "b", t, "m");
    OrderFreeExactlyWhenAlike(ByNamespace, v, ["m"], t, "m");
    var given := Given(ByNamespace, v, v.Keys, t, "m");
    assert !given["a"].Resembles(given["b"]);
  }

  function TwoPods(): View {
    var labels := map[TYPE := TYPE_POD, NAMESPACE_NAME := "n"];
    map["a" := SetData(0, 0, 0, map["m" := MetricValue(1, 0.0, MetricGauge, ValueInt64)], labels, []),
        "b" := SetData(0, 0, 0, map["m" := MetricValue(2, 0.0, MetricCumulative, ValueInt64)], labels, [])]
  }

  lemma TwoPodsRollUp()
    ensures var v := TwoPods();
            && (forall k :: k in v ==> TargetOf(ByNamespace, v[k]) == Some(Keys.NamespaceKey("n")))
            && Separated(ByNamespace, v) && AllAddable(ByNamespace, v, v.Keys, ["m"])
  {
    hide TargetOf, AllAddable, Keys.NamespaceKey;
    var v, t := TwoPods(), Keys.NamespaceKey("n");
    TargetOfPod(v["a"]);
    TargetOfPod(v["b"]);
    LongKey();
    OneTypeAddable(v, t);
  }

  lemma LongKey()
    ensures |Keys.NamespaceKey("n")| == 11
  {}

  lemma TargetOfPod(d: SetData)
    requires d.labels == map[TYPE := TYPE_POD, NAMESPACE_NAME := "n"]
    ensures TargetOf(ByNamespace, d) == Some(Keys.NamespaceKey("n"))
  {
    assert |TYPE| == 4 && |NAMESPACE_NAME| == 14;
  }

  lemma OneTypeAddable(v: View, t: string)
    requires t !in v && forall k :: k in v ==> TargetOf(ByNamespace, v[k]) == Some(t)
    requires forall k, m :: k in v && m in v[k].values ==> v[k].values[m].valueType == ValueInt64
    ensures AllAddable(ByNamespace, v, v.Keys, ["m"])
  {
    hide TargetOf;
    forall t', m | m in ["m"]
      ensures Addable(Prior(ByNamespace, v, t', m), Given(ByNamespace, v, v.Keys, t', m))
    {
      if t' != t {
        assert Given(ByNamespace, v, v.Keys, t', m) == map[];
      }
    }
  }
}
