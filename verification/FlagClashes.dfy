/**
 * metrics/processors/pod_aggregator.go:78-81: the flags are filed under podKey + metricName, which two pairs
 * can share. This is exactly when a metric the pod came with is nevertheless added to.
 */
module FlagClashes {
  import opened Sums
  import opened Core
  import opened PodAggregation
  import Keys

  /** Nothing that is rolled up has a type that cannot be added. */
  ghost predicate AllSupported(v: View, skipped: set<string>) {
    forall k, pod, m :: Contributes(v, k, pod, m, skipped) ==> v[k].values[m].Supported()
  }

  lemma {:induction false} SupportedSucceeds(v: View, order: seq<string>, skipped: set<string>)
    requires NoRepeats(order) && (forall k :: k in order ==> k in v) && Separated(v) && AllSupported(v, skipped)
    ensures Run(v, order, skipped).Some?
  {
    if order != [] {
      var n := |order| - 1;
      var key := order[n];
      assert forall k :: k in order[..n] ==> k in order;
      SupportedSucceeds(v, order[..n], skipped);
      KindsKept(v, order[..n], skipped, key);
      if IsContainer(v[key]) {
        ContainersKept(v, order[..n], skipped, key);
        forall m | m in Rolled(v[key], skipped)
          ensures v[key].values[m].Supported()
        {
          assert Contributes(v, key, PodKeyOf(v[key]), m, skipped);
        }
      }
    }
  }

  /** Container k has a value that would be added to the pod's own m. */
  predicate Addend(v: View, k: string, pod: string, m: string, skipped: set<string>)
    requires Present(v, pod, m)
  {
    Contributes(v, k, pod, m, skipped) && v[k].values[m].valueType == v[pod].values[m].valueType
  }

  ghost function Addends(v: View, keys: set<string>, pod: string, m: string, skipped: set<string>): map<string, Amount>
    requires Present(v, pod, m)
  {
    map k | k in keys && Addend(v, k, pod, m, skipped) :: v[k].values[m].Reports()
  }

  /** The state still has the pod's own value. */
  ghost predicate HasOwn(v: View, s: State, pod: string, m: string)
    requires Present(v, pod, m)
  {
    m in s.PodValues(pod) && s.PodValues(pod)[m] == v[pod].values[m]
  }

  /** The flag is up, and the pod shows its own value and what the given containers added to it. */
  ghost predicate AddedTo(v: View, s: State, keys: set<string>, pod: string, m: string, skipped: set<string>)
    requires Present(v, pod, m)
  {
    var own, p := v[pod].values[m], s.PodValues(pod);
    && m in p && p[m].valueType == own.valueType && pod + m in s.flags
    && p[m].Shows(Sum(Addends(v, keys, pod, m, skipped)).Plus(own.Reports()))
  }

  lemma NothingAdded(v: View, s: State, pod: string, m: string, skipped: set<string>)
    requires Present(v, pod, m) && HasOwn(v, s, pod, m) && pod + m in s.flags
    ensures AddedTo(v, s, {}, pod, m, skipped)
  {
    assert Addends(v, {}, pod, m, skipped) == map[];
    v[pod].values[m].ShowsAfterNothing(Sum(Addends(v, {}, pod, m, skipped)));
  }

  /** With the flag up a round adds the visited container's value. */
  lemma OneMoreAdded(v: View, s: State, key: string, keys: set<string>, pod: string, m: string, skipped: set<string>)
    requires key in s.sets && s.newPods.Keys !! s.sets.Keys && Step(s, key, skipped).Some? && key !in keys
    requires Present(v, pod, m) && AddedTo(v, s, keys, pod, m, skipped) && AllSupported(v, skipped)
    requires Contributes(s.sets, key, pod, m, skipped) <==> Contributes(v, key, pod, m, skipped)
    requires Contributes(v, key, pod, m, skipped) ==> s.sets[key] == v[key]
    ensures AddedTo(v, Step(s, key, skipped).value, keys + {key}, pod, m, skipped)
  {
    hide Step, MetricValue.Shows;
    StepOnOneMetric(s, key, skipped, pod, m);
    StepOnFlags(s, key, skipped, pod + m);
    var w := Addends(v, keys, pod, m, skipped);
    if Addend(v, key, pod, m, skipped) {
      var x := v[key].values[m];
      assert Addends(v, keys + {key}, pod, m, skipped) == w[key := x.Reports()];
      SumInsert(w, key, x.Reports());
      s.PodValues(pod)[m].AddShowsMore(x, Sum(w), v[pod].values[m].Reports());
    } else {
      assert Addends(v, keys + {key}, pod, m, skipped) == w;
    }
  }

  /** Once the flag is up, all the containers that follow are counted on top of the pod's own value. */
  lemma {:induction false} ClashedMetricIsAddedTo(
      v: View, order: seq<string>, i: nat, pod: string, m: string, skipped: set<string>)
    requires i <= |order| && NoRepeats(order) && (forall k :: k in order ==> k in v)
    requires (forall k :: k in order[..i] ==> k in v)
    requires Separated(v) && AllSupported(v, skipped) && Present(v, pod, m)
    requires Run(v, order, skipped).Some? && Run(v, order[..i], skipped).Some?
    requires HasOwn(v, Run(v, order[..i], skipped).value, pod, m) && pod + m in Run(v, order[..i], skipped).value.flags
    ensures AddedTo(v, Run(v, order, skipped).value, Seen(order[i..]), pod, m, skipped)
    decreases |order|
  {
    hide AddedTo, Step, AllSupported, Run, HasOwn, Contributes;
    if i == |order| {
      assert order[..i] == order && Seen(order[i..]) == {};
      NothingAdded(v, Run(v, order, skipped).value, pod, m, skipped);
    } else {
      var n := |order| - 1;
      RunPrefix(v, order, skipped);
      assert order[..n][..i] == order[..i];
      ClashedMetricIsAddedTo(v, order[..n], i, pod, m, skipped);
      SameContribution(v, order[..n], skipped, order[n], pod, m);
      assert order[i..] == order[..n][i..] + [order[n]];
      SeenNext(order[i..]);
      OneMoreAdded(v, Run(v, order[..n], skipped).value, order[n], Seen(order[..n][i..]), pod, m, skipped);
    }
  }

  /** Container c raises the flag of the pod's m for a pair of its own. */
  predicate Raises(v: View, c: string, pod': string, m': string, pod: string, m: string, skipped: set<string>) {
    Contributes(v, c, pod', m', skipped) && !Present(v, pod', m') && pod' + m' == pod + m
  }

  lemma RaiserIsElsewhere(v: View, c: string, pod': string, m': string,
      pod: string, m: string, skipped: set<string>)
    requires Raises(v, c, pod', m', pod, m, skipped) && Present(v, pod, m)
    ensures c in v && pod' != pod && !Contributes(v, c, pod, m, skipped)
  {
    if pod' == pod {
      Keys.PrefixCancels(pod, m', m);
    }
  }

  lemma RunOne(v: View, k: string, skipped: set<string>)
    requires k in v
    ensures Run(v, [k], skipped) == Step(Start(v), k, skipped)
  {
    hide Step;
    assert [k][..0] == [];
  }

  /** The raiser first: the flag is up and the pod's own value untouched. */
  lemma RaiserFirst(v: View, c: string, pod': string, m': string,
      pod: string, m: string, skipped: set<string>)
    requires Raises(v, c, pod', m', pod, m, skipped) && Present(v, pod, m) && Run(v, [c], skipped).Some?
    ensures HasOwn(v, Run(v, [c], skipped).value, pod, m) && pod + m in Run(v, [c], skipped).value.flags
  {
    hide Step;
    RaiserIsElsewhere(v, c, pod', m', pod, m, skipped);
    RunOne(v, c, skipped);
    StepOnOneMetric(Start(v), c, skipped, pod, m);
    StepOnFlags(Start(v), c, skipped, pod + m);
  }

  /** A container of the pod first and then the raiser: still untouched, and the flag is up. */
  lemma RaiserSecond(v: View, j: string, c: string, pod': string, m': string, pod: string, m: string,
        skipped: set<string>)
    requires Raises(v, c, pod', m', pod, m, skipped) && Present(v, pod, m) && Contributes(v, j, pod, m, skipped)
    requires Separated(v) && Run(v, [j, c], skipped).Some?
    ensures HasOwn(v, Run(v, [j, c], skipped).value, pod, m) && pod + m in Run(v, [j, c], skipped).value.flags
  {
    hide Step;
    RaiserIsElsewhere(v, c, pod', m', pod, m, skipped);
    RunOne(v, j, skipped);
    assert [j, c] == [j] + [c];
    RunNext(v, [j], c, skipped);
    var s := Run(v, [j], skipped).value;
    StepOnOneMetric(Start(v), j, skipped, pod, m);
    StepOnOneMetric(Start(v), j, skipped, pod', m');
    SameContribution(v, [j], skipped, c, pod', m');
    SameContribution(v, [j], skipped, c, pod, m);
    StepOnOneMetric(s, c, skipped, pod, m);
    StepOnFlags(s, c, skipped, pod + m);
  }

  /** The pod comes out with its own value of m. */
  ghost predicate Kept(v: View, order: seq<string>, pod: string, m: string, skipped: set<string>)
    requires Present(v, pod, m) && forall k :: k in order ==> k in v
  {
    Run(v, order, skipped).Some? && HasOwn(v, Run(v, order, skipped).value, pod, m)
  }

  ghost predicate KeptInEveryOrder(v: View, pod: string, m: string, skipped: set<string>)
    requires Present(v, pod, m)
  {
    forall order :: IsOrder(order, v) ==> Kept(v, order, pod, m, skipped)
  }

  /** Two orders that differ in whether j comes before the raiser cannot both keep the value, unless j adds nothing. */
  lemma KeptMeansNothingToAdd(v: View, j: string, pod: string, m: string, skipped: set<string>)
    requires Separated(v) && AllSupported(v, skipped) && Present(v, pod, m)
    requires FlagClash(v, pod, m, skipped) && Addend(v, j, pod, m, skipped)
    requires KeptInEveryOrder(v, pod, m, skipped)
    ensures v[j].values[m].Reports() == ZERO
  {
    hide Run, AddedTo, HasOwn, Present, Separated, AllSupported, IsOrder, Seen, Raises, FlagClash;
    var c, pod', m' := FindRaiser(v, pod, m, skipped);
    RaiserIsElsewhere(v, c, pod', m', pod, m, skipped);
    var rest := TwoOrders(v, c, j);
    var a, b := [c, j] + rest, [j, c] + rest;
    assert Kept(v, a, pod, m, skipped) && Kept(v, b, pod, m, skipped);
    AddedAfterFirst(v, a, c, pod', m', pod, m, skipped);
    AddedAfterSecond(v, b, j, c, pod', m', pod, m, skipped);
    RolledUpIsSupported(v, j, pod, m, skipped);
    BothShown(v, Run(v, a, skipped).value, Run(v, b, skipped).value, j, Seen(rest), Seen([j] + rest), pod, m, skipped);
  }

  lemma FindRaiser(v: View, pod: string, m: string, skipped: set<string>) returns (c: string, pod': string, m': string)
    requires FlagClash(v, pod, m, skipped)
    ensures Raises(v, c, pod', m', pod, m, skipped)
  {
    c, pod', m' :|
      && Contributes(v, c, pod', m', skipped)
      && !(pod' in v && m' in v[pod'].values)
      && pod' + m' == pod + m;
  }

  lemma RolledUpIsSupported(v: View, k: string, pod: string, m: string, skipped: set<string>)
    requires AllSupported(v, skipped) && Contributes(v, k, pod, m, skipped)
    ensures v[k].values[m].Supported()
  {}

  /** Two orders of the batch that differ only in which of c and j comes first. */
  lemma TwoOrders(v: View, c: string, j: string) returns (rest: seq<string>)
    requires c in v && j in v && c != j
    ensures var a, b := [c, j] + rest, [j, c] + rest;
            && IsOrder(a, v) && a[..1] == [c] && a[1..] == [j] + rest
            && IsOrder(b, v) && b[..2] == [j, c] && b[2..] == rest
    ensures (forall k :: k in [c, j] + rest ==> k in v) && forall k :: k in [j, c] + rest ==> k in v
    ensures j !in Seen(rest) && Seen([j] + rest) == Seen(rest) + {j}
  {
    hide IsOrder, NoRepeats;
    rest := SomeOrder(v.Keys - {c, j});
    PairFirst(v, c, j, rest);
    PairFirst(v, j, c, rest);
  }

  lemma PairFirst(v: View, a: string, b: string, rest: seq<string>)
    requires a in v && b in v && a != b && NoRepeats(rest) && forall k :: k in rest <==> k in v.Keys - {a, b}
    ensures IsOrder([a, b] + rest, v) && forall k :: k in [a, b] + rest ==> k in v
  {
    var order := [a, b] + rest;
    forall i, j | 0 <= i < j < |order|
      ensures order[i] != order[j]
    {
      if j >= 2 {
        assert order[j] == rest[j - 2] && rest[j - 2] in rest;
      }
    }
  }

  lemma AddedAfterFirst(
      v: View, order: seq<string>, c: string, pod': string, m': string,
      pod: string, m: string, skipped: set<string>)
    requires Separated(v) && AllSupported(v, skipped) && Present(v, pod, m) && Raises(v, c, pod', m', pod, m, skipped)
    requires IsOrder(order, v) && order[..1] == [c] && Run(v, order, skipped).Some?
    ensures AddedTo(v, Run(v, order, skipped).value, Seen(order[1..]), pod, m, skipped)
  {
    hide AllSupported, Run, AddedTo, HasOwn, Present, Separated;
    SupportedSucceeds(v, [c], skipped);
    RaiserFirst(v, c, pod', m', pod, m, skipped);
    ClashedMetricIsAddedTo(v, order, 1, pod, m, skipped);
  }

  lemma AddedAfterSecond(
      v: View, order: seq<string>, j: string, c: string, pod': string, m': string,
      pod: string, m: string, skipped: set<string>)
    requires Separated(v) && AllSupported(v, skipped) && Present(v, pod, m) && Raises(v, c, pod', m', pod, m, skipped)
    requires Contributes(v, j, pod, m, skipped) && j != c
    requires IsOrder(order, v) && order[..2] == [j, c] && Run(v, order, skipped).Some?
    ensures AddedTo(v, Run(v, order, skipped).value, Seen(order[2..]), pod, m, skipped)
  {
    hide AllSupported, Run, AddedTo, HasOwn, Present, Separated;
    SupportedSucceeds(v, [j, c], skipped);
    RaiserSecond(v, j, c, pod', m', pod, m, skipped);
    ClashedMetricIsAddedTo(v, order, 2, pod, m, skipped);
  }

  lemma BothShown(
      v: View, s: State, t: State, j: string, rest: set<string>, all: set<string>,
      pod: string, m: string, skipped: set<string>)
    requires Present(v, pod, m) && HasOwn(v, s, pod, m) && HasOwn(v, t, pod, m)
    requires AddedTo(v, s, all, pod, m, skipped) && AddedTo(v, t, rest, pod, m, skipped)
    requires all == rest + {j} && j !in rest && Addend(v, j, pod, m, skipped) && v[j].values[m].Supported()
    ensures v[j].values[m].Reports() == ZERO
  {
    var own, x := v[pod].values[m], v[j].values[m];
    var w := Addends(v, rest, pod, m, skipped);
    assert Addends(v, all, pod, m, skipped) == w[j := x.Reports()];
    SumInsert(w, j, x.Reports());
    ShownTwice(own, x, Sum(w));
  }

  lemma ShownTwice(own: MetricValue, x: MetricValue, a: Amount)
    requires own.valueType == x.valueType && x.Supported()
    requires own.Shows(a.Plus(own.Reports())) && own.Shows(x.Reports().Plus(a).Plus(own.Reports()))
    ensures x.Reports() == ZERO
  {
    hide Wrap64;
    if own.valueType.ValueInt64? {
      var n, i := own.intValue, x.intValue;
      Same64Symmetric(n, a.i + n);
      Same64Transitive(a.i + n, n, i + a.i + n);
      Same64Reflexive(-(a.i + n));
      Same64Sum(a.i + n, -(a.i + n), i + a.i + n, -(a.i + n));
      Same64Symmetric(0, i);
      Same64InRange(i, 0);
    }
  }

  lemma AddNothing(p: MetricValue, x: MetricValue)
    requires p.valueType == x.valueType && x.Reports() == ZERO
    ensures p.Add(x) == p
  {
    hide Wrap64;
  }

  /** Values that report nothing do no harm in any order. */
  lemma {:induction false} NothingToAddKeeps(v: View, order: seq<string>, pod: string, m: string, skipped: set<string>)
    requires NoRepeats(order) && (forall k :: k in order ==> k in v) && Separated(v) && Run(v, order, skipped).Some?
    requires Present(v, pod, m) && forall k :: Addend(v, k, pod, m, skipped) ==> v[k].values[m].Reports() == ZERO
    ensures HasOwn(v, Run(v, order, skipped).value, pod, m)
  {
    hide Step;
    if order != [] {
      var n := |order| - 1;
      RunPrefix(v, order, skipped);
      NothingToAddKeeps(v, order[..n], pod, m, skipped);
      SameContribution(v, order[..n], skipped, order[n], pod, m);
      StepOnOneMetric(Run(v, order[..n], skipped).value, order[n], skipped, pod, m);
      if Addend(v, order[n], pod, m, skipped) {
        AddNothing(v[pod].values[m], v[order[n]].values[m]);
      }
    }
  }

  /**
   * A metric the pod came with is kept in every order if and only if no other pair raises its flag or no
   * container of the pod has anything but zero to add.
   */
  lemma KeptExactlyWhen(v: View, pod: string, m: string, skipped: set<string>)
    requires Separated(v) && AllSupported(v, skipped) && Present(v, pod, m)
    ensures KeptInEveryOrder(v, pod, m, skipped) <==>
            !FlagClash(v, pod, m, skipped) ||
            forall k :: Addend(v, k, pod, m, skipped) ==> v[k].values[m].Reports() == ZERO
  {
    hide AllSupported, Run, FlagClash;
    if KeptInEveryOrder(v, pod, m, skipped) && FlagClash(v, pod, m, skipped) {
      forall k | Addend(v, k, pod, m, skipped)
        ensures v[k].values[m].Reports() == ZERO
      {
        KeptMeansNothingToAdd(v, k, pod, m, skipped);
      }
    }
    if !FlagClash(v, pod, m, skipped) ||
       forall k :: Addend(v, k, pod, m, skipped) ==> v[k].values[m].Reports() == ZERO {
      forall order | IsOrder(order, v)
        ensures Kept(v, order, pod, m, skipped)
      {
        SupportedSucceeds(v, order, skipped);
        if FlagClash(v, pod, m, skipped) {
          NothingToAddKeeps(v, order, pod, m, skipped);
        } else {
          PresentMetricIsKept(v, order, skipped, pod, m);
        }
      }
    }
  }

  // ----- Where it fails -----

  function ContainerSet(pod: string, m: string, n: int64): SetData {
    SetData(0, 0, 0, map[m := IntValue(n)], map[TYPE := TYPE_POD_CONTAINER, NAMESPACE_NAME := "n", POD_NAME := pod], [])
  }

  /** Pod "px" came with "m" and has a container reporting "m"; pod "p" has a container reporting "xm". */
  function ClashingBatch(): View {
    map[Keys.PodKey("n", "px") := SetData(0, 0, 0, map["m" := IntValue(1)], map[TYPE := TYPE_POD], []),
        "a" := ContainerSet("px", "m", 5),
        "b" := ContainerSet("p", "xm", 1)]
  }

  lemma ContainersOfBatch()
    ensures var v := ClashingBatch();
            && v.Keys == {Keys.PodKey("n", "px"), "a", "b"}
            && |Keys.PodKey("n", "px")| > 1 && |Keys.PodKey("n", "p")| > 1
            && !IsContainer(v[Keys.PodKey("n", "px")])
            && IsContainer(v["a"]) && PodKeyOf(v["a"]) == Keys.PodKey("n", "px")
            && IsContainer(v["b"]) && PodKeyOf(v["b"]) == Keys.PodKey("n", "p")
  {
    assert |Keys.PodKey("n", "px")| == 18 && |Keys.PodKey("n", "p")| == 17;
    assert |TYPE_POD| == 3 && |TYPE_POD_CONTAINER| == 13;
    assert |TYPE| == 4 && |NAMESPACE_NAME| == 14 && |POD_NAME| == 8;
  }

  lemma SameFlag()
    ensures Keys.PodKey("n", "p") + "xm" == Keys.PodKey("n", "px") + "m"
  {
    assert "xm" == "x" + "m" && "px" == "p" + "x";
    assert Keys.PodKey("n", "px") == Keys.PodKey("n", "p") + "x";
    assert Keys.PodKey("n", "p") + ("x" + "m") == Keys.PodKey("n", "p") + "x" + "m";
  }

  /** A clash can happen, and then the metric the pod came with is not kept in every order. */
  lemma ClashCanHappen()
    ensures var v, pod := ClashingBatch(), Keys.PodKey("n", "px");
            && Separated(v) && AllSupported(v, {}) && Present(v, pod, "m") && FlagClash(v, pod, "m", {})
            && !KeptInEveryOrder(v, pod, "m", {})
  {
    hide KeptInEveryOrder, IsContainer, PodKeyOf, Keys.PodKey;
    var v, pod, other := ClashingBatch(), Keys.PodKey("n", "px"), Keys.PodKey("n", "p");
    ContainersOfBatch();
    SameFlag();
    assert Raises(v, "b", other, "xm", pod, "m", {});
    assert Addend(v, "a", pod, "m", {}) && v["a"].values["m"].Reports() != ZERO;
    KeptExactlyWhen(v, pod, "m", {});
  }
}
