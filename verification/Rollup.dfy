/**
 * metrics/processors/helper.go and the namespace, node and cluster aggregators.
 *
 * The three aggregators are one loop: each metric set of one type is added into a target set.
 * They differ in which sets they read, in the target's key and in where the target comes from.
 */
module Rollup {
  import opened Sums
  import opened Core
  import Keys

  datatype Roll = ByNamespace | ByNode | ByCluster

  /** The key of the set that d is added into, if d is added anywhere. */
  function TargetOf(roll: Roll, d: SetData): Option<string> {
    match roll
    case ByNamespace =>
      if HasType(d, TYPE_POD) && NAMESPACE_NAME in d.labels then Some(Keys.NamespaceKey(d.labels[NAMESPACE_NAME]))
      else None
    case ByNode =>
      if HasType(d, TYPE_POD) && Get(d.labels, NODENAME) != "" then Some(Keys.NodeKey(d.labels[NODENAME])) else None
    case ByCluster =>
      if HasType(d, TYPE_NAMESPACE) then Some(Keys.ClusterKey()) else None
  }

  function NamespaceSet(name: string, uid: string): SetData {
    SetData(0, 0, 0, map[], map[TYPE := TYPE_NAMESPACE, NAMESPACE_NAME := name, NAMESPACE_ID := uid], [])
  }

  function ClusterSet(): SetData {
    SetData(0, 0, 0, map[], map[TYPE := TYPE_CLUSTER], [])
  }

  // ----- aggregate (helper.go) -----

  predicate CanAdd(x: Option<MetricValue>, y: MetricValue) {
    x.Some? ==> x.value.valueType == y.valueType && y.Supported()
  }

  function Added(x: Option<MetricValue>, y: MetricValue): MetricValue {
    if x.None? then y else x.value.Add(y)
  }

  /** One metric of src added into dst. None: the types differ or cannot be added. */
  function AddOne(src: map<string, MetricValue>, dst: map<string, MetricValue>,
        m: string): Option<map<string, MetricValue>> {
    if m !in src then Some(dst)
    else if CanAdd(At(dst, m), src[m]) then Some(dst[m := Added(At(dst, m), src[m])])
    else None
  }

  function AddAll(src: map<string, MetricValue>, dst: map<string, MetricValue>,
        names: seq<string>): Option<map<string, MetricValue>> {
    if names == [] then Some(dst)
    else
      var r := AddAll(src, dst, names[..|names| - 1]);
      if r.None? then None else AddOne(src, r.value, names[|names| - 1])
  }

  lemma LastIsNew(s: seq<string>)
    requires s != [] && NoRepeats(s)
    ensures NoRepeats(s[..|s| - 1]) && s[|s| - 1] !in s[..|s| - 1]
    ensures forall x :: x in s <==> x in s[..|s| - 1] || x == s[|s| - 1]
  {
    assert s == s[..|s| - 1] + [s[|s| - 1]];
  }

  /** Each listed metric is added once, on its own; the others are not touched. */
  lemma {:induction false} AddAllMetric(src: map<string, MetricValue>, dst: map<string, MetricValue>,
        names: seq<string>, m: string)
    requires NoRepeats(names) && AddAll(src, dst, names).Some?
    ensures var r := AddAll(src, dst, names).value;
            if m in names && m in src then CanAdd(At(dst, m), src[m]) && At(r, m) == Some(Added(At(dst, m), src[m]))
            else At(r, m) == At(dst, m)
  {
    if names != [] {
      LastIsNew(names);
      AddAllMetric(src, dst, names[..|names| - 1], m);
    }
  }

  /** It succeeds exactly when each listed metric can be added. */
  lemma {:induction false} AddAllSucceeds(src: map<string, MetricValue>, dst: map<string, MetricValue>,
        names: seq<string>)
    requires NoRepeats(names)
    ensures AddAll(src, dst, names).Some? <==> forall m :: m in names && m in src ==> CanAdd(At(dst, m), src[m])
  {
    if names != [] {
      var n := |names| - 1;
      LastIsNew(names);
      AddAllSucceeds(src, dst, names[..n]);
      if AddAll(src, dst, names[..n]).Some? {
        AddAllMetric(src, dst, names[..n], names[n]);
      }
    }
  }

  // ----- Values that meet in one metric -----

  ghost function Reported(given: map<string, MetricValue>): map<string, Amount> {
    map k | k in given :: given[k].Reports()
  }

  /** What the given values report in all. */
  ghost function Total(given: map<string, MetricValue>): Amount {
    Sum(Reported(given))
  }

  /** What prior and the given values report in all. */
  ghost function TotalWith(prior: Option<MetricValue>, given: map<string, MetricValue>): Amount {
    if prior.Some? then Total(given).Plus(prior.value.Reports()) else Total(given)
  }

  predicate Several(prior: Option<MetricValue>, given: map<string, MetricValue>) {
    |given| + (if prior.Some? then 1 else 0) > 1
  }

  /** x is there when prior or one of the given values is, and has the type they all have. */
  ghost predicate OfOneType(x: Option<MetricValue>, prior: Option<MetricValue>, given: map<string, MetricValue>) {
    && (x.None? <==> prior.None? && given == map[])
    && (prior.Some? ==> x.value.valueType == prior.value.valueType)
    && (forall k :: k in given ==> x.value.valueType == given[k].valueType)
    && (Several(prior, given) ==> x.value.Supported())
  }

  /** x is what prior and the given values add up to. */
  ghost predicate AddsUp(x: Option<MetricValue>, prior: Option<MetricValue>, given: map<string, MetricValue>) {
    && OfOneType(x, prior, given)
    && (x.Some? ==> x.value.Shows(TotalWith(prior, given)))
  }

  /** The values that meet can all be added: one type, and a known one if there are two of them. */
  ghost predicate Addable(prior: Option<MetricValue>, given: map<string, MetricValue>) {
    && (forall j, k :: j in given && k in given ==> given[j].valueType == given[k].valueType)
    && (prior.Some? ==> forall k :: k in given ==> prior.value.valueType == given[k].valueType)
    && (Several(prior, given) ==> forall k :: k in given ==> given[k].Supported())
  }

  lemma NothingReported(given: map<string, MetricValue>)
    requires given == map[]
    ensures Total(given) == ZERO
  {
    assert Reported(given) == map[];
  }

  lemma NothingAddsUp(prior: Option<MetricValue>, given: map<string, MetricValue>)
    requires given == map[]
    ensures AddsUp(prior, prior, given)
  {
    NothingReported(given);
    if prior.Some? {
      prior.value.ShowsAfterNothing(Total(given));
    }
  }

  lemma TotalInsert(given: map<string, MetricValue>, k: string, y: MetricValue)
    requires k !in given
    ensures Total(given[k := y]) == y.Reports().Plus(Total(given))
  {
    assert Reported(given[k := y]) == Reported(given)[k := y.Reports()];
    SumInsert(Reported(given), k, y.Reports());
  }

  lemma OneMoreShows(x: Option<MetricValue>, prior: Option<MetricValue>, given: map<string, MetricValue>, k: string,
        y: MetricValue)
    requires k !in given && AddsUp(x, prior, given) && CanAdd(x, y)
    ensures Added(x, y).Shows(TotalWith(prior, given[k := y]))
    ensures Added(x, y).valueType == y.valueType
  {
    TotalInsert(given, k, y);
    if x.None? {
      NothingReported(given);
      y.ShowsWithNothing(Total(given));
    } else if prior.Some? {
      x.value.AddShowsMore(y, Total(given), prior.value.Reports());
    } else {
      x.value.AddShowsSum(y, Total(given));
    }
  }

  lemma OneMoreAddsUp(x: Option<MetricValue>, prior: Option<MetricValue>, given: map<string, MetricValue>, k: string,
        y: MetricValue)
    requires k !in given && AddsUp(x, prior, given) && CanAdd(x, y)
    ensures AddsUp(Some(Added(x, y)), prior, given[k := y])
  {
    OneMoreShows(x, prior, given, k, y);
    assert |given[k := y]| == |given| + 1;
  }

  lemma OneTypeMeansAddable(x: Option<MetricValue>, prior: Option<MetricValue>, given: map<string, MetricValue>)
    requires OfOneType(x, prior, given)
    ensures Addable(prior, given)
  {}

  lemma RefusedNotAddable(x: Option<MetricValue>, prior: Option<MetricValue>, given: map<string, MetricValue>,
        k: string, y: MetricValue)
    requires k !in given && OfOneType(x, prior, given) && !CanAdd(x, y)
    ensures !Addable(prior, given[k := y])
  {
    var given' := given[k := y];
    assert |given'| == |given| + 1;
    assert given'[k] == y;
    if prior.None? {
      var j :| j in given;
      assert given'[j] == given[j];
    }
  }

  lemma FewerAddable(prior: Option<MetricValue>, given: map<string, MetricValue>, k: string, y: MetricValue)
    requires k !in given && Addable(prior, given[k := y])
    ensures Addable(prior, given)
  {
    var given' := given[k := y];
    assert |given'| == |given| + 1;
    assert forall j :: j in given ==> given'[j] == given[j];
  }

  // ----- The loop -----

  /** The batch, and the target sets that are not filed in it yet. */
  datatype State = State(sets: View, made: View) {
    predicate Has(t: string) {
      t in made || t in sets
    }

    function Target(t: string): SetData
      requires Has(t)
    {
      if t in made then made[t] else sets[t]
    }

    function Values(t: string): map<string, MetricValue> {
      if Has(t) then Target(t).values else map[]
    }

    function With(t: string, values: map<string, MetricValue>): State
      requires Has(t)
    {
      if t in made then this.(made := made[t := made[t].(values := values)])
      else this.(sets := sets[t := sets[t].(values := values)])
    }
  }

  function Start(roll: Roll, v: View): State {
    State(v, if roll == ByCluster then map[Keys.ClusterKey() := ClusterSet()] else map[])
  }

  /** A namespace nobody has is made up; a node nobody has is skipped. */
  function Prepared(roll: Roll, s: State, t: string, d: SetData): State {
    if !s.Has(t) && roll == ByNamespace
    then s.(made := s.made[t := NamespaceSet(Get(d.labels, NAMESPACE_NAME), Get(d.labels, NAMESPACE_ID))])
    else s
  }

  function Step(roll: Roll, s: State, key: string, names: seq<string>): Option<State>
    requires key in s.sets
  {
    var d := s.sets[key];
    var t := TargetOf(roll, d);
    if t.None? then Some(s)
    else
      var s1 := Prepared(roll, s, t.value, d);
      if !s1.Has(t.value) then Some(s1)
      else
        var r := AddAll(d.values, s1.Values(t.value), names);
        if r.None? then None else Some(s1.With(t.value, r.value))
  }

  function Run(roll: Roll, v: View, order: seq<string>, names: seq<string>): (r: Option<State>)
    requires forall k :: k in order ==> k in v
    ensures r.Some? ==> r.value.sets.Keys == v.Keys
    ensures r.Some? && roll == ByCluster ==> r.value.made.Keys == {Keys.ClusterKey()}
    ensures r.Some? && roll == ByNode ==> r.value.made.Keys == {}
    ensures r.Some? && roll != ByCluster ==> r.value.made.Keys !! v.Keys
  {
    if order == [] then Some(Start(roll, v))
    else
      var n := |order| - 1;
      assert forall k :: k in order[..n] ==> k in order;
      var before := Run(roll, v, order[..n], names);
      if before.None? then None else Step(roll, before.value, order[n], names)
  }

  lemma RunNext(roll: Roll, v: View, order: seq<string>, key: string, names: seq<string>)
    requires (forall k :: k in order ==> k in v) && key in v
    ensures Run(roll, v, order + [key], names) ==
            var r := Run(roll, v, order, names); if r.None? then None else Step(roll, r.value, key, names)
  {
    assert (order + [key])[..|order|] == order;
  }

  lemma RunPrefix(roll: Roll, v: View, order: seq<string>, names: seq<string>)
    requires order != [] && NoRepeats(order) && forall k :: k in order ==> k in v
    ensures var n := |order| - 1;
            && NoRepeats(order[..n]) && (forall k :: k in order[..n] ==> k in v) && order[n] in v
            && (Run(roll, v, order, names).Some? ==> Run(roll, v, order[..n], names).Some?)
            && (Run(roll, v, order[..n], names).Some? ==>
                  Step(roll, Run(roll, v, order[..n], names).value, order[n], names) == Run(roll, v, order, names))
  {
    LastIsNew(order);
  }

  /** Process: the loop, then the sets made on the way are filed in the batch. */
  function Rolled(roll: Roll, v: View, order: seq<string>, names: seq<string>): Option<View>
    requires forall k :: k in order ==> k in v
  {
    var r := Run(roll, v, order, names);
    if r.None? then None else Some(r.value.sets + r.value.made)
  }

  // ----- What it means -----

  predicate Contributes(roll: Roll, v: View, key: string, t: string, m: string) {
    key in v && TargetOf(roll, v[key]) == Some(t) && m in v[key].values
  }

  /** The values of m that the sets among keys have for target t. */
  ghost function Given(roll: Roll, v: View, keys: set<string>, t: string, m: string): map<string, MetricValue> {
    map k | k in keys && Contributes(roll, v, k, t, m) :: v[k].values[m]
  }

  /** What the target had of m before the loop. */
  function Prior(roll: Roll, v: View, t: string, m: string): Option<MetricValue> {
    if roll != ByCluster && t in v then At(v[t].values, m) else None
  }

  /** There is, or will be, a set to add into. */
  predicate Available(roll: Roll, v: View, t: string) {
    (roll == ByNode ==> t in v) && (roll == ByCluster ==> t == Keys.ClusterKey())
  }

  /** No set that is read is also written to. */
  ghost predicate Separated(roll: Roll, v: View) {
    roll == ByCluster ||
    forall j, k :: j in v && k in v && TargetOf(roll, v[j]).Some? && TargetOf(roll, v[k]).Some? ==>
      TargetOf(roll, v[j]) != Some(k)
  }

  /** No set changes anything but its values. */
  lemma {:induction false} KindsKept(roll: Roll, v: View, order: seq<string>, names: seq<string>, key: string)
    requires NoRepeats(order) && (forall k :: k in order ==> k in v)
    requires Run(roll, v, order, names).Some? && key in v
    ensures var d := Run(roll, v, order, names).value.sets[key];
            && d == v[key].(values := d.values) && TargetOf(roll, d) == TargetOf(roll, v[key])
  {
    if order != [] {
      RunPrefix(roll, v, order, names);
      KindsKept(roll, v, order[..|order| - 1], names, key);
    }
  }

  /** A set that is not a target keeps its values too. */
  lemma {:induction false} SourcesKept(roll: Roll, v: View, order: seq<string>, names: seq<string>, key: string)
    requires NoRepeats(order) && (forall k :: k in order ==> k in v)
    requires Run(roll, v, order, names).Some? && key in v
    requires roll == ByCluster || forall j :: j in v ==> TargetOf(roll, v[j]) != Some(key)
    ensures Run(roll, v, order, names).value.sets[key] == v[key]
  {
    if order != [] {
      var n := |order| - 1;
      RunPrefix(roll, v, order, names);
      SourcesKept(roll, v, order[..n], names, key);
      KindsKept(roll, v, order[..n], names, order[n]);
    }
  }

  /** How one round changes one metric of one target. */
  lemma StepOnOneMetric(roll: Roll, s: State, key: string, names: seq<string>, t: string, m: string)
    requires key in s.sets && NoRepeats(names) && Step(roll, s, key, names).Some? && m in names
    requires s.Has(t) || roll == ByNamespace
    ensures var x, x' := At(s.Values(t), m), At(Step(roll, s, key, names).value.Values(t), m);
            if Contributes(roll, s.sets, key, t, m) then
              var y := s.sets[key].values[m]; CanAdd(x, y) && x' == Some(Added(x, y))
            else x' == x
  {
    var d := s.sets[key];
    if TargetOf(roll, d) == Some(t) {
      AddAllMetric(d.values, s.Values(t), names, m);
    }
  }

  lemma GivenNext(roll: Roll, v: View, order: seq<string>, t: string, m: string)
    requires order != [] && NoRepeats(order)
    ensures var n := |order| - 1;
            var before := Given(roll, v, Seen(order[..n]), t, m);
            && order[n] !in before
            && Given(roll, v, Seen(order), t, m) ==
               if Contributes(roll, v, order[n], t, m) then before[order[n] := v[order[n]].values[m]] else before
  {
    SeenNext(order);
  }

  lemma TargetsHad(roll: Roll, v: View, order: seq<string>, names: seq<string>, t: string)
    requires NoRepeats(order) && (forall k :: k in order ==> k in v)
    requires Available(roll, v, t) && Run(roll, v, order, names).Some?
    ensures Run(roll, v, order, names).value.Has(t) || roll == ByNamespace
  {}

  /** A set is read as it was at the start. */
  lemma SameContribution(roll: Roll, v: View, order: seq<string>, names: seq<string>, key: string, t: string, m: string)
    requires NoRepeats(order) && (forall k :: k in order ==> k in v) && key in v
    requires Separated(roll, v) && Run(roll, v, order, names).Some?
    ensures var s := Run(roll, v, order, names).value;
            && (Contributes(roll, s.sets, key, t, m) <==> Contributes(roll, v, key, t, m))
            && (TargetOf(roll, v[key]).Some? ==> s.sets[key] == v[key])
  {
    KindsKept(roll, v, order, names, key);
    if TargetOf(roll, v[key]).Some? {
      SourcesKept(roll, v, order, names, key);
    }
  }

  /** Every listed metric of every target ends at its prior value plus the sum, in every order. */
  lemma {:induction false} TargetIsSummed(roll: Roll, v: View, order: seq<string>, names: seq<string>, t: string,
        m: string)
    requires NoRepeats(order) && (forall k :: k in order ==> k in v)
    requires NoRepeats(names) && m in names
    requires Separated(roll, v) && Available(roll, v, t) && Run(roll, v, order, names).Some?
    ensures AddsUp(At(Run(roll, v, order, names).value.Values(t), m), Prior(roll, v, t, m),
                   Given(roll, v, Seen(order), t, m))
  {
    if order == [] {
      NothingAddsUp(Prior(roll, v, t, m), Given(roll, v, Seen(order), t, m));
    } else {
      var n := |order| - 1;
      var key := order[n];
      RunPrefix(roll, v, order, names);
      TargetIsSummed(roll, v, order[..n], names, t, m);
      var s := Run(roll, v, order[..n], names).value;
      SameContribution(roll, v, order[..n], names, key, t, m);
      TargetsHad(roll, v, order[..n], names, t);
      StepOnOneMetric(roll, s, key, names, t, m);
      GivenNext(roll, v, order, t, m);
      if Contributes(roll, v, key, t, m) {
        OneMoreAddsUp(At(s.Values(t), m), Prior(roll, v, t, m), Given(roll, v, Seen(order[..n]), t, m),
                      key, v[key].values[m]);
      }
    }
  }

  /** In every metric of every target, the values that meet can be added. */
  ghost predicate AllAddable(roll: Roll, v: View, keys: set<string>, names: seq<string>) {
    forall t, m :: m in names && Available(roll, v, t) ==> Addable(Prior(roll, v, t, m), Given(roll, v, keys, t, m))
  }

  /** A run succeeds, in any order, exactly when all the values that meet can be added. */
  lemma {:induction false} SucceedsExactlyWhenAddable(roll: Roll, v: View, order: seq<string>, names: seq<string>)
    requires NoRepeats(order) && (forall k :: k in order ==> k in v)
    requires NoRepeats(names) && Separated(roll, v)
    ensures Run(roll, v, order, names).Some? <==> AllAddable(roll, v, Seen(order), names)
  {
    if Run(roll, v, order, names).Some? {
      forall t, m | m in names && Available(roll, v, t)
        ensures Addable(Prior(roll, v, t, m), Given(roll, v, Seen(order), t, m))
      {
        TargetIsSummed(roll, v, order, names, t, m);
        OneTypeMeansAddable(At(Run(roll, v, order, names).value.Values(t), m), Prior(roll, v, t, m), Given(roll, v,
            Seen(order), t, m));
      }
    } else {
      RunPrefix(roll, v, order, names);
      var n := |order| - 1;
      SucceedsExactlyWhenAddable(roll, v, order[..n], names);
      var t, m := NotAddableHere(roll, v, order, names);
      assert !Addable(Prior(roll, v, t, m), Given(roll, v, Seen(order), t, m));
    }
  }

  /** Where a failed run went wrong. */
  lemma NotAddableHere(roll: Roll, v: View, order: seq<string>, names: seq<string>) returns (t: string, m: string)
    requires order != [] && NoRepeats(order) && (forall k :: k in order ==> k in v)
    requires NoRepeats(names) && Separated(roll, v)
    requires forall k :: k in order[..|order| - 1] ==> k in v
    requires Run(roll, v, order[..|order| - 1], names).Some? <==> AllAddable(roll, v, Seen(order[..|order| - 1]), names)
    requires Run(roll, v, order, names).None?
    ensures m in names && Available(roll, v, t) && !Addable(Prior(roll, v, t, m), Given(roll, v, Seen(order), t, m))
  {
    var n := |order| - 1;
    var key := order[n];
    if Run(roll, v, order[..n], names).None? {
      t, m :|
        m in names && Available(roll, v, t) && !Addable(Prior(roll, v, t, m), Given(roll, v, Seen(order[..n]), t, m));
      GivenNext(roll, v, order, t, m);
      var given := Given(roll, v, Seen(order[..n]), t, m);
      if Contributes(roll, v, key, t, m) && Addable(Prior(roll, v, t, m), given[key := v[key].values[m]]) {
        FewerAddable(Prior(roll, v, t, m), given, key, v[key].values[m]);
      }
    } else {
      t, m := RefusedHere(roll, v, order, names);
    }
  }

  lemma RefusedHere(roll: Roll, v: View, order: seq<string>, names: seq<string>) returns (t: string, m: string)
    requires order != [] && NoRepeats(order) && (forall k :: k in order ==> k in v)
    requires NoRepeats(names) && Separated(roll, v)
    requires (forall k :: k in order[..|order| - 1] ==> k in v) && Run(roll, v, order[..|order| - 1], names).Some?
    requires Run(roll, v, order, names).None?
    ensures m in names && Available(roll, v, t) && !Addable(Prior(roll, v, t, m), Given(roll, v, Seen(order), t, m))
  {
    var n := |order| - 1;
    var key := order[n];
    RunPrefix(roll, v, order, names);
    SameContribution(roll, v, order[..n], names, key, "", "");
    KindsKept(roll, v, order[..n], names, key);
    var s := Run(roll, v, order[..n], names).value;
    t := TargetOf(roll, v[key]).value;
    AddAllSucceeds(v[key].values, s.Values(t), names);
    m :| m in names && m in v[key].values && !CanAdd(At(s.Values(t), m), v[key].values[m]);
    TargetIsSummed(roll, v, order[..n], names, t, m);
    GivenNext(roll, v, order, t, m);
    RefusedNotAddable(At(s.Values(t), m), Prior(roll, v, t, m), Given(roll, v, Seen(order[..n]), t, m),
                      key, v[key].values[m]);
  }
}
