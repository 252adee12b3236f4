/** What the namespace, node and cluster aggregators conserve between them. */
module Conservation {
  import opened Sums
  import opened Core
  import opened Rollup
  import Keys

  // ----- Sums of values that wrapped -----

  /** Values of one type that show the given sums add up to a value that shows the sum of sums. */
  lemma {:induction false} SumOfShown(vals: map<string, MetricValue>, sums: map<string, Amount>, t: ValueType)
    requires vals.Keys == sums.Keys
    requires forall k :: k in vals ==> vals[k].valueType == t && vals[k].Shows(sums[k])
    ensures t.ValueInt64? ==> Same64(Total(vals).i, Sum(sums).i)
    ensures t.ValueFloat? ==> Total(vals).x == Sum(sums).x
    decreases |vals|
  {
    if vals == map[] {
      assert sums == map[];
      NothingReported(vals);
      Same64Reflexive(0);
    } else {
      var k :| k in vals;
      var vals', sums' := vals - {k}, sums - {k};
      SmallerWithout(vals, k);
      SumOfShown(vals', sums', t);
      SumWithout(sums, k);
      assert vals == vals'[k := vals[k]];
      TotalInsert(vals', k, vals[k]);
      if t.ValueInt64? {
        Same64Sum(vals[k].intValue, Total(vals').i, sums[k].i, Sum(sums').i);
      }
    }
  }

  lemma ShowsSumOfSums(x: MetricValue, vals: map<string, MetricValue>, sums: map<string, Amount>)
    requires vals.Keys == sums.Keys
    requires forall k :: k in vals ==> vals[k].valueType == x.valueType && vals[k].Shows(sums[k])
    requires x.Shows(Total(vals))
    ensures x.Shows(Sum(sums))
  {
    SumOfShown(vals, sums, x.valueType);
    if x.valueType.ValueInt64? {
      Same64Transitive(x.intValue, Total(vals).i, Sum(sums).i);
    }
  }

  // ----- After the namespace aggregator -----

  /** Nothing in the batch is a namespace yet. */
  ghost predicate NoNamespaces(v: View) {
    forall k :: k in v ==>
      !HasType(v[k], TYPE_NAMESPACE) && (TargetOf(ByNamespace, v[k]).Some? ==> TargetOf(ByNamespace, v[k]).value !in v)
  }

  ghost predicate Done(roll: Roll, v: View, order: seq<string>, names: seq<string>, r: View) {
    && IsOrder(order, v) && NoRepeats(names) && Rolled(roll, v, order, names) == Some(r)
  }

  lemma DoneSeesAll(v: View, order: seq<string>)
    requires IsOrder(order, v)
    ensures Seen(order) == v.Keys && NoRepeats(order)
  {}

  /** The sets made are namespaces, and each has a pod. */
  lemma {:induction false} MadeAreNamespaces(v: View, order: seq<string>, names: seq<string>)
    requires NoRepeats(order) && (forall k :: k in order ==> k in v)
    requires Run(ByNamespace, v, order, names).Some?
    ensures var s := Run(ByNamespace, v, order, names).value;
            forall t :: t in s.made ==> HasType(s.made[t], TYPE_NAMESPACE) && exists a :: t == Keys.NamespaceKey(a)
  {
    if order != [] {
      RunPrefix(ByNamespace, v, order, names);
      MadeAreNamespaces(v, order[..|order| - 1], names);
    }
  }

  lemma NamespaceKeyFacts(a: string, b: string)
    ensures Keys.NamespaceKey(a) != Keys.NodeKey(b)
    ensures Keys.NamespaceKey(a) != Keys.ClusterKey()
    ensures Keys.NodeKey(b) != Keys.ClusterKey()
  {
    assert Keys.NamespaceKey(a)[1] == 'a' && Keys.NodeKey(b)[1] == 'o' && Keys.ClusterKey()[1] == 'l';
  }

  /** After the namespace aggregator: what a namespace set shows of m. */
  lemma NamespaceSummed(v: View, order: seq<string>, names: seq<string>, r: View, t: string, m: string)
    requires Done(ByNamespace, v, order, names, r) && NoNamespaces(v) && m in names
    requires t in r && HasType(r[t], TYPE_NAMESPACE)
    ensures t !in v && exists a :: t == Keys.NamespaceKey(a)
    ensures AddsUp(At(r[t].values, m), None, Given(ByNamespace, v, v.Keys, t, m))
  {
    DoneSeesAll(v, order);
    MadeAreNamespaces(v, order, names);
    if t in v {
      KindsKept(ByNamespace, v, order, names, t);
    }
    TargetIsSummed(ByNamespace, v, order, names, t, m);
  }

  lemma NamespaceThere(v: View, order: seq<string>, names: seq<string>, r: View, k: string, t: string, m: string)
    requires Done(ByNamespace, v, order, names, r) && NoNamespaces(v) && m in names
    requires Contributes(ByNamespace, v, k, t, m)
    ensures t in r && HasType(r[t], TYPE_NAMESPACE) && m in r[t].values
  {
    DoneSeesAll(v, order);
    MadeAreNamespaces(v, order, names);
    TargetIsSummed(ByNamespace, v, order, names, t, m);
    assert k in Given(ByNamespace, v, v.Keys, t, m);
  }

  /** The node aggregator leaves every namespace as it is, and makes none. */
  lemma NodesLeaveNamespaces(v: View, order: seq<string>, names: seq<string>, r: View)
    requires Done(ByNode, v, order, names, r)
    requires forall t :: t in v && HasType(v[t], TYPE_NAMESPACE) ==> exists a :: t == Keys.NamespaceKey(a)
    ensures r.Keys == v.Keys
    ensures forall t :: t in v ==> (HasType(r[t], TYPE_NAMESPACE) <==> HasType(v[t], TYPE_NAMESPACE))
    ensures forall t :: t in v && HasType(v[t], TYPE_NAMESPACE) ==> r[t] == v[t]
  {
    DoneSeesAll(v, order);
    forall t | t in v ensures HasType(r[t], TYPE_NAMESPACE) <==> HasType(v[t], TYPE_NAMESPACE) {
      KindsKept(ByNode, v, order, names, t);
    }
    forall t | t in v && HasType(v[t], TYPE_NAMESPACE) ensures r[t] == v[t] {
      var a :| t == Keys.NamespaceKey(a);
      forall j | j in v ensures TargetOf(ByNode, v[j]) != Some(t) {
        NamespaceKeyFacts(a, Get(v[j].labels, NODENAME));
      }
      SourcesKept(ByNode, v, order, names, t);
    }
  }

  // ----- The cluster -----

  /** The values of m of all the pods that say their namespace. */
  ghost function PodValues(v: View, m: string): map<string, MetricValue> {
    map k | k in v && TargetOf(ByNamespace, v[k]).Some? && m in v[k].values :: v[k].values[m]
  }

  ghost function NamespaceOf(v: View, m: string): map<string, string> {
    map k | k in PodValues(v, m) :: TargetOf(ByNamespace, v[k]).value
  }

  /** given holds, for each namespace that has m, what the pods there add up to. */
  ghost predicate Summary(v: View, given: map<string, MetricValue>, m: string) {
    && (forall t :: t in given ==> AddsUp(Some(given[t]), None, Given(ByNamespace, v, v.Keys, t, m)))
    && (forall k, t :: Contributes(ByNamespace, v, k, t, m) ==> t in given)
  }

  lemma PodIsCovered(v: View, given: map<string, MetricValue>, k: string, m: string)
    requires Summary(v, given, m) && k in PodValues(v, m)
    ensures NamespaceOf(v, m)[k] in given
  {
    assert Contributes(ByNamespace, v, k, NamespaceOf(v, m)[k], m);
  }

  lemma NamespaceHasAPod(v: View, given: map<string, MetricValue>, t: string, m: string) returns (k: string)
    requires Summary(v, given, m) && t in given
    ensures k in PodValues(v, m) && v[k].values[m].valueType == given[t].valueType
  {
    k :| k in Given(ByNamespace, v, v.Keys, t, m);
  }

  lemma NamespacesCoverPods(v: View, given: map<string, MetricValue>, m: string)
    requires Summary(v, given, m)
    ensures forall k :: k in PodValues(v, m) ==> NamespaceOf(v, m)[k] in given
    ensures given == map[] <==> PodValues(v, m) == map[]
  {
    forall k | k in PodValues(v, m) ensures NamespaceOf(v, m)[k] in given {
      PodIsCovered(v, given, k, m);
    }
    if given != map[] {
      var t :| t in given;
      var k := NamespaceHasAPod(v, given, t, m);
    }
  }

  lemma FibreIsGiven(v: View, t: string, m: string)
    ensures Fibre(Reported(PodValues(v, m)), NamespaceOf(v, m), t) == Reported(Given(ByNamespace, v, v.Keys, t, m))
  {}

  lemma NamespaceShowsItsPods(v: View, given: map<string, MetricValue>, t: string, m: string)
    requires Summary(v, given, m) && t in given
    ensures given[t].Shows(Sum(Fibre(Reported(PodValues(v, m)), NamespaceOf(v, m), t)))
  {
    FibreIsGiven(v, t, m);
  }

  /** What the cluster is given of m when its namespaces show the sums of their pods. */
  lemma ClusterGivenSums(v: View, given: map<string, MetricValue>, m: string)
    requires Summary(v, given, m)
    ensures var sums := GroupSums(Reported(PodValues(v, m)), NamespaceOf(v, m), given.Keys);
            && Sum(sums) == Total(PodValues(v, m))
            && forall t :: t in given ==> given[t].Shows(sums[t])
  {
    NamespacesCoverPods(v, given, m);
    SumByGroups(Reported(PodValues(v, m)), NamespaceOf(v, m), given.Keys);
    forall t | t in given
      ensures given[t].Shows(Sum(Fibre(Reported(PodValues(v, m)), NamespaceOf(v, m), t)))
    {
      NamespaceShowsItsPods(v, given, t, m);
    }
  }

  /** All the given values have one type when the values they come from do. */
  lemma ClusterType(v: View, given: map<string, MetricValue>, x: MetricValue, m: string, k: string)
    requires Summary(v, given, m)
    requires forall t :: t in given ==> x.valueType == given[t].valueType
    requires k in PodValues(v, m)
    ensures x.valueType == v[k].values[m].valueType
  {
    var t := TargetOf(ByNamespace, v[k]).value;
    assert Contributes(ByNamespace, v, k, t, m);
    assert k in Given(ByNamespace, v, v.Keys, t, m);
  }

  /**
   * Conservation: after the namespace, node and cluster aggregators, in any orders, the cluster
   * shows of each metric the sum over all the pods that say their namespace, and has it exactly
   * when one of them does.
   */
  lemma ClusterConservesPods(
      v: View, o1: seq<string>, names: seq<string>, v1: View,
      o2: seq<string>, nodeNames: seq<string>, v2: View, o3: seq<string>, v3: View, m: string)
    requires NoNamespaces(v) && m in names
    requires Done(ByNamespace, v, o1, names, v1)
    requires Done(ByNode, v1, o2, nodeNames, v2)
    requires Done(ByCluster, v2, o3, names, v3)
    ensures Keys.ClusterKey() in v3
    ensures AddsUp(At(v3[Keys.ClusterKey()].values, m), None, PodValues(v, m))
  {
    var given := Given(ByCluster, v2, v2.Keys, Keys.ClusterKey(), m);
    var x := At(v3[Keys.ClusterKey()].values, m);
    DoneSeesAll(v2, o3);
    TargetIsSummed(ByCluster, v2, o3, names, Keys.ClusterKey(), m);
    assert AddsUp(x, None, given);
    NamespacesReachCluster(v, o1, names, v1, o2, nodeNames, v2, m);
    ClusterAddsUp(v, given, x, m);
  }

  lemma NamespacesReachCluster(
      v: View, o1: seq<string>, names: seq<string>, v1: View, o2: seq<string>,
      nodeNames: seq<string>, v2: View, m: string)
    requires NoNamespaces(v) && m in names
    requires Done(ByNamespace, v, o1, names, v1)
    requires Done(ByNode, v1, o2, nodeNames, v2)
    ensures var given := Given(ByCluster, v2, v2.Keys, Keys.ClusterKey(), m);
            Summary(v, given, m)
  {
    var given := Given(ByCluster, v2, v2.Keys, Keys.ClusterKey(), m);
    NamespacesKept(v, o1, names, v1, o2, nodeNames, v2, m);
    forall t | t in given ensures AddsUp(Some(given[t]), None, Given(ByNamespace, v, v.Keys, t, m)) {
      NamespaceSummed(v, o1, names, v1, t, m);
    }
    forall k, t | Contributes(ByNamespace, v, k, t, m) ensures t in given {
      NamespaceThere(v, o1, names, v1, k, t, m);
    }
  }

  /** The namespaces that reach the cluster are those the namespace aggregator left. */
  lemma NamespacesKept(
      v: View, o1: seq<string>, names: seq<string>, v1: View, o2: seq<string>,
      nodeNames: seq<string>, v2: View, m: string)
    requires NoNamespaces(v) && m in names
    requires Done(ByNamespace, v, o1, names, v1)
    requires Done(ByNode, v1, o2, nodeNames, v2)
    ensures v2.Keys == v1.Keys
    ensures forall t :: t in v1 ==> (HasType(v2[t], TYPE_NAMESPACE) <==> HasType(v1[t], TYPE_NAMESPACE))
    ensures forall t :: t in v1 && HasType(v1[t], TYPE_NAMESPACE) ==> v2[t] == v1[t]
  {
    forall t | t in v1 && HasType(v1[t], TYPE_NAMESPACE) ensures exists a :: t == Keys.NamespaceKey(a) {
      NamespaceSummed(v, o1, names, v1, t, m);
    }
    NodesLeaveNamespaces(v1, o2, nodeNames, v2);
  }

  lemma ClusterAddsUp(v: View, given: map<string, MetricValue>, x: Option<MetricValue>, m: string)
    requires Summary(v, given, m)
    requires AddsUp(x, None, given)
    ensures AddsUp(x, None, PodValues(v, m))
  {
    var pods := PodValues(v, m);
    NamespacesCoverPods(v, given, m);
    if x.Some? {
      forall k | k in pods ensures x.value.valueType == pods[k].valueType {
        ClusterType(v, given, x.value, m, k);
      }
      ClusterShows(v, given, x.value, m);
      if Several(None, pods) {
        SeveralAreSupported(v, given, x.value, m);
      }
    }
  }

  lemma ClusterShows(v: View, given: map<string, MetricValue>, x: MetricValue, m: string)
    requires Summary(v, given, m)
    requires AddsUp(Some(x), None, given)
    ensures x.Shows(Total(PodValues(v, m)))
  {
    ClusterGivenSums(v, given, m);
    var sums := GroupSums(Reported(PodValues(v, m)), NamespaceOf(v, m), given.Keys);
    ShowsSumOfSums(x, given, sums);
  }

  /** Two pods meet in one namespace or in the cluster, and either place checks the type. */
  lemma SeveralAreSupported(v: View, given: map<string, MetricValue>, x: MetricValue, m: string)
    requires Summary(v, given, m)
    requires AddsUp(Some(x), None, given)
    requires Several(None, PodValues(v, m))
    ensures x.Supported()
  {
    NamespacesCoverPods(v, given, m);
    if |given| == 1 {
      var t :| t in given;
      OnlyNamespace(v, given, t, m);
    }
  }

  lemma OnlyNamespace(v: View, given: map<string, MetricValue>, t: string, m: string)
    requires Summary(v, given, m) && t in given && |given| == 1
    ensures PodValues(v, m) == Given(ByNamespace, v, v.Keys, t, m)
  {
    SmallerWithout(given, t);
    assert given - {t} == map[];
    forall k | k in PodValues(v, m) ensures NamespaceOf(v, m)[k] == t {
      PodIsCovered(v, given, k, m);
      assert NamespaceOf(v, m)[k] !in given - {t};
    }
  }

  // ----- Nodes, order and success -----

  /** Each node ends at its prior value plus the sum of its pods. */
  lemma NodeGainsItsPods(v: View, order: seq<string>, names: seq<string>, r: View, node: string, m: string)
    requires Done(ByNode, v, order, names, r) && Separated(ByNode, v)
    requires node in v && m in names
    ensures r.Keys == v.Keys
    ensures AddsUp(At(r[node].values, m), At(v[node].values, m), Given(ByNode, v, v.Keys, node, m))
  {
    DoneSeesAll(v, order);
    TargetIsSummed(ByNode, v, order, names, node, m);
  }

  /** A set no pod names, or a metric not listed, is not touched by any of the three. */
  lemma {:induction false} RestKept(roll: Roll, v: View, order: seq<string>, names: seq<string>, key: string, m: string)
    requires NoRepeats(order) && (forall k :: k in order ==> k in v) && key in v
    requires NoRepeats(names) && m !in names && Run(roll, v, order, names).Some?
    ensures At(Run(roll, v, order, names).value.sets[key].values, m) == At(v[key].values, m)
  {
    if order != [] {
      var n := |order| - 1;
      RunPrefix(roll, v, order, names);
      RestKept(roll, v, order[..n], names, key, m);
      var s := Run(roll, v, order[..n], names).value;
      var d := s.sets[order[n]];
      var t := TargetOf(roll, d);
      if t == Some(key) && AddAll(d.values, s.Values(key), names).Some? {
        AddAllMetric(d.values, s.Values(key), names, m);
      }
    }
  }

  /** Values that add up from the same parts report the same. */
  lemma AddsUpToOneReport(x: Option<MetricValue>, y: Option<MetricValue>, prior: Option<MetricValue>,
        given: map<string, MetricValue>)
    requires AddsUp(x, prior, given) && AddsUp(y, prior, given)
    ensures x.Some? <==> y.Some?
    ensures x.Some? ==> x.value.valueType == y.value.valueType && x.value.Reports() == y.value.Reports()
  {
    if x.Some? {
      if prior.None? {
        var k :| k in given;
      }
      x.value.ShownExactly(TotalWith(prior, given));
      y.value.ShownExactly(TotalWith(prior, given));
    }
  }

  /** The order in which the batch is gone through does not show. */
  lemma OrderDoesNotShow(roll: Roll, v: View, o: seq<string>, o': seq<string>, names: seq<string>, r: View, r': View,
        t: string, m: string)
    requires Done(roll, v, o, names, r) && Done(roll, v, o', names, r') && Separated(roll, v)
    requires Available(roll, v, t) && t in r && t in r' && m in names
    ensures var x, y := At(r[t].values, m), At(r'[t].values, m);
            && (x.Some? <==> y.Some?)
            && (x.Some? ==> x.value.valueType == y.value.valueType && x.value.Reports() == y.value.Reports())
  {
    DoneSeesAll(v, o);
    DoneSeesAll(v, o');
    TargetIsSummed(roll, v, o, names, t, m);
    TargetIsSummed(roll, v, o', names, t, m);
    AddsUpToOneReport(At(r[t].values, m), At(r'[t].values, m), Prior(roll, v, t, m), Given(roll, v, v.Keys, t, m));
  }

  /** All pods agree on the type of each listed metric, and it is one that can be added. */
  ghost predicate Uniform(v: View, names: seq<string>) {
    forall m :: m in names ==>
      exists t: ValueType :: !t.ValueOther? && forall k :: k in PodValues(v, m) ==> v[k].values[m].valueType == t
  }

  lemma UniformNamespacesSucceed(v: View, order: seq<string>, names: seq<string>)
    requires IsOrder(order, v) && NoRepeats(names) && NoNamespaces(v) && Uniform(v, names)
    ensures Rolled(ByNamespace, v, order, names).Some?
  {
    DoneSeesAll(v, order);
    SucceedsExactlyWhenAddable(ByNamespace, v, order, names);
    forall t, m | m in names ensures Addable(Prior(ByNamespace, v, t, m), Given(ByNamespace, v, v.Keys, t, m)) {
      var given := Given(ByNamespace, v, v.Keys, t, m);
      assert forall k :: k in given ==> k in PodValues(v, m) && given[k] == v[k].values[m];
      if t in v {
        assert given == map[];
      }
    }
  }

  lemma UniformClusterSucceeds(
      v: View, o1: seq<string>, names: seq<string>, v1: View, o2: seq<string>, nodeNames: seq<string>, v2: View,
          o3: seq<string>)
    requires NoNamespaces(v) && Uniform(v, names)
    requires Done(ByNamespace, v, o1, names, v1)
    requires Done(ByNode, v1, o2, nodeNames, v2)
    requires IsOrder(o3, v2)
    ensures Rolled(ByCluster, v2, o3, names).Some?
  {
    DoneSeesAll(v2, o3);
    SucceedsExactlyWhenAddable(ByCluster, v2, o3, names);
    forall t, m | m in names && Available(ByCluster, v2, t)
      ensures Addable(Prior(ByCluster, v2, t, m), Given(ByCluster, v2, v2.Keys, t, m))
    {
      NamespacesReachCluster(v, o1, names, v1, o2, nodeNames, v2, m);
      SummaryIsUniform(v, Given(ByCluster, v2, v2.Keys, t, m), names, m);
    }
  }

  lemma SummaryIsUniform(v: View, given: map<string, MetricValue>, names: seq<string>, m: string)
    requires Summary(v, given, m) && Uniform(v, names) && m in names
    ensures Addable(None, given)
  {
    var ty: ValueType :| !ty.ValueOther? && forall k :: k in PodValues(v, m) ==> v[k].values[m].valueType == ty;
    forall t | t in given ensures given[t].valueType == ty {
      var k := NamespaceHasAPod(v, given, t, m);
    }
  }
}
