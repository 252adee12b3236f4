/** The batch after the namespace, node and cluster aggregators, each from the labels of the sets alone. */
module RolledSets {
  import opened Sums
  import opened Core
  import opened Rollup
  import CV = Conservation
  import Keys

  /** The values of m of the pods whose label l says x. */
  ghost function PodsWith(v: View, l: string, x: string, m: string): map<string, MetricValue> {
    map k | k in v && HasType(v[k], "pod") && l in v[k].labels && v[k].labels[l] == x && m in v[k].values ::
      v[k].values[m]
  }

  /** The values of m of all the namespaces. */
  ghost function Namespaces(v: View, m: string): map<string, MetricValue> {
    map k | k in v && HasType(v[k], "ns") && m in v[k].values :: v[k].values[m]
  }

  ghost predicate HasPod(v: View, l: string, x: string) {
    exists k :: k in v && HasType(v[k], "pod") && l in v[k].labels && v[k].labels[l] == x
  }

  ghost predicate IsNodeOfAPod(v: View, k: string) {
    exists n :: n != "" && k == Keys.NodeKey(n) && HasPod(v, NODENAME, n)
  }

  /** No pod is filed as a node. */
  ghost predicate NoPodIsANode(v: View) {
    forall k, n :: k in v && HasType(v[k], "pod") ==> k != Keys.NodeKey(n)
  }

  ghost predicate IsNamespaceOfAPod(v: View, k: string) {
    exists a :: k == Keys.NamespaceKey(a) && HasPod(v, NAMESPACE_NAME, a)
  }

  /** No pod is filed as a namespace. */
  ghost predicate NoPodIsANamespace(v: View) {
    forall k, a :: k in v && HasType(v[k], "pod") ==> k != Keys.NamespaceKey(a)
  }

  lemma KeysOfNames(a: string, b: string)
    ensures Keys.NodeKey(a) == Keys.NodeKey(b) <==> a == b
    ensures Keys.NamespaceKey(a) == Keys.NamespaceKey(b) <==> a == b
  {
    assert a == Keys.NodeKey(a)[5..] && b == Keys.NodeKey(b)[5..];
    assert a == Keys.NamespaceKey(a)[10..] && b == Keys.NamespaceKey(b)[10..];
  }

  // ----- Nodes -----

  lemma NodeTargets(v: View)
    requires NoPodIsANode(v)
    ensures Separated(ByNode, v)
  {
    hide Keys.NodeKey;
    forall j, k | j in v && k in v && TargetOf(ByNode, v[j]).Some? && TargetOf(ByNode, v[k]).Some?
      ensures TargetOf(ByNode, v[j]) != Some(k)
    {
      assert HasType(v[k], "pod");
    }
  }

  lemma GivenToNode(v: View, n: string, m: string)
    requires n != ""
    ensures Given(ByNode, v, v.Keys, Keys.NodeKey(n), m) == PodsWith(v, NODENAME, n, m)
  {
    hide Keys.NodeKey;
    forall k | k in v
      ensures Contributes(ByNode, v, k, Keys.NodeKey(n), m) <==> k in PodsWith(v, NODENAME, n, m)
    {
      KeysOfNames(Get(v[k].labels, NODENAME), n);
    }
  }

  /**
   * In every order: each node in the batch ends at what it had plus the sum of the pods that name it; nothing else
   * changes, and no node is made up.
   */
  lemma NodeMeaning(v: View, order: seq<string>, names: seq<string>, r: View)
    requires IsOrder(order, v) && NoRepeats(names) && Rolled(ByNode, v, order, names) == Some(r) && NoPodIsANode(v)
    ensures r.Keys == v.Keys
    ensures forall n, m :: n != "" && Keys.NodeKey(n) in v && m in names ==>
              AddsUp(At(r[Keys.NodeKey(n)].values, m), At(v[Keys.NodeKey(n)].values, m), PodsWith(v, NODENAME, n, m))
    ensures forall k :: k in v ==> r[k] == v[k].(values := r[k].values)
    ensures forall k, m :: k in v && m !in names ==> At(r[k].values, m) == At(v[k].values, m)
    ensures forall k :: k in v && !IsNodeOfAPod(v, k) ==> r[k] == v[k]
  {
    hide Keys.NodeKey, AddsUp, Rolled, PodsWith, HasPod;
    RolledIsRun(ByNode, v, order, names, r);
    NodeTargets(v);
    forall n, m | n != "" && Keys.NodeKey(n) in v && m in names
      ensures AddsUp(At(r[Keys.NodeKey(n)].values, m), At(v[Keys.NodeKey(n)].values, m), PodsWith(v, NODENAME, n, m))
    {
      CV.NodeGainsItsPods(v, order, names, r, Keys.NodeKey(n), m);
      GivenToNode(v, n, m);
    }
    OnlyValuesChange(ByNode, v, order, names, r);
    forall k | k in v && !IsNodeOfAPod(v, k)
      ensures r[k] == v[k]
    {
      NoNodeFor(v, k);
      SourcesKept(ByNode, v, order, names, k);
    }
  }

  lemma NoNodeFor(v: View, k: string)
    requires !IsNodeOfAPod(v, k)
    ensures forall j :: j in v ==> TargetOf(ByNode, v[j]) != Some(k)
  {
    hide Keys.NodeKey;
    forall j | j in v
      ensures TargetOf(ByNode, v[j]) != Some(k)
    {
      if TargetOf(ByNode, v[j]).Some? {
        assert HasPod(v, NODENAME, v[j].labels[NODENAME]);
      }
    }
  }

  lemma RolledIsRun(roll: Roll, v: View, order: seq<string>, names: seq<string>, r: View)
    requires IsOrder(order, v) && Rolled(roll, v, order, names) == Some(r)
    ensures Seen(order) == v.Keys && Run(roll, v, order, names).Some?
    ensures var s := Run(roll, v, order, names).value;
            && r == s.sets + s.made && s.sets.Keys == v.Keys
            && (roll == ByNode ==> r == s.sets)
            && (roll != ByCluster ==> forall k :: k in v ==> r[k] == s.sets[k])
  {
    hide Run;
  }

  lemma OnlyValuesChange(roll: Roll, v: View, order: seq<string>, names: seq<string>, r: View)
    requires IsOrder(order, v) && NoRepeats(names) && Rolled(roll, v, order, names) == Some(r) && roll != ByCluster
    ensures forall k :: k in v ==> k in r && r[k] == v[k].(values := r[k].values)
    ensures forall k, m :: k in v && m !in names ==> At(r[k].values, m) == At(v[k].values, m)
  {
    hide Run, TargetOf;
    RolledIsRun(roll, v, order, names, r);
    forall k | k in v
      ensures r[k] == v[k].(values := r[k].values)
    {
      KindsKept(roll, v, order, names, k);
    }
    forall k, m | k in v && m !in names
      ensures At(r[k].values, m) == At(v[k].values, m)
    {
      CV.RestKept(roll, v, order, names, k, m);
    }
  }

  // ----- Namespaces -----

  lemma NamespaceTargets(v: View)
    requires NoPodIsANamespace(v)
    ensures Separated(ByNamespace, v)
  {
    hide Keys.NamespaceKey;
    forall j, k | j in v && k in v && TargetOf(ByNamespace, v[j]).Some? && TargetOf(ByNamespace, v[k]).Some?
      ensures TargetOf(ByNamespace, v[j]) != Some(k)
    {
      assert HasType(v[k], "pod");
    }
  }

  lemma GivenToNamespace(v: View, a: string, m: string)
    ensures Given(ByNamespace, v, v.Keys, Keys.NamespaceKey(a), m) == PodsWith(v, NAMESPACE_NAME, a, m)
  {
    hide Keys.NamespaceKey;
    forall k | k in v
      ensures Contributes(ByNamespace, v, k, Keys.NamespaceKey(a), m) <==> k in PodsWith(v, NAMESPACE_NAME, a, m)
    {
      KeysOfNames(Get(v[k].labels, NAMESPACE_NAME), a);
    }
  }

  /** Apart from its values, a made-up namespace: its name, and the id that one of its pods gives it. */
  ghost predicate MadeUpNamespace(d: SetData, v: View, a: string) {
    exists k ::
      && k in v && HasType(v[k], "pod") && NAMESPACE_NAME in v[k].labels && v[k].labels[NAMESPACE_NAME] == a
      && d == SetData(0, 0, 0, d.values,
                      map[TYPE := "ns", NAMESPACE_NAME := a, NAMESPACE_ID := Get(v[k].labels, NAMESPACE_ID)], [])
  }

  ghost predicate MadeAsSaid(s: State, v: View, order: seq<string>) {
    && (forall t :: t in s.made ==> exists a :: t == Keys.NamespaceKey(a) && MadeUpNamespace(s.made[t], v, a))
    && (forall k :: k in order && k in v && HasType(v[k], "pod") && NAMESPACE_NAME in v[k].labels ==>
          s.Has(Keys.NamespaceKey(v[k].labels[NAMESPACE_NAME])))
  }

  lemma StepMakes(s: State, v: View, order: seq<string>, key: string, names: seq<string>)
    requires key in s.sets && key in v && s.sets[key] == v[key].(values := s.sets[key].values)
    requires MadeAsSaid(s, v, order)
    requires Step(ByNamespace, s, key, names).Some?
    ensures MadeAsSaid(Step(ByNamespace, s, key, names).value, v, order + [key])
  {
    hide Keys.NamespaceKey, AddAll;
    var d := s.sets[key];
    if HasType(d, "pod") && NAMESPACE_NAME in d.labels {
      var a := d.labels[NAMESPACE_NAME];
      var t := Keys.NamespaceKey(a);
      var s1 := Prepared(ByNamespace, s, t, d);
      assert t !in s.made && t !in s.sets ==> MadeUpNamespace(s1.made[t], v, a);
      assert s1.Has(t);
      forall u | u in s1.made
        ensures exists b :: u == Keys.NamespaceKey(b) && MadeUpNamespace(s1.made[u], v, b)
      {}
      WithKeepsMade(s1, t, AddAll(d.values, s1.Values(t), names).value, v);
    }
  }

  lemma WithKeepsMade(s: State, t: string, values: map<string, MetricValue>, v: View)
    requires s.Has(t)
    requires forall u :: u in s.made ==> exists a :: u == Keys.NamespaceKey(a) && MadeUpNamespace(s.made[u], v, a)
    ensures var s' := s.With(t, values);
            && (forall u :: u in s'.made ==> exists a :: u == Keys.NamespaceKey(a) && MadeUpNamespace(s'.made[u], v, a))
            && forall u :: s.Has(u) ==> s'.Has(u)
  {
    hide Keys.NamespaceKey;
    if t in s.made {
      var a :| t == Keys.NamespaceKey(a) && MadeUpNamespace(s.made[t], v, a);
      assert MadeUpNamespace(s.made[t].(values := values), v, a);
    }
  }

  lemma {:induction false} RunMakes(v: View, order: seq<string>, names: seq<string>)
    requires NoRepeats(order) && (forall k :: k in order ==> k in v) && Run(ByNamespace, v, order, names).Some?
    ensures MadeAsSaid(Run(ByNamespace, v, order, names).value, v, order)
  {
    hide MadeAsSaid, Step;
    if order == [] {
      NothingMade(v);
    } else {
      var n := |order| - 1;
      assert order == order[..n] + [order[n]];
      RunPrefix(ByNamespace, v, order, names);
      RunMakes(v, order[..n], names);
      KindsKept(ByNamespace, v, order[..n], names, order[n]);
      StepMakes(Run(ByNamespace, v, order[..n], names).value, v, order[..n], order[n], names);
    }
  }

  lemma NothingMade(v: View)
    ensures MadeAsSaid(Start(ByNamespace, v), v, [])
  {}

  /**
   * In every order: the namespace of every pod is in the result and shows what it had plus the sum of the pods that
   * name it; those not in the batch are made up with the name and id their pods give; nothing else changes.
   */
  lemma NamespaceMeaning(v: View, order: seq<string>, names: seq<string>, r: View)
    requires IsOrder(order, v) && NoRepeats(names) && Rolled(ByNamespace, v, order, names) == Some(r)
    requires NoPodIsANamespace(v)
    ensures v.Keys <= r.Keys
    ensures forall a :: HasPod(v, NAMESPACE_NAME, a) ==> Keys.NamespaceKey(a) in r
    ensures forall t :: t in r && t !in v ==> exists a :: t == Keys.NamespaceKey(a) && MadeUpNamespace(r[t], v, a)
    ensures forall a, m :: Keys.NamespaceKey(a) in r && m in names ==>
              AddsUp(At(r[Keys.NamespaceKey(a)].values, m),
                     if Keys.NamespaceKey(a) in v then At(v[Keys.NamespaceKey(a)].values, m) else None,
                     PodsWith(v, NAMESPACE_NAME, a, m))
    ensures forall k :: k in v ==> r[k] == v[k].(values := r[k].values)
    ensures forall k, m :: k in v && m !in names ==> At(r[k].values, m) == At(v[k].values, m)
    ensures forall k :: k in v && !IsNamespaceOfAPod(v, k) ==> r[k] == v[k]
  {
    hide Keys.NamespaceKey, AddsUp, Rolled, PodsWith, HasPod, MadeUpNamespace, Run;
    RolledIsRun(ByNamespace, v, order, names, r);
    NamespaceTargets(v);
    RunMakes(v, order, names);
    forall a | HasPod(v, NAMESPACE_NAME, a)
      ensures Keys.NamespaceKey(a) in r
    {
      NamespaceThere(v, order, names, r, a);
    }
    forall a, m | Keys.NamespaceKey(a) in r && m in names
      ensures AddsUp(At(r[Keys.NamespaceKey(a)].values, m),
                     if Keys.NamespaceKey(a) in v then At(v[Keys.NamespaceKey(a)].values, m) else None,
                     PodsWith(v, NAMESPACE_NAME, a, m))
    {
      TargetIsSummed(ByNamespace, v, order, names, Keys.NamespaceKey(a), m);
      GivenToNamespace(v, a, m);
    }
    OnlyValuesChange(ByNamespace, v, order, names, r);
    forall k | k in v && !IsNamespaceOfAPod(v, k)
      ensures r[k] == v[k]
    {
      NoNamespaceFor(v, k);
      SourcesKept(ByNamespace, v, order, names, k);
    }
  }

  lemma NamespaceThere(v: View, order: seq<string>, names: seq<string>, r: View, a: string)
    requires IsOrder(order, v) && Rolled(ByNamespace, v, order, names) == Some(r) && HasPod(v, NAMESPACE_NAME, a)
    ensures Keys.NamespaceKey(a) in r
  {
    hide Keys.NamespaceKey, MadeUpNamespace, Run;
    RolledIsRun(ByNamespace, v, order, names, r);
    RunMakes(v, order, names);
    var k :| k in v && HasType(v[k], "pod") && NAMESPACE_NAME in v[k].labels && v[k].labels[NAMESPACE_NAME] == a;
    assert k in order;
  }

  lemma NoNamespaceFor(v: View, k: string)
    requires !IsNamespaceOfAPod(v, k)
    ensures forall j :: j in v ==> TargetOf(ByNamespace, v[j]) != Some(k)
  {
    hide Keys.NamespaceKey;
    forall j | j in v
      ensures TargetOf(ByNamespace, v[j]) != Some(k)
    {
      if TargetOf(ByNamespace, v[j]).Some? {
        assert HasPod(v, NAMESPACE_NAME, v[j].labels[NAMESPACE_NAME]);
      }
    }
  }

  // ----- The cluster -----

  lemma GivenToCluster(v: View, m: string)
    ensures Given(ByCluster, v, v.Keys, Keys.ClusterKey(), m) == Namespaces(v, m)
  {}

  /** In every order: a new cluster set shows the sum of all the namespaces; nothing else changes. */
  lemma ClusterMeaning(v: View, order: seq<string>, names: seq<string>, r: View)
    requires IsOrder(order, v) && NoRepeats(names) && Rolled(ByCluster, v, order, names) == Some(r)
    ensures r.Keys == v.Keys + {Keys.ClusterKey()}
    ensures forall k :: k in v && k != Keys.ClusterKey() ==> r[k] == v[k]
    ensures var d := r[Keys.ClusterKey()]; d == SetData(0, 0, 0, d.values, map[TYPE := "cluster"], [])
    ensures forall m :: m in names ==> AddsUp(At(r[Keys.ClusterKey()].values, m), None, Namespaces(v, m))
    ensures forall m :: m in r[Keys.ClusterKey()].values ==> m in names
  {
    hide AddsUp, Rolled, Namespaces, Run;
    RolledIsRun(ByCluster, v, order, names, r);
    var s := Run(ByCluster, v, order, names).value;
    forall m | m in names
      ensures AddsUp(At(r[Keys.ClusterKey()].values, m), None, Namespaces(v, m))
    {
      TargetIsSummed(ByCluster, v, order, names, Keys.ClusterKey(), m);
      GivenToCluster(v, m);
    }
    forall k | k in v
      ensures s.sets[k] == v[k]
    {
      SourcesKept(ByCluster, v, order, names, k);
    }
    ClusterIs(v, order, names);
  }

  lemma {:induction false} ClusterIs(v: View, order: seq<string>, names: seq<string>)
    requires NoRepeats(order) && (forall k :: k in order ==> k in v) && Run(ByCluster, v, order, names).Some?
    requires NoRepeats(names)
    ensures var d := Run(ByCluster, v, order, names).value.made[Keys.ClusterKey()];
            && d == SetData(0, 0, 0, d.values, map[TYPE := "cluster"], [])
            && forall m :: m in d.values ==> m in names
  {
    hide AddAll;
    if order != [] {
      var n := |order| - 1;
      RunPrefix(ByCluster, v, order, names);
      ClusterIs(v, order[..n], names);
      var s := Run(ByCluster, v, order[..n], names).value;
      var d := s.sets[order[n]];
      if TargetOf(ByCluster, d).Some? && AddAll(d.values, s.Values(Keys.ClusterKey()), names).Some? {
        forall m | m !in names
          ensures m !in AddAll(d.values, s.Values(Keys.ClusterKey()), names).value
        {
          AddAllMetric(d.values, s.Values(Keys.ClusterKey()), names, m);
        }
      }
    }
  }
}
