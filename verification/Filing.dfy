/** Batches whose metric sets are filed under the key of the entity their labels describe. */
module Filing {
  import opened Core
  import opened Keys
  import PodAggregation

  /** The labels say what entity the set is about. */
  predicate Describes(labels: map<string, string>, e: Entity) {
    && TYPE in labels
    && match e
       case Pod(ns, p) => labels[TYPE] == TYPE_POD && Says(labels, ns, p)
       case PodContainer(ns, p, _) => labels[TYPE] == TYPE_POD_CONTAINER && Says(labels, ns, p)
       case Namespace(_) => labels[TYPE] == TYPE_NAMESPACE
       case Node(_) => labels[TYPE] == TYPE_NODE
       case NodeContainer(_, _) => labels[TYPE] == "sys_container"
       case Cluster => labels[TYPE] == TYPE_CLUSTER
  }

  predicate Says(labels: map<string, string>, ns: string, p: string) {
    NAMESPACE_NAME in labels && POD_NAME in labels && labels[NAMESPACE_NAME] == ns && labels[POD_NAME] == p
  }

  ghost predicate FiledUnder(k: string, d: SetData) {
    exists e :: WellNamed(e) && k == KeyOf(e) && Describes(d.labels, e)
  }

  ghost predicate Filed(v: View) {
    forall k :: k in v ==> FiledUnder(k, v[k])
  }

  /** This set is one of the pod's containers. */
  predicate IsContainerOf(d: SetData, ns: string, p: string) {
    PodAggregation.IsContainer(d) && Says(d.labels, ns, p)
  }

  /** What is filed under a pod's key is that pod. */
  lemma UnderPodKey(k: string, d: SetData, ns: string, p: string)
    requires FiledUnder(k, d) && '/' !in ns && '/' !in p && k == PodKey(ns, p)
    ensures HasType(d, TYPE_POD) && Says(d.labels, ns, p)
    ensures !PodAggregation.IsContainer(d)
  {
    var e :| WellNamed(e) && k == KeyOf(e) && Describes(d.labels, e);
    KeysAreUnique(e, Pod(ns, p));
  }

  lemma UnderContainerKey(k: string, d: SetData, ns: string, p: string, c: string)
    requires FiledUnder(k, d) && '/' !in ns && '/' !in p && k == PodContainerKey(ns, p, c)
    ensures IsContainerOf(d, ns, p)
  {
    var e :| WellNamed(e) && k == KeyOf(e) && Describes(d.labels, e);
    KeysAreUnique(e, PodContainer(ns, p, c));
  }

  /** A container is filed under a key of its own pod. */
  lemma KeyOfContainer(k: string, d: SetData) returns (c: string)
    requires FiledUnder(k, d) && PodAggregation.IsContainer(d)
    ensures '/' !in d.labels[NAMESPACE_NAME] && '/' !in d.labels[POD_NAME]
    ensures k == PodContainerKey(d.labels[NAMESPACE_NAME], d.labels[POD_NAME], c)
  {
    var e :| WellNamed(e) && k == KeyOf(e) && Describes(d.labels, e);
    c := e.container;
  }

  lemma PodSetKey(k: string, d: SetData)
    requires FiledUnder(k, d) && HasType(d, TYPE_POD)
    ensures NAMESPACE_NAME in d.labels && POD_NAME in d.labels
    ensures '/' !in d.labels[NAMESPACE_NAME] && '/' !in d.labels[POD_NAME]
    ensures k == PodKey(d.labels[NAMESPACE_NAME], d.labels[POD_NAME])
  {
    var e :| WellNamed(e) && k == KeyOf(e) && Describes(d.labels, e);
  }

  lemma PodKeysDiffer(ns: string, p: string, ns': string, p': string)
    requires '/' !in ns && '/' !in p && '/' !in ns' && '/' !in p'
    requires PodKey(ns, p) == PodKey(ns', p')
    ensures ns == ns' && p == p'
  {
    KeysAreUnique(Pod(ns, p), Pod(ns', p'));
  }

  lemma PodKeyIsNoContainerKey(ns: string, p: string, ns': string, p': string, c: string)
    requires '/' !in ns && '/' !in p && '/' !in ns' && '/' !in p'
    ensures PodKey(ns, p) != PodContainerKey(ns', p', c)
  {
    if PodKey(ns, p) == PodContainerKey(ns', p', c) {
      KeysAreUnique(Pod(ns, p), PodContainer(ns', p', c));
    }
  }

  lemma ContainerKeysDiffer(ns: string, p: string, c: string, ns': string, p': string, c': string)
    requires '/' !in ns && '/' !in p && '/' !in ns' && '/' !in p'
    requires PodContainerKey(ns, p, c) == PodContainerKey(ns', p', c')
    ensures ns == ns' && p == p' && c == c'
  {
    KeysAreUnique(PodContainer(ns, p, c), PodContainer(ns', p', c'));
  }

  /** In a filed batch no container sits under a pod's key. */
  lemma FiledIsSeparated(v: View)
    requires Filed(v)
    ensures PodAggregation.Separated(v)
  {
    forall c, d | c in v && d in v && PodAggregation.IsContainer(v[c]) && PodAggregation.IsContainer(v[d])
      ensures PodAggregation.PodKeyOf(v[c]) != d
    {
      var x := KeyOfContainer(c, v[c]);
      var y := KeyOfContainer(d, v[d]);
      PodKeyIsNoContainerKey(v[c].labels[NAMESPACE_NAME], v[c].labels[POD_NAME],
                             v[d].labels[NAMESPACE_NAME], v[d].labels[POD_NAME], y);
    }
  }
}
