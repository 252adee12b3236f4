/** metrics/core/ms_keys.go: the strings under which metric sets are filed in a batch. */
module Keys {

  function PodContainerKey(namespace: string, podName: string, containerName: string): string {
    "namespace:" + namespace + "/pod:" + podName + "/container:" + containerName
  }

  function PodKey(namespace: string, podName: string): string {
    "namespace:" + namespace + "/pod:" + podName
  }

  function NamespaceKey(namespace: string): string {
    "namespace:" + namespace
  }

  function NodeKey(node: string): string {
    "node:" + node
  }

  function NodeContainerKey(node: string, container: string): string {
    "node:" + node + "/container:" + container
  }

  function ClusterKey(): string {
    "cluster"
  }

  /** What a metric set can describe. */
  datatype Entity =
    | Cluster
    | Namespace(namespace: string)
    | Pod(namespace: string, pod: string)
    | PodContainer(namespace: string, pod: string, container: string)
    | Node(node: string)
    | NodeContainer(node: string, container: string)

  function KeyOf(e: Entity): string {
    match e
    case Cluster => ClusterKey()
    case Namespace(ns) => NamespaceKey(ns)
    case Pod(ns, p) => PodKey(ns, p)
    case PodContainer(ns, p, c) => PodContainerKey(ns, p, c)
    case Node(n) => NodeKey(n)
    case NodeContainer(n, c) => NodeContainerKey(n, c)
  }

  /** Kubernetes names of namespaces, pods and nodes have no '/'; container names are free. */
  predicate WellNamed(e: Entity) {
    match e
    case Cluster => true
    case Namespace(ns) => '/' !in ns
    case Pod(ns, p) => '/' !in ns && '/' !in p
    case PodContainer(ns, p, _) => '/' !in ns && '/' !in p
    case Node(n) => '/' !in n
    case NodeContainer(n, _) => '/' !in n
  }

  /** The first '/' cuts a key in one place only. */
  lemma FirstSlash(a: string, b: string, a': string, b': string)
    requires '/' !in a && '/' !in a'
    requires a + ['/'] + b == a' + ['/'] + b'
    ensures a == a' && b == b'
  {
    var s, s' := a + ['/'] + b, a' + ['/'] + b';
    assert s[|a|] == '/' && forall i | 0 <= i < |a| :: s[i] == a[i] != '/';
    assert s'[|a'|] == '/' && forall i | 0 <= i < |a'| :: s'[i] == a'[i] != '/';
    assert |a| == |a'|;
    assert a == s[..|a|] && a' == s'[..|a'|];
    assert b == s[|a| + 1..] && b' == s'[|a'| + 1..];
  }

  lemma PrefixCancels(t: string, a: string, b: string)
    requires t + a == t + b
    ensures a == b
  {
    assert (t + a)[|t|..] == a && (t + b)[|t|..] == b;
  }

  /** What a key says before its first '/'. */
  function Head(e: Entity): string {
    match e
    case Cluster => "cluster"
    case Namespace(ns) => "namespace:" + ns
    case Pod(ns, _) => "namespace:" + ns
    case PodContainer(ns, _, _) => "namespace:" + ns
    case Node(n) => "node:" + n
    case NodeContainer(n, _) => "node:" + n
  }

  predicate HasTail(e: Entity) {
    e.Pod? || e.PodContainer? || e.NodeContainer?
  }

  /** What a key says after its first '/'. */
  function Tail(e: Entity): string
    requires HasTail(e)
  {
    match e
    case Pod(_, p) => "pod:" + p
    case PodContainer(_, p, c) => "pod:" + p + ['/'] + ("container:" + c)
    case NodeContainer(_, c) => "container:" + c
  }

  lemma KeyIsHeadAndTail(e: Entity)
    ensures KeyOf(e) == if HasTail(e) then Head(e) + ['/'] + Tail(e) else Head(e)
  {
    assert "/pod:" == ['/'] + "pod:" && "/container:" == ['/'] + "container:";
    match e
    case Cluster =>
    case Namespace(_) =>
    case Node(_) =>
    case Pod(ns, p) =>
      assert "namespace:" + ns + (['/'] + "pod:") + p == ("namespace:" + ns) + ['/'] + ("pod:" + p);
    case PodContainer(ns, p, c) =>
      assert "namespace:" + ns + (['/'] + "pod:") + p + (['/'] + "container:") + c
          == ("namespace:" + ns) + ['/'] + ("pod:" + p + ['/'] + ("container:" + c));
    case NodeContainer(n, c) =>
      assert "node:" + n + (['/'] + "container:") + c == ("node:" + n) + ['/'] + ("container:" + c);
  }

  lemma TailNeedsSlash(e: Entity)
    requires WellNamed(e)
    ensures '/' !in Head(e)
    ensures '/' in KeyOf(e) <==> HasTail(e)
  {
    KeyIsHeadAndTail(e);
    if HasTail(e) {
      assert KeyOf(e)[|Head(e)|] == '/';
    }
  }

  /** The head alone gives the family, node or namespace, and its name. */
  lemma HeadsDecide(e: Entity, f: Entity)
    requires Head(e) == Head(f)
    ensures e.Cluster? <==> f.Cluster?
    ensures (e.Node? || e.NodeContainer?) <==> (f.Node? || f.NodeContainer?)
    ensures e.Node? || e.NodeContainer? ==> e.node == f.node
    ensures !(e.Cluster? || e.Node? || e.NodeContainer?) ==> e.namespace == f.namespace
  {
    assert e.Cluster? || Head(e)[1] == (if e.Node? || e.NodeContainer? then 'o' else 'a');
    assert f.Cluster? || Head(f)[1] == (if f.Node? || f.NodeContainer? then 'o' else 'a');
    if e.Node? || e.NodeContainer? {
      PrefixCancels("node:", e.node, f.node);
    } else if !e.Cluster? {
      PrefixCancels("namespace:", e.namespace, f.namespace);
    }
  }

  /** Within a family, the tail gives the rest. */
  lemma TailsDecide(e: Entity, f: Entity)
    requires WellNamed(e) && WellNamed(f) && HasTail(e) && HasTail(f)
    requires e.NodeContainer? <==> f.NodeContainer?
    requires Tail(e) == Tail(f)
    ensures e.Pod? <==> f.Pod?
    ensures e.Pod? ==> e.pod == f.pod
    ensures e.PodContainer? ==> e.pod == f.pod && e.container == f.container
    ensures e.NodeContainer? ==> e.container == f.container
  {
    if e.NodeContainer? {
      PrefixCancels("container:", e.container, f.container);
    } else {
      assert e.PodContainer? ==> Tail(e)[|"pod:" + e.pod|] == '/';
      assert f.PodContainer? ==> Tail(f)[|"pod:" + f.pod|] == '/';
      assert e.Pod? <==> '/' !in Tail(e);
      assert f.Pod? <==> '/' !in Tail(f);
      if e.PodContainer? {
        FirstSlash("pod:" + e.pod, "container:" + e.container, "pod:" + f.pod, "container:" + f.container);
        PrefixCancels("container:", e.container, f.container);
      }
      PrefixCancels("pod:", e.pod, f.pod);
    }
  }

  /** Keys are unique: two well-named entities with one key are one entity. */
  lemma KeysAreUnique(e: Entity, f: Entity)
    requires WellNamed(e) && WellNamed(f)
    requires KeyOf(e) == KeyOf(f)
    ensures e == f
  {
    KeyIsHeadAndTail(e);
    KeyIsHeadAndTail(f);
    TailNeedsSlash(e);
    TailNeedsSlash(f);
    if HasTail(e) {
      FirstSlash(Head(e), Tail(e), Head(f), Tail(f));
      HeadsDecide(e, f);
      TailsDecide(e, f);
    } else {
      HeadsDecide(e, f);
    }
  }
}
