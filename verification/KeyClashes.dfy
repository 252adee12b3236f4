/**
 * metrics/core/ms_keys.go: exactly which names make keys clash. The keys are promised to be unique; that holds
 * of names without '/', and for names with '/' it holds or fails as stated here.
 */
module KeyClashes {
  import opened Core
  import opened Keys
  import opened Strings

  const POD_SEP := "/pod:"
  const CONTAINER_SEP := "/container:"

  ghost const SLASH_FREE := iset s: string | '/' !in s

  /** The entity's namespace, pod and node names, as far as it has them, are among the given ones. */
  ghost predicate Within(e: Entity, namespaces: iset<string>, pods: iset<string>, nodes: iset<string>) {
    match e
    case Cluster => true
    case Namespace(ns) => ns in namespaces
    case Pod(ns, p) => ns in namespaces && p in pods
    case PodContainer(ns, p, _) => ns in namespaces && p in pods
    case Node(n) => n in nodes
    case NodeContainer(n, _) => n in nodes
  }

  /** No two entities with such names share a key, whatever their containers are called. */
  ghost predicate Unique(namespaces: iset<string>, pods: iset<string>, nodes: iset<string>) {
    forall e, f :: Alike(e, f, namespaces, pods, nodes) ==> e == f
  }

  ghost predicate Alike(e: Entity, f: Entity, namespaces: iset<string>, pods: iset<string>, nodes: iset<string>) {
    Within(e, namespaces, pods, nodes) && Within(f, namespaces, pods, nodes) && KeyOf(e) == KeyOf(f)
  }

  predicate OfNode(e: Entity) {
    e.Node? || e.NodeContainer?
  }

  lemma FamiliesDiffer(e: Entity, f: Entity)
    requires KeyOf(e) == KeyOf(f)
    ensures (e.Cluster? <==> f.Cluster?) && (OfNode(e) <==> OfNode(f))
  {
    assert e.Cluster? || KeyOf(e)[1] == (if OfNode(e) then 'o' else 'a');
    assert f.Cluster? || KeyOf(f)[1] == (if OfNode(f) then 'o' else 'a');
  }

  // ----- Names in front of a separator -----

  /** A separator has its only '/' at its start, so it cannot overlap itself. */
  predicate IsSeparator(sep: string) {
    sep != [] && sep[0] == '/' && forall i :: 0 < i < |sep| ==> sep[i] != '/'
  }

  /** A name alone, or a name, the separator and what follows. */
  function Form(name: string, sep: string, rest: Option<string>): string {
    if rest.None? then name else name + sep + rest.value
  }

  /** No name begins with another and the separator. */
  ghost predicate NoneInside(names: iset<string>, sep: string) {
    forall a, b :: a in names && b in names ==> !(a + sep <= b)
  }

  lemma InsideSeparator(a: string, s: string, sep: string, i: nat)
    requires IsSeparator(sep) && |a| < i < |a| + |sep|
    ensures (a + sep + s)[i] != '/'
  {
    assert (a + sep + s)[i] == sep[i - |a|];
  }

  /** If a string can be cut at a separator in two places, the shorter part and the separator begin the longer part. */
  lemma CutTwice(a: string, s: string, b: string, t: string, sep: string)
    requires IsSeparator(sep) && a + sep + s == b + sep + t && |a| < |b|
    ensures a + sep <= b && s == b[|a| + |sep|..] + sep + t
  {
    var w := b + sep + t;
    if |b| < |a| + |sep| {
      InsideSeparator(a, s, sep, |b|);
    }
    assert w[|b|] == '/';
    assert b == w[..|b|] && a + sep == (a + sep + s)[..|a| + |sep|];
    assert s == (a + sep + s)[|a| + |sep|..];
  }

  /** Cut in one place, the parts are the same. */
  lemma CutOnce(a: string, s: string, b: string, t: string, sep: string)
    requires a + sep + s == b + sep + t && |a| == |b|
    ensures a == b && s == t
  {
    assert a == (a + sep + s)[..|a|] && b == (b + sep + t)[..|b|];
    assert s == (a + sep + s)[|a| + |sep|..] && t == (b + sep + t)[|b| + |sep|..];
  }

  lemma Begins(a: string, sep: string, s: string)
    ensures a + sep <= a + sep + s && (a + sep + s)[|a| + |sep|..] == s
  {}

  /** Where no name begins with another and the separator, a form has one reading. */
  lemma FormReadOff(names: iset<string>, sep: string, a: string, x: Option<string>, b: string, y: Option<string>)
    requires IsSeparator(sep) && NoneInside(names, sep) && a in names && b in names
    requires Form(a, sep, x) == Form(b, sep, y)
    ensures a == b && x == y
  {
    if x.Some? && y.Some? {
      if |a| < |b| {
        CutTwice(a, x.value, b, y.value, sep);
      } else if |b| < |a| {
        CutTwice(b, y.value, a, x.value, sep);
      } else {
        CutOnce(a, x.value, b, y.value, sep);
      }
    } else if x.Some? {
      Begins(a, sep, x.value);
    } else if y.Some? {
      Begins(b, sep, y.value);
    }
  }

  lemma Separators()
    ensures IsSeparator(POD_SEP) && IsSeparator(CONTAINER_SEP)
  {}

  // ----- Node names -----

  function ContainerOf(e: Entity): Option<string> {
    if e.PodContainer? || e.NodeContainer? then Some(e.container) else None
  }

  lemma KeyOfNode(e: Entity)
    requires OfNode(e)
    ensures KeyOf(e) == "node:" + Form(e.node, CONTAINER_SEP, ContainerOf(e))
  {
    if e.NodeContainer? {
      assert "node:" + e.node + CONTAINER_SEP + e.container == "node:" + (e.node + CONTAINER_SEP + e.container);
    }
  }

  lemma NodesReadOff(nodes: iset<string>, e: Entity, f: Entity)
    requires NoneInside(nodes, CONTAINER_SEP) && OfNode(e) && OfNode(f) && e.node in nodes && f.node in nodes
    requires KeyOf(e) == KeyOf(f)
    ensures e == f
  {
    hide KeyOf, Form, IsSeparator;
    KeyOfNode(e);
    KeyOfNode(f);
    PrefixCancels("node:", Form(e.node, CONTAINER_SEP, ContainerOf(e)), Form(f.node, CONTAINER_SEP, ContainerOf(f)));
    Separators();
    FormReadOff(nodes, CONTAINER_SEP, e.node, ContainerOf(e), f.node, ContainerOf(f));
  }

  /** Keys are unique for the given node names exactly when none begins with another and "/container:". */
  lemma NodeKeysUniqueExactlyWhen(nodes: iset<string>)
    ensures Unique(SLASH_FREE, SLASH_FREE, nodes) <==> NoneInside(nodes, CONTAINER_SEP)
  {
    hide KeyOf;
    if NoneInside(nodes, CONTAINER_SEP) {
      forall e, f | Alike(e, f, SLASH_FREE, SLASH_FREE, nodes)
        ensures e == f
      {
        FamiliesDiffer(e, f);
        if OfNode(e) {
          NodesReadOff(nodes, e, f);
        } else {
          KeysAreUnique(e, f);
        }
      }
    } else {
      var m, n :| m in nodes && n in nodes && m + CONTAINER_SEP <= n;
      var c := n[|m| + |CONTAINER_SEP|..];
      assert n == m + CONTAINER_SEP + c;
      KeyOfNode(Node(n));
      KeyOfNode(NodeContainer(m, c));
      assert Alike(Node(n), NodeContainer(m, c), SLASH_FREE, SLASH_FREE, nodes);
    }
  }

  // ----- Pod names -----

  /** What follows the namespace and "/pod:" in a key. */
  function Rest(e: Entity): Option<string> {
    if e.Pod? || e.PodContainer? then Some(Form(e.pod, CONTAINER_SEP, ContainerOf(e))) else None
  }

  predicate OfNamespace(e: Entity) {
    e.Namespace? || e.Pod? || e.PodContainer?
  }

  lemma KeyOfNamespaced(e: Entity)
    requires OfNamespace(e)
    ensures KeyOf(e) == "namespace:" + Form(e.namespace, POD_SEP, Rest(e))
  {
    match e
    case Namespace(_) =>
    case Pod(ns, p) => assert "namespace:" + ns + POD_SEP + p == "namespace:" + (ns + POD_SEP + p);
    case PodContainer(ns, p, c) =>
      assert "namespace:" + ns + POD_SEP + p + CONTAINER_SEP + c ==
             "namespace:" + (ns + POD_SEP + (p + CONTAINER_SEP + c));
  }

  lemma SameForms(e: Entity, f: Entity)
    requires OfNamespace(e) && OfNamespace(f) && KeyOf(e) == KeyOf(f)
    ensures Form(e.namespace, POD_SEP, Rest(e)) == Form(f.namespace, POD_SEP, Rest(f))
  {
    hide KeyOf, Form, Rest;
    KeyOfNamespaced(e);
    KeyOfNamespaced(f);
    PrefixCancels("namespace:", Form(e.namespace, POD_SEP, Rest(e)), Form(f.namespace, POD_SEP, Rest(f)));
  }

  /** The rests decide the entity where the pod names can be read off. */
  lemma RestsDecide(pods: iset<string>, e: Entity, f: Entity)
    requires OfNamespace(e) && OfNamespace(f) && NoneInside(pods, CONTAINER_SEP)
    requires (e.Namespace? || e.pod in pods) && (f.Namespace? || f.pod in pods)
    requires e.namespace == f.namespace && Rest(e) == Rest(f)
    ensures e == f
  {
    hide Form, IsSeparator;
    Separators();
    if !e.Namespace? {
      FormReadOff(pods, CONTAINER_SEP, e.pod, ContainerOf(e), f.pod, ContainerOf(f));
    }
  }

  /** No name without '/' begins with something that has one. */
  lemma NoneInsideSlashFree(sep: string)
    requires IsSeparator(sep)
    ensures NoneInside(SLASH_FREE, sep)
  {
    forall a, b | a in SLASH_FREE && b in SLASH_FREE
      ensures !(a + sep <= b)
    {
      assert (a + sep)[|a|] == '/';
    }
  }

  lemma PodsReadOff(pods: iset<string>, e: Entity, f: Entity)
    requires NoneInside(pods, CONTAINER_SEP) && OfNamespace(e) && OfNamespace(f)
    requires Alike(e, f, SLASH_FREE, pods, SLASH_FREE)
    ensures e == f
  {
    hide KeyOf, Form, Rest, IsSeparator;
    Separators();
    NoneInsideSlashFree(POD_SEP);
    SameForms(e, f);
    FormReadOff(SLASH_FREE, POD_SEP, e.namespace, Rest(e), f.namespace, Rest(f));
    RestsDecide(pods, e, f);
  }

  /** Keys are unique for the given pod names exactly when none begins with another and "/container:". */
  lemma PodKeysUniqueExactlyWhen(pods: iset<string>)
    ensures Unique(SLASH_FREE, pods, SLASH_FREE) <==> NoneInside(pods, CONTAINER_SEP)
  {
    hide KeyOf;
    if NoneInside(pods, CONTAINER_SEP) {
      forall e, f | Alike(e, f, SLASH_FREE, pods, SLASH_FREE)
        ensures e == f
      {
        FamiliesDiffer(e, f);
        if OfNamespace(e) {
          PodsReadOff(pods, e, f);
        } else {
          KeysAreUnique(e, f);
        }
      }
    } else {
      var q, p :| q in pods && p in pods && q + CONTAINER_SEP <= p;
      var c := p[|q| + |CONTAINER_SEP|..];
      assert p == q + CONTAINER_SEP + c;
      KeyOfNamespaced(Pod("", p));
      KeyOfNamespaced(PodContainer("", q, c));
      assert Alike(Pod("", p), PodContainer("", q, c), SLASH_FREE, pods, SLASH_FREE);
    }
  }

  // ----- Namespace names -----

  /** The string is a pod name without '/', or such a name, "/container:" and anything. */
  ghost predicate PodLike(s: string) {
    exists p, c :: '/' !in p && s == Form(p, CONTAINER_SEP, c)
  }

  /** This can be seen at its first '/'. */
  lemma PodLikeSeen(s: string)
    ensures PodLike(s) <==> var i := IndexOf(s, '/'); i == |s| || CONTAINER_SEP <= s[i..]
  {
    hide IndexOf, PodLike;
    if PodLike(s) {
      var p, c := Reading(s);
      FormSeen(p, c);
    }
    var i := IndexOf(s, '/');
    if i == |s| || CONTAINER_SEP <= s[i..] {
      SeenIsPodLike(s, i);
    }
  }

  lemma Reading(s: string) returns (p: string, c: Option<string>)
    requires PodLike(s)
    ensures '/' !in p && s == Form(p, CONTAINER_SEP, c)
  {
    p, c :| '/' !in p && s == Form(p, CONTAINER_SEP, c);
  }

  lemma SeenIsPodLike(s: string, i: nat)
    requires i <= |s| && '/' !in s[..i] && (i == |s| || CONTAINER_SEP <= s[i..])
    ensures PodLike(s)
  {
    if i == |s| {
      assert s[..i] == s;
      assert s == Form(s, CONTAINER_SEP, None);
    } else {
      var c := s[i..][|CONTAINER_SEP|..];
      assert s == s[..i] + s[i..] && s[i..] == CONTAINER_SEP + c;
      assert s == Form(s[..i], CONTAINER_SEP, Some(c));
    }
  }

  lemma FormSeen(p: string, c: Option<string>)
    requires '/' !in p
    ensures var s := Form(p, CONTAINER_SEP, c);
            var i := IndexOf(s, '/');
            i == |p| && (i == |s| || CONTAINER_SEP <= s[i..])
  {
    if c.Some? {
      assert p + CONTAINER_SEP + c.value == p + ['/'] + (CONTAINER_SEP[1..] + c.value);
      IndexAfter(p, '/', CONTAINER_SEP[1..] + c.value);
      assert (p + CONTAINER_SEP + c.value)[|p|..] == CONTAINER_SEP + c.value;
    }
  }

  /** No namespace name is another one, "/pod:" and a pod or container of it. */
  ghost predicate NoneIsAPod(namespaces: iset<string>) {
    forall x, y :: x in namespaces && y in namespaces && y + POD_SEP <= x ==> !PodLike(x[|y| + |POD_SEP|..])
  }

  /** What comes before a "/pod:" in a pod-like string is itself pod-like. */
  lemma PodLikeInside(r: string, t: string)
    requires PodLike(r + POD_SEP + t)
    ensures PodLike(r)
  {
    var s := r + POD_SEP + t;
    var p, c :| '/' !in p && s == Form(p, CONTAINER_SEP, c);
    assert s[|r|] == '/';
    if c.Some? {
      if |p| < |r| {
        ContainerBefore(r, t, p, c.value);
        assert r == Form(p, CONTAINER_SEP, Some(r[|p| + |CONTAINER_SEP|..]));
      } else {
        PodBefore(r, t, p, c.value);
      }
    }
  }

  /** If "/container:" comes first it comes before "/pod:". */
  lemma ContainerBefore(r: string, t: string, p: string, c: string)
    requires r + POD_SEP + t == p + CONTAINER_SEP + c && |p| < |r|
    ensures |p| + |CONTAINER_SEP| <= |r| && r == p + CONTAINER_SEP + r[|p| + |CONTAINER_SEP|..]
  {
    var s := r + POD_SEP + t;
    if |r| < |p| + |CONTAINER_SEP| {
      Separators();
      InsideSeparator(p, c, CONTAINER_SEP, |r|);
    }
    assert s[|r|] == '/';
    assert r == s[..|r|] && p + CONTAINER_SEP == (p + CONTAINER_SEP + c)[..|p| + |CONTAINER_SEP|];
  }

  /** Otherwise what comes before "/pod:" has no '/'. */
  lemma PodBefore(r: string, t: string, p: string, c: string)
    requires '/' !in p && r + POD_SEP + t == p + CONTAINER_SEP + c && |r| <= |p|
    ensures PodLike(r)
  {
    var s := p + CONTAINER_SEP + c;
    assert r == s[..|r|] == p[..|r|];
    assert r == Form(r, CONTAINER_SEP, None);
  }

  lemma RestIsPodLike(e: Entity)
    requires Rest(e).Some? && '/' !in e.pod
    ensures PodLike(Rest(e).value)
  {
    assert Rest(e).value == Form(e.pod, CONTAINER_SEP, ContainerOf(e));
  }

  /** Of two readings of a namespaced key the shorter namespace leaves the longer one pod-like. */
  lemma LongerIsAPod(a: string, x: Option<string>, b: string, y: Option<string>)
    requires Form(a, POD_SEP, x) == Form(b, POD_SEP, y) && (x.Some? ==> PodLike(x.value)) && |a| <= |b|
    ensures (a == b && x == y) || (a + POD_SEP <= b && PodLike(b[|a| + |POD_SEP|..]))
  {
    hide PodLike;
    Separators();
    if x.Some? {
      if y.None? {
        Begins(a, POD_SEP, x.value);
      } else if |a| < |b| {
        CutTwice(a, x.value, b, y.value, POD_SEP);
        PodLikeInside(b[|a| + |POD_SEP|..], y.value);
      } else {
        CutOnce(a, x.value, b, y.value, POD_SEP);
      }
    }
  }

  lemma NamespacesReadOff(namespaces: iset<string>, e: Entity, f: Entity)
    requires NoneIsAPod(namespaces) && OfNamespace(e) && OfNamespace(f) && |e.namespace| <= |f.namespace|
    requires Alike(e, f, namespaces, SLASH_FREE, SLASH_FREE)
    ensures e == f
  {
    hide KeyOf, Form, PodLike, IsSeparator;
    Separators();
    SameForms(e, f);
    if Rest(e).Some? {
      RestIsPodLike(e);
    }
    LongerIsAPod(e.namespace, Rest(e), f.namespace, Rest(f));
    NoneInsideSlashFree(CONTAINER_SEP);
    RestsDecide(SLASH_FREE, e, f);
  }

  /** Keys are unique for the given namespace names exactly when none is another one, "/pod:" and a pod of it. */
  lemma NamespaceKeysUniqueExactlyWhen(namespaces: iset<string>)
    ensures Unique(namespaces, SLASH_FREE, SLASH_FREE) <==> NoneIsAPod(namespaces)
  {
    hide KeyOf, PodLike;
    if NoneIsAPod(namespaces) {
      forall e, f | Alike(e, f, namespaces, SLASH_FREE, SLASH_FREE)
        ensures e == f
      {
        FamiliesDiffer(e, f);
        if !OfNamespace(e) {
          KeysAreUnique(e, f);
        } else if |e.namespace| <= |f.namespace| {
          NamespacesReadOff(namespaces, e, f);
        } else {
          NamespacesReadOff(namespaces, f, e);
        }
      }
    } else {
      var x, y :| x in namespaces && y in namespaces && y + POD_SEP <= x && PodLike(x[|y| + |POD_SEP|..]);
      var e := NamespaceIsAPod(x, y);
      assert Alike(Namespace(x), e, namespaces, SLASH_FREE, SLASH_FREE);
    }
  }

  lemma NamespaceIsAPod(x: string, y: string) returns (e: Entity)
    requires y + POD_SEP <= x && PodLike(x[|y| + |POD_SEP|..])
    ensures (e.Pod? || e.PodContainer?) && e.namespace == y && '/' !in e.pod && KeyOf(e) == KeyOf(Namespace(x))
  {
    hide KeyOf, PodLike;
    var s := x[|y| + |POD_SEP|..];
    e := EntityOf(y, s);
    KeyOfNamespaced(e);
    KeyOfNamespaced(Namespace(x));
    assert x == y + POD_SEP + s;
  }

  /** The pod or container that a pod-like string names. */
  lemma EntityOf(ns: string, s: string) returns (e: Entity)
    requires PodLike(s)
    ensures (e.Pod? || e.PodContainer?) && e.namespace == ns && '/' !in e.pod && Rest(e) == Some(s)
  {
    var p, c :| '/' !in p && s == Form(p, CONTAINER_SEP, c);
    e := if c.None? then Pod(ns, p) else PodContainer(ns, p, c.value);
  }

  // ----- Names that clash -----

  lemma NamesThatClash()
    ensures KeyOf(Pod("a", "b/container:c")) == KeyOf(PodContainer("a", "b", "c"))
    ensures KeyOf(Namespace("a/pod:b")) == KeyOf(Pod("a", "b"))
    ensures KeyOf(Node("a/container:b")) == KeyOf(NodeContainer("a", "b"))
  {
    hide KeyOf;
    assert "b/container:c" == Form("b", CONTAINER_SEP, Some("c"));
    KeyOfNamespaced(Pod("a", "b/container:c"));
    KeyOfNamespaced(PodContainer("a", "b", "c"));
    assert "a/pod:b" == Form("a", POD_SEP, Some("b"));
    KeyOfNamespaced(Namespace("a/pod:b"));
    KeyOfNamespaced(Pod("a", "b"));
    assert "a/container:b" == Form("a", CONTAINER_SEP, Some("b"));
    KeyOfNode(Node("a/container:b"));
    KeyOfNode(NodeContainer("a", "b"));
  }
}
