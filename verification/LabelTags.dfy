/** metrics/sinks/wavefront/wavefront.go: a set's labels turned into tags, splitting what Copy joined. */
module LabelTags {
  import opened Core
  import opened Sequences
  import opened Strings
  import opened Labels

  const PREFIX := "label."

  /** One piece of the joined label: "key:value" becomes a tag, anything else is dropped. */
  function WithPiece(tags: map<string, string>, piece: string): map<string, string> {
    var c := Cut(piece, ':');
    if c.None? then tags else tags[PREFIX + c.value.0 := c.value.1]
  }

  function WithPieces(tags: map<string, string>, pieces: seq<string>): map<string, string> {
    if pieces == [] then tags
    else WithPiece(WithPieces(tags, pieces[..|pieces| - 1]), pieces[|pieces| - 1])
  }

  function WithLabel(tags: map<string, string>, k: string, v: string, includeLabels: bool): map<string, string> {
    if k != LABELS then tags[k := v]
    else if includeLabels then WithPieces(tags, Split(v, ','))
    else tags
  }

  function WithLabels(tags: map<string, string>, labels: map<string, string>, keys: seq<string>,
        includeLabels: bool): map<string, string>
    requires forall k :: k in keys ==> k in labels
  {
    if keys == [] then tags
    else
      var last := keys[|keys| - 1];
      WithLabel(WithLabels(tags, labels, keys[..|keys| - 1], includeLabels), last, labels[last], includeLabels)
  }

  class WavefrontSink {
    const includeLabels: bool

    constructor (includeLabels: bool)
      ensures this.includeLabels == includeLabels
    {
      this.includeLabels := includeLabels;
    }

    /** Some list of the keys of m, sorted. */
    method SortedLabelKeys(m: map<string, string>) returns (keys: seq<string>)
      ensures IsOrder(keys, m) && IsSorted(keys)
    {
      var todo := m.Keys;
      var found: seq<string> := [];
      while todo != {}
        invariant todo <= m.Keys
        invariant NoRepeats(found) && forall k :: k in found <==> k in m && k !in todo
      {
        var k :| k in todo;
        todo := todo - {k};
        found := found + [k];
      }
      keys := Sort(found);
      SortSorts(found);
      Elements(found, keys);
      NoRepeatsReordered(found, keys);
    }

    /** addLabelTags: tags is a dictionary the caller keeps; the result is its new contents. */
    method AddLabelTags(labels: map<string, string>, tags: map<string, string>) returns (tags': map<string, string>)
      ensures tags' == tags + Direct(labels, labels.Keys) + Parsed(labels, includeLabels)
    {
      var keys := SortedLabelKeys(labels);
      tags' := tags;
      assert keys[..0] == [];
      for i := 0 to |keys|
        invariant tags' == WithLabels(tags, labels, keys[..i], includeLabels)
      {
        assert keys[..i + 1][..i] == keys[..i];
        var labelName := keys[i];
        var labelValue := labels[labelName];
        if labelName == LABELS {
          if includeLabels {
            tags' := AddPieces(tags', Split(labelValue, ','));
          }
        } else {
          tags' := tags'[labelName := labelValue];
        }
      }
      assert keys[..|keys|] == keys;
      SortedKeysTag(tags, labels, keys, includeLabels);
    }

    method AddPieces(tags: map<string, string>, pieces: seq<string>) returns (tags': map<string, string>)
      ensures tags' == WithPieces(tags, pieces)
    {
      tags' := tags;
      assert pieces[..0] == [];
      for i := 0 to |pieces|
        invariant tags' == WithPieces(tags, pieces[..i])
      {
        assert pieces[..i + 1][..i] == pieces[..i];
        var tagParts := Cut(pieces[i], ':');
        if tagParts.Some? {
          tags' := tags'[PREFIX + tagParts.value.0 := tagParts.value.1];
        }
      }
      assert pieces[..|pieces|] == pieces;
    }
  }

  lemma NoRepeatsReordered(s: seq<string>, t: seq<string>)
    requires NoRepeats(s) && multiset(s) == multiset(t)
    ensures NoRepeats(t)
  {
    forall i, j | 0 <= i < j < |t| ensures t[i] != t[j] {
      if t[i] == t[j] {
        CountedOnce(s, t[i]);
        CountTwice(t, i, j);
      }
    }
  }

  lemma CountTwice(t: seq<string>, i: nat, j: nat)
    requires i < j < |t| && t[i] == t[j]
    ensures multiset(t)[t[i]] >= 2
  {
    assert t == t[..j] + t[j..];
    assert t[i] in t[..j] && t[j] in t[j..];
    assert multiset(t[..j])[t[i]] >= 1 && multiset(t[j..])[t[j]] >= 1;
  }

  // ----- What the tags are -----

  /** Labels other than the joined one become tags as they are. */
  function Direct(labels: map<string, string>, keys: set<string>): map<string, string> {
    map k | k in labels && k in keys && k != LABELS :: labels[k]
  }

  /** The tags the joined label splits into. */
  function Parsed(labels: map<string, string>, includeLabels: bool): map<string, string> {
    if includeLabels && LABELS in labels then WithPieces(map[], Split(labels[LABELS], ',')) else map[]
  }

  lemma {:induction false} PiecesOnTop(tags: map<string, string>, pieces: seq<string>)
    ensures WithPieces(tags, pieces) == tags + WithPieces(map[], pieces)
    ensures forall t :: t in WithPieces(map[], pieces) ==> PREFIX <= t
  {
    if pieces != [] {
      PiecesOnTop(tags, pieces[..|pieces| - 1]);
    }
  }

  lemma {:induction false} LeqSameHead(p: string, a: string, b: string)
    ensures Leq(p + a, p + b) <==> Leq(a, b)
  {
    if p == [] {
      assert p + a == a && p + b == b;
    } else {
      LeqSameHead(p[1..], a, b);
      assert (p + a)[1..] == p[1..] + a && (p + b)[1..] == p[1..] + b;
    }
  }

  /** A key after "labels" does not start like a split label. */
  lemma AfterLabels(k: string)
    ensures Leq(LABELS, k) ==> !(PREFIX <= k)
  {
    if PREFIX <= k {
      var rest := k[|PREFIX|..];
      assert LABELS == "label" + "s" && k == "label" + ("." + rest);
      LeqSameHead("label", "s", "." + rest);
    }
  }

  lemma JoinedLabelTags(before: map<string, string>, labels: map<string, string>, seen: set<string>, split: bool)
    requires LABELS in labels && LABELS !in seen
    ensures WithLabel(before, LABELS, labels[LABELS], split) == before + Parsed(labels, split)
    ensures Direct(labels, seen + {LABELS}) == Direct(labels, seen)
  {
    PiecesOnTop(before, Split(labels[LABELS], ','));
  }

  lemma PlainLabelTags(tags: map<string, string>, labels: map<string, string>, seen: set<string>, k: string,
        parsed: map<string, string>)
    requires k in labels && k !in seen && k != LABELS && k !in parsed
    ensures (tags + Direct(labels, seen) + parsed)[k := labels[k]] == tags + Direct(labels, seen + {k}) + parsed
  {
    assert Direct(labels, seen + {k}) == Direct(labels, seen)[k := labels[k]];
  }

  lemma {:induction false} SortedPrefixTags(tags: map<string, string>, labels: map<string, string>, keys: seq<string>,
        split: bool)
    requires NoRepeats(keys) && IsSorted(keys) && forall k :: k in keys ==> k in labels
    ensures WithLabels(tags, labels, keys, split) ==
            tags + Direct(labels, Seen(keys)) + if LABELS in keys then Parsed(labels, split) else map[]
  {
    hide Direct, Parsed, WithPieces, Leq;
    if keys == [] {
      NothingDirect(labels, Seen(keys));
    } else {
      var n := |keys| - 1;
      var last := keys[n];
      SeenNext(keys);
      assert keys == keys[..n] + [last];
      SortedPrefixTags(tags, labels, keys[..n], split);
      if last == LABELS {
        JoinedLabelTags(WithLabels(tags, labels, keys[..n], split), labels, Seen(keys[..n]), split);
      } else {
        var parsed := if LABELS in keys[..n] then Parsed(labels, split) else map[];
        if LABELS in keys[..n] {
          AfterLabels(last);
          if last in Parsed(labels, split) { ParsedStarts(labels, split, last); }
        }
        PlainLabelTags(tags, labels, Seen(keys[..n]), last, parsed);
      }
    }
  }

  lemma NothingDirect(labels: map<string, string>, keys: set<string>)
    requires keys == {}
    ensures Direct(labels, keys) == map[]
  {}

  lemma ParsedStarts(labels: map<string, string>, split: bool, t: string)
    requires t in Parsed(labels, split)
    ensures PREFIX <= t
  {
    PiecesOnTop(map[], Split(labels[LABELS], ','));
  }

  /** In sorted order nothing a label is split into is overwritten by another label. */
  lemma SortedKeysTag(tags: map<string, string>, labels: map<string, string>, keys: seq<string>, split: bool)
    requires IsOrder(keys, labels) && IsSorted(keys)
    ensures WithLabels(tags, labels, keys, split) == tags + Direct(labels, labels.Keys) + Parsed(labels, split)
  {
    SortedPrefixTags(tags, labels, keys, split);
    assert Seen(keys) == labels.Keys;
    assert LABELS !in labels ==> Parsed(labels, split) == map[];
  }

  // ----- The round trip -----

  /** The labels under their tag names. */
  function Prefixed(m: map<string, string>): map<string, string> {
    map t | t in (set k | k in m :: PREFIX + k) :: m[t[|PREFIX|..]]
  }

  ghost predicate IsItem(m: map<string, string>, k: string, piece: string) {
    k in m && piece == Item(k, m[k])
  }

  ghost function ItemsIn(m: map<string, string>, pieces: seq<string>): map<string, string> {
    map k | k in m && Item(k, m[k]) in pieces :: m[k]
  }

  lemma PrefixedNext(m: map<string, string>, k: string, v: string)
    ensures Prefixed(m[k := v]) == Prefixed(m)[PREFIX + k := v]
  {
    assert (PREFIX + k)[|PREFIX|..] == k;
    forall j | j in m ensures (PREFIX + j)[|PREFIX|..] == j {}
  }

  lemma {:induction false} ItemsSplitBack(m: map<string, string>, pieces: seq<string>)
    requires forall k :: k in m ==> ':' !in k
    requires forall p :: p in pieces ==> exists k :: IsItem(m, k, p)
    ensures WithPieces(map[], pieces) == Prefixed(ItemsIn(m, pieces))
  {
    hide Prefixed, Item;
    if pieces == [] {
      NothingPrefixed(ItemsIn(m, pieces));
    } else {
      var n := |pieces| - 1;
      assert pieces == pieces[..n] + [pieces[n]];
      assert forall p :: p in pieces[..n] ==> p in pieces;
      ItemsSplitBack(m, pieces[..n]);
      assert pieces[n] in pieces;
      var k :| IsItem(m, k, pieces[n]);
      ItemCuts(k, m[k]);
      OneMoreItem(m, pieces, k);
      PrefixedNext(ItemsIn(m, pieces[..n]), k, m[k]);
    }
  }

  lemma NothingPrefixed(m: map<string, string>)
    requires m == map[]
    ensures Prefixed(m) == map[]
  {}

  lemma ItemCuts(k: string, v: string)
    requires ':' !in k
    ensures Cut(Item(k, v), ':') == Some((k, v))
  {
    CutAfter(k, ':', v);
  }

  lemma OneMoreItem(m: map<string, string>, pieces: seq<string>, k: string)
    requires pieces != [] && k in m && pieces[|pieces| - 1] == Item(k, m[k])
    requires forall k :: k in m ==> ':' !in k
    ensures ItemsIn(m, pieces) == ItemsIn(m, pieces[..|pieces| - 1])[k := m[k]]
  {
    var n := |pieces| - 1;
    assert pieces == pieces[..n] + [pieces[n]];
    forall j | j in m && Item(j, m[j]) == pieces[n] ensures j == k {
      CutAfter(j, ':', m[j]);
      CutAfter(k, ':', m[k]);
    }
  }

  /** Names without ',' or ':' and values without ','. */
  predicate Splittable(m: map<string, string>) {
    forall k :: k in m ==> ',' !in k && ':' !in k && ',' !in m[k]
  }

  lemma SortedItems(given: map<string, string>, order: seq<string>, ignored: set<string>, x: string)
    requires IsOrder(order, given)
    ensures x in Sort(Items(given, order, ignored)) <==> exists k :: IsItem(Shown(given, ignored), k, x)
  {
    var items := Items(given, order, ignored);
    var m := Shown(given, ignored);
    Elements(items, Sort(items));
    ItemsAre(given, order, ignored, x);
    if k :| IsItem(m, k, x) {
      assert k in order && k !in ignored && x == Item(k, given[k]);
    }
    if k :| k in order && k !in ignored && x == Item(k, given[k]) {
      assert IsItem(m, k, x);
    }
  }

  lemma NoPieces()
    ensures WithPieces(map[], Split("", ',')) == map[]
  {
    assert Split("", ',') == [""];
    assert [""][..0] == [];
    assert Cut("", ':') == None;
  }

  lemma AllItemsIn(m: map<string, string>, pieces: seq<string>)
    requires forall x :: x in pieces <==> exists k :: IsItem(m, k, x)
    ensures ItemsIn(m, pieces) == m
  {
    forall k | k in m ensures Item(k, m[k]) in pieces {
      assert IsItem(m, k, Item(k, m[k]));
    }
  }

  lemma JoinedSplitsBack(given: map<string, string>, order: seq<string>, ignored: set<string>)
    requires IsOrder(order, given) && Splittable(Shown(given, ignored))
    ensures WithPieces(map[], Split(Join(Sort(Items(given, order, ignored)), ","), ',')) ==
            Prefixed(Shown(given, ignored))
  {
    hide Sort, Join, Split, Items, Prefixed, WithPieces, ItemsIn;
    var m := Shown(given, ignored);
    var pieces := Sort(Items(given, order, ignored));
    forall x ensures x in pieces <==> exists k :: IsItem(m, k, x) {
      SortedItems(given, order, ignored, x);
    }
    forall p | p in pieces ensures ',' !in p {
      var k :| IsItem(m, k, p);
    }
    SplitJoin(pieces, ',');
    ItemsSplitBack(m, pieces);
    AllItemsIn(m, pieces);
    if pieces == [] {
      NoItems(m, pieces);
      NothingJoined();
      NoPieces();
      NothingPrefixed(m);
    }
  }

  lemma NoItems(m: map<string, string>, pieces: seq<string>)
    requires pieces == [] && ItemsIn(m, pieces) == m
    ensures m == map[]
  {
    assert ItemsIn(m, pieces) == map[];
  }

  lemma NothingJoined()
    ensures Join([], ",") == ""
  {}

  /** The tags that start like split labels. */
  function LabelTagsOf(tags: map<string, string>): map<string, string> {
    map t | t in tags && PREFIX <= t :: tags[t]
  }

  /** Tag t is there without having been split off: it was there before, or it is another label of the set. */
  ghost predicate Already(t: string, tags: map<string, string>, out: map<string, string>, given: map<string, string>,
                          stored: map<string, string>)
  {
    t in tags || t in out || exists k :: Writes(given, stored, k, t)
  }

  /** Every tag already there that starts like a split label is named like one. */
  ghost predicate NoStrays(tags: map<string, string>, out: map<string, string>, given: map<string, string>,
                           stored: map<string, string>, ignored: set<string>)
  {
    forall t :: PREFIX <= t && Already(t, tags, out, given, stored) ==> t[|PREFIX|..] in Shown(given, ignored)
  }

  lemma PrefixedAt(m: map<string, string>, t: string)
    ensures t in Prefixed(m) <==> PREFIX <= t && t[|PREFIX|..] in m
    ensures t in Prefixed(m) ==> Prefixed(m)[t] == m[t[|PREFIX|..]]
  {
    if PREFIX <= t {
      assert t == PREFIX + t[|PREFIX|..];
    }
    if t in Prefixed(m) {
      var k :| k in m && t == PREFIX + k;
      assert t[|PREFIX|..] == k;
    }
  }

  lemma LabelsIsNoLabelTag()
    ensures !(PREFIX <= LABELS)
  {
    assert LABELS[5] == 's' && PREFIX[5] == '.';
  }

  /** The labels Copy leaves: those that were there, those stored, and the joined one. */
  lemma CopiedHas(out: map<string, string>, given: map<string, string>, order: seq<string>, separator: string,
                  stored: map<string, string>, ignored: set<string>, t: string)
    requires IsOrder(order, given) && t != LABELS
    ensures t in Copied(out, given, order, separator, stored, ignored) <==>
            t in out || exists k :: Writes(given, stored, k, t)
  {
    hide Stored, Join, Sort, Items;
    LastWriterWins(out, given, order, stored, t);
    if k :| Writes(given, stored, k, t) {
      assert k in order;
    }
  }

  lemma JoinedIsShown(out: map<string, string>, given: map<string, string>, order: seq<string>,
                      stored: map<string, string>, ignored: set<string>)
    requires IsOrder(order, given) && Splittable(Shown(given, ignored))
    ensures Parsed(Copied(out, given, order, ",", stored, ignored), true) == Prefixed(Shown(given, ignored))
  {
    JoinedSplitsBack(given, order, ignored);
  }

  /** On top of other tags, the split ones are all the label tags exactly when the others have no further one. */
  lemma OnTop(tags: map<string, string>, direct: map<string, string>, m: map<string, string>)
    ensures LabelTagsOf(tags + direct + Prefixed(m)) == Prefixed(m) <==>
            forall t :: PREFIX <= t && (t in tags || t in direct) ==> t[|PREFIX|..] in m
  {
    hide Prefixed;
    var all := tags + direct + Prefixed(m);
    forall t
      ensures t in Prefixed(m) <==> PREFIX <= t && t[|PREFIX|..] in m
    {
      PrefixedAt(m, t);
    }
    if LabelTagsOf(all) == Prefixed(m) {
      forall t | PREFIX <= t && (t in tags || t in direct)
        ensures t[|PREFIX|..] in m
      {
        assert t in LabelTagsOf(all);
      }
    }
  }

  /**
   * The round trip: Copy and then addLabelTags leave, as the tags that start with "label.", exactly the labels
   * that are not ignored, in whatever order they were read, if and only if nothing else of that name is about.
   */
  lemma LabelsRoundTrip(
      tags: map<string, string>, out: map<string, string>, given: map<string, string>, order: seq<string>,
      stored: map<string, string>, ignored: set<string>, keys: seq<string>)
    requires IsOrder(order, given) && Splittable(Shown(given, ignored))
    requires var labels := Copied(out, given, order, ",", stored, ignored); IsOrder(keys, labels) && IsSorted(keys)
    ensures LabelTagsOf(WithLabels(tags, Copied(out, given, order, ",", stored, ignored), keys, true)) ==
            Prefixed(Shown(given, ignored))
            <==> NoStrays(tags, out, given, stored, ignored)
  {
    hide Copied, Parsed, Prefixed, LabelTagsOf, WithLabels, IsSorted, Shown, Writes;
    var labels := Copied(out, given, order, ",", stored, ignored);
    var direct := Direct(labels, labels.Keys);
    SortedKeysTag(tags, labels, keys, true);
    JoinedIsShown(out, given, order, stored, ignored);
    OnTop(tags, direct, Shown(given, ignored));
    LabelsIsNoLabelTag();
    forall t | PREFIX <= t
      ensures t in direct <==> t in out || exists k :: Writes(given, stored, k, t)
    {
      CopiedHas(out, given, order, ",", stored, ignored, t);
    }
  }

  /** Where it fails: a label stored under a name that starts like a split one comes out although it is ignored. */
  lemma StoredLabelStrays(order: seq<string>, keys: seq<string>)
    requires IsOrder(order, map["x" := "1"])
    requires var labels := Copied(map[], map["x" := "1"], order, ",", map["x" := "label.y"], {"x"});
             IsOrder(keys, labels) && IsSorted(keys)
    ensures var labels := Copied(map[], map["x" := "1"], order, ",", map["x" := "label.y"], {"x"});
            && Shown(map["x" := "1"], {"x"}) == map[]
            && LabelTagsOf(WithLabels(map[], labels, keys, true)) != map[]
  {
    hide Copied, WithLabels, LabelTagsOf, IsSorted;
    var given, stored, ignored := map["x" := "1"], map["x" := "label.y"], {"x"};
    assert Writes(given, stored, "x", "label.y");
    assert PREFIX <= "label.y" && Already("label.y", map[], map[], given, stored);
    LabelsRoundTrip(map[], map[], given, order, stored, ignored, keys);
    NothingPrefixed(Shown(given, ignored));
  }
}
