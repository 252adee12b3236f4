/** metrics/util/label_copier.go: a pod's labels copied into a metric set's labels. */
module Labels {
  import opened Core
  import opened Sequences
  import opened Strings

  function Item(k: string, v: string): string {
    k + [':'] + v
  }

  /** The items of the labels among keys that are not ignored, in that order. */
  function Items(given: map<string, string>, keys: seq<string>, ignored: set<string>): seq<string>
    requires forall k :: k in keys ==> k in given
  {
    if keys == [] then []
    else
      var last := keys[|keys| - 1];
      Items(given, keys[..|keys| - 1], ignored) + if last in ignored then [] else [Item(last, given[last])]
  }

  /** out with the stored labels among keys written into it, in that order. */
  function Stored(out: map<string, string>, given: map<string, string>, keys: seq<string>,
        stored: map<string, string>): map<string, string>
    requires forall k :: k in keys ==> k in given
  {
    if keys == [] then out
    else
      var last := keys[|keys| - 1];
      var r := Stored(out, given, keys[..|keys| - 1], stored);
      if last in stored then r[stored[last] := given[last]] else r
  }

  /** What Copy leaves in out when it goes through the labels in the order keys. */
  function Copied(out: map<string, string>, given: map<string, string>, keys: seq<string>,
                  separator: string, stored: map<string, string>, ignored: set<string>): map<string, string>
    requires forall k :: k in keys ==> k in given
  {
    Stored(out, given, keys, stored)[LABELS := Join(Sort(Items(given, keys, ignored)), separator)]
  }

  // ----- The joined label does not depend on the order -----

  /** The labels that are joined. */
  function Shown(given: map<string, string>, ignored: set<string>): map<string, string> {
    map k | k in given && k !in ignored :: given[k]
  }

  lemma {:induction false} ItemsAre(given: map<string, string>, keys: seq<string>, ignored: set<string>, x: string)
    requires forall k :: k in keys ==> k in given
    ensures x in Items(given, keys, ignored) <==> exists k :: k in keys && k !in ignored && x == Item(k, given[k])
  {
    if keys != [] {
      var n := |keys| - 1;
      assert keys == keys[..n] + [keys[n]];
      ItemsAre(given, keys[..n], ignored, x);
    }
  }

  /** Two orders of the same keys give the same items, counted. */
  lemma {:induction false} ItemsReordered(given: map<string, string>, a: seq<string>, b: seq<string>,
        ignored: set<string>)
    requires (forall k :: k in a ==> k in given) && (forall k :: k in b ==> k in given)
    requires multiset(a) == multiset(b)
    ensures multiset(Items(given, a, ignored)) == multiset(Items(given, b, ignored))
    decreases |a|
  {
    Elements(a, b);
    if a != [] {
      var n := |a| - 1;
      var x := a[n];
      assert x in b;
      var i :| 0 <= i < |b| && b[i] == x;
      OneOut(a, b, i);
      assert a == a[..n] + [x];
      ItemTakenOut(given, b, i, ignored);
      ItemsReordered(given, a[..n], b[..i] + b[i + 1..], ignored);
    }
  }

  lemma OneOut(a: seq<string>, b: seq<string>, i: nat)
    requires a != [] && i < |b| && b[i] == a[|a| - 1] && multiset(a) == multiset(b)
    ensures multiset(a[..|a| - 1]) == multiset(b[..i] + b[i + 1..])
  {
    var x := b[i];
    assert a == a[..|a| - 1] + [x];
    assert b == b[..i] + [x] + b[i + 1..];
    assert multiset(a[..|a| - 1]) == multiset(a) - multiset{x};
    assert multiset(b[..i] + b[i + 1..]) == multiset(b) - multiset{x};
  }

  lemma {:induction false} ItemsConcat(given: map<string, string>, a: seq<string>, b: seq<string>, ignored: set<string>)
    requires (forall k :: k in a ==> k in given) && (forall k :: k in b ==> k in given)
    ensures forall k :: k in a + b ==> k in given
    ensures Items(given, a + b, ignored) == Items(given, a, ignored) + Items(given, b, ignored)
  {
    if b == [] {
      assert a + b == a;
    } else {
      var n := |b| - 1;
      ItemsConcat(given, a, b[..n], ignored);
      assert (a + b)[..|a + b| - 1] == a + b[..n];
    }
  }

  lemma ItemTakenOut(given: map<string, string>, b: seq<string>, i: nat, ignored: set<string>)
    requires i < |b| && forall k :: k in b ==> k in given
    ensures forall k :: k in b[..i] + b[i + 1..] ==> k in given
    ensures multiset(Items(given, b, ignored)) ==
            multiset(Items(given, b[..i] + b[i + 1..], ignored)) + if b[i] in ignored then multiset{}
                else multiset{Item(b[i], given[b[i]])}
  {
    var one := [b[i]];
    assert b == b[..i] + one + b[i + 1..];
    ItemsConcat(given, b[..i], one, ignored);
    ItemsConcat(given, b[..i] + one, b[i + 1..], ignored);
    ItemsConcat(given, b[..i], b[i + 1..], ignored);
    assert Items(given, one[..0], ignored) == [];
  }

  lemma OrdersAreReorderings(m: map<string, string>, a: seq<string>, b: seq<string>)
    requires IsOrder(a, m) && IsOrder(b, m)
    ensures multiset(a) == multiset(b)
  {
    forall x ensures multiset(a)[x] == multiset(b)[x] {
      CountedOnce(a, x);
      CountedOnce(b, x);
    }
  }

  /** The joined label is a function of the labels alone. */
  lemma JoinedIsOrderFree(given: map<string, string>, a: seq<string>, b: seq<string>, ignored: set<string>)
    requires IsOrder(a, given) && IsOrder(b, given)
    ensures Sort(Items(given, a, ignored)) == Sort(Items(given, b, ignored))
  {
    OrdersAreReorderings(given, a, b);
    ItemsReordered(given, a, b, ignored);
    SortSorts(Items(given, a, ignored));
    SortSorts(Items(given, b, ignored));
    SortedIsUnique(Sort(Items(given, a, ignored)), Sort(Items(given, b, ignored)));
  }

  // ----- The stored labels: exactly when the order does not show -----

  predicate Writes(given: map<string, string>, stored: map<string, string>, k: string, t: string) {
    k in given && k in stored && stored[k] == t
  }

  /** A stored label has the value of the last label that is stored under it. */
  lemma {:induction false} LastWriterWins(out: map<string, string>, given: map<string, string>, keys: seq<string>,
        stored: map<string, string>, t: string)
    requires forall k :: k in keys ==> k in given
    ensures var r := Stored(out, given, keys, stored);
            if exists k :: k in keys && Writes(given, stored, k, t)
            then t in r && exists k :: k in keys && Writes(given, stored, k, t) && r[t] == given[k]
            else (t in r <==> t in out) && (t in r ==> r[t] == out[t])
  {
    if keys != [] {
      var n := |keys| - 1;
      assert keys == keys[..n] + [keys[n]];
      LastWriterWins(out, given, keys[..n], stored, t);
      if keys[n] in stored && stored[keys[n]] == t {
        assert keys[n] in keys && Writes(given, stored, keys[n], t);
      }
    }
  }

  /** Labels stored under one name, other than the joined one, have one value. */
  ghost predicate StoredAgree(given: map<string, string>, stored: map<string, string>) {
    forall a, b, t :: Writes(given, stored, a, t) && Writes(given, stored, b, t) && t != LABELS ==> given[a] == given[b]
  }

  /** No two of the given labels are stored under one name. */
  ghost predicate Injective(given: map<string, string>, stored: map<string, string>) {
    forall a, b :: a in given && b in given && a in stored && b in stored && stored[a] == stored[b] ==> a == b
  }

  lemma InjectiveAgrees(given: map<string, string>, stored: map<string, string>)
    requires Injective(given, stored)
    ensures StoredAgree(given, stored)
  {
    forall a, b, t | Writes(given, stored, a, t) && Writes(given, stored, b, t)
      ensures given[a] == given[b]
    {
      assert stored[a] == stored[b];
    }
  }

  ghost predicate OrderFree(out: map<string, string>, given: map<string, string>, separator: string,
        stored: map<string, string>, ignored: set<string>) {
    forall a, b :: IsOrder(a, given) && IsOrder(b, given) ==>
      Copied(out, given, a, separator, stored, ignored) == Copied(out, given, b, separator, stored, ignored)
  }

  lemma AgreeMeansOrderFree(
      out: map<string, string>, given: map<string, string>, a: seq<string>, b: seq<string>,
      separator: string, stored: map<string, string>, ignored: set<string>)
    requires IsOrder(a, given) && IsOrder(b, given) && StoredAgree(given, stored)
    ensures Copied(out, given, a, separator, stored, ignored) == Copied(out, given, b, separator, stored, ignored)
  {
    hide Stored, Items, Sort, Join;
    JoinedIsOrderFree(given, a, b, ignored);
    var x, y := Copied(out, given, a, separator, stored, ignored), Copied(out, given, b, separator, stored, ignored);
    forall t
      ensures t in x <==> t in y
      ensures t in x ==> x[t] == y[t]
    {
      LastWriterWins(out, given, a, stored, t);
      LastWriterWins(out, given, b, stored, t);
    }
  }

  /** Some order of the keys ends with k. */
  lemma OrderEndingWith(m: map<string, string>, k: string) returns (order: seq<string>)
    requires k in m
    ensures IsOrder(order, m) && order[|order| - 1] == k
  {
    order := SomeOrder(m.Keys - {k}) + [k];
  }

  /** The result of Copy is the same in every order exactly when stored labels agree. */
  lemma OrderFreeExactlyWhenAgree(out: map<string, string>, given: map<string, string>, separator: string,
        stored: map<string, string>, ignored: set<string>)
    ensures OrderFree(out, given, separator, stored, ignored) <==> StoredAgree(given, stored)
  {
    if StoredAgree(given, stored) {
      forall a, b | IsOrder(a, given) && IsOrder(b, given)
        ensures Copied(out, given, a, separator, stored, ignored) == Copied(out, given, b, separator, stored, ignored)
      {
        AgreeMeansOrderFree(out, given, a, b, separator, stored, ignored);
      }
    } else {
      var a, b, t :| Writes(given, stored, a, t) && Writes(given, stored, b, t) && t != LABELS && given[a] != given[b];
      var x := OrderEndingWith(given, a);
      var y := OrderEndingWith(given, b);
      assert Copied(out, given, x, separator, stored, ignored)[t] == given[a];
      assert Copied(out, given, y, separator, stored, ignored)[t] == given[b];
    }
  }

  /** Where it fails: two labels with different values stored under one name. */
  lemma SharedNameShows(out: map<string, string>, separator: string, ignored: set<string>)
    ensures !OrderFree(out, map["a" := "1", "b" := "2"], separator, map["a" := "x", "b" := "x"], ignored)
  {
    hide OrderFree;
    var given, stored := map["a" := "1", "b" := "2"], map["a" := "x", "b" := "x"];
    assert Writes(given, stored, "a", "x") && Writes(given, stored, "b", "x") && given["a"] != given["b"];
    OrderFreeExactlyWhenAgree(out, given, separator, stored, ignored);
  }

  lemma OneMoreLabel(out: map<string, string>, given: map<string, string>, keys: seq<string>, key: string,
        stored: map<string, string>, ignored: set<string>)
    requires (forall k :: k in keys ==> k in given) && key in given
    ensures Items(given, keys + [key], ignored) == Items(given, keys, ignored) + if key in ignored then []
            else [Item(key, given[key])]
    ensures Stored(out, given, keys + [key], stored) ==
            var r := Stored(out, given, keys, stored); if key in stored then r[stored[key] := given[key]] else r
  {
    assert (keys + [key])[..|keys|] == keys;
  }

  lemma NoLabels(out: map<string, string>, given: map<string, string>, stored: map<string, string>,
        ignored: set<string>)
    ensures Items(given, [], ignored) == [] && Stored(out, given, [], stored) == out
  {}

  class LabelCopier {
    const labelSeparator: string
    const storedLabels: map<string, string>
    const ignoredLabels: set<string>

    /** Labels to store come as "name" or "newName=name"; the last entry for a name counts. */
    constructor (separator: string, stored: seq<string>, ignored: seq<string>)
      ensures labelSeparator == separator && storedLabels == StoredNames(stored)
      ensures forall l :: l in ignoredLabels <==> l in ignored
    {
      var names: map<string, string> := map[];
      assert stored[..0] == [];
      for i := 0 to |stored|
        invariant names == StoredNames(stored[..i])
      {
        assert stored[..i + 1][..i] == stored[..i];
        var split := Cut(stored[i], '=');
        if split.None? {
          names := names[stored[i] := stored[i]];
        } else {
          names := names[split.value.1 := split.value.0];
        }
      }
      assert stored[..|stored|] == stored;
      var skip: set<string> := {};
      for i := 0 to |ignored|
        invariant forall l :: l in skip <==> l in ignored[..i]
      {
        skip := skip + {ignored[i]};
      }
      labelSeparator, storedLabels, ignoredLabels := separator, names, skip;
    }

    /**
     * Copy: out is a dictionary the caller keeps; the result is its new contents. The order in which Go
     * ranges over the labels is given; the joined label is the same for every order.
     */
    method Copy(given: map<string, string>, out: map<string, string>, order: seq<string>)
        returns (out': map<string, string>)
      requires IsOrder(order, given)
      ensures out' == Copied(out, given, order, labelSeparator, storedLabels, ignoredLabels)
      ensures LABELS in out'
      ensures out'[LABELS] == Join(Sort(Items(given, SomeOrder(given.Keys), ignoredLabels)), labelSeparator)
    {
      hide Sort, Join, Item, Stored, Items;
      NoLabels(out, given, storedLabels, ignoredLabels);
      var labels: seq<string> := [];
      out' := out;
      assert order[..0] == [];
      for i := 0 to |order|
        invariant out' == Stored(out, given, order[..i], storedLabels)
        invariant labels == Items(given, order[..i], ignoredLabels)
      {
        var key := order[i];
        var value := given[key];
        if key in storedLabels {
          out' := out'[storedLabels[key] := value];
        }
        if key !in ignoredLabels {
          labels := labels + [Item(key, value)];
        }
        OneMoreLabel(out, given, order[..i], key, storedLabels, ignoredLabels);
        assert order[..i] + [key] == order[..i + 1];
      }
      assert order[..|order|] == order;
      out' := out'[LABELS := Join(Sort(labels), labelSeparator)];
      JoinedIsOrderFree(given, order, SomeOrder(given.Keys), ignoredLabels);
    }
  }

  function StoredNames(labels: seq<string>): map<string, string> {
    if labels == [] then map[]
    else
      var last := labels[|labels| - 1];
      var split := Cut(last, '=');
      var names := StoredNames(labels[..|labels| - 1]);
      if split.None? then names[last := last] else names[split.value.1 := split.value.0]
  }

  /** A flag that says: store the label old under new. */
  predicate Renames(flag: string, old_: string, new_: string) {
    ('=' !in flag && old_ == new_ == flag) || ('=' !in new_ && flag == new_ + "=" + old_)
  }

  lemma RenamesOne(flag: string) returns (old_: string, new_: string)
    ensures Renames(flag, old_, new_)
    ensures (if Cut(flag, '=').None? then (flag, flag) else Cut(flag, '=').value) == (new_, old_)
    ensures forall o, n :: Renames(flag, o, n) ==> o == old_ && n == new_
  {
    var c := Cut(flag, '=');
    CutWhere(flag, '=');
    if c.None? {
      old_, new_ := flag, flag;
    } else {
      old_, new_ := c.value.1, c.value.0;
    }
    forall o, n | Renames(flag, o, n)
      ensures o == old_ && n == new_
    {
      if '=' in flag {
        CutAfter(n, '=', o);
      }
    }
  }

  /** Each label is stored as the last flag that names it says, and a label that no flag names is not stored. */
  lemma {:induction false} StoredNamesMeaning(flags: seq<string>, old_: string)
    ensures old_ in StoredNames(flags) <==> exists i, new_ :: 0 <= i < |flags| && Renames(flags[i], old_, new_)
    ensures forall i, new_ :: 0 <= i < |flags| && Renames(flags[i], old_, new_)
              && (forall j, n :: i < j < |flags| ==> !Renames(flags[j], old_, n))
              ==> StoredNames(flags)[old_] == new_
  {
    if flags != [] {
      var m := |flags| - 1;
      StoredNamesMeaning(flags[..m], old_);
      var o, n := RenamesOne(flags[m]);
      assert forall i :: 0 <= i < m ==> flags[..m][i] == flags[i];
    }
  }
}
