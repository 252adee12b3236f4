/** Facts about sequences that several components need. */
module Sequences {
  import opened Core

  function One(b: bool): nat {
    if b then 1 else 0
  }

  lemma {:induction false} CountedOnce<T>(s: seq<T>, x: T)
    requires NoRepeats(s)
    ensures multiset(s)[x] == One(x in s)
  {
    if s != [] {
      var n := |s| - 1;
      assert s == s[..n] + [s[n]];
      CountedOnce(s[..n], x);
    }
  }

  function Concat<T>(parts: seq<seq<T>>): seq<T> {
    if parts == [] then [] else Concat(parts[..|parts| - 1]) + parts[|parts| - 1]
  }

  lemma ConcatOne<T>(parts: seq<seq<T>>, p: seq<T>)
    ensures Concat(parts + [p]) == Concat(parts) + p
  {
    assert (parts + [p])[..|parts|] == parts;
  }

  // ----- Picking items -----

  /** The positions of the items that satisfy p, in order. */
  ghost predicate Picks<T>(f: seq<nat>, items: seq<T>, p: T -> bool) {
    && (forall i, j :: 0 <= i < j < |f| ==> f[i] < f[j])
    && forall i: nat :: i in f <==> i < |items| && p(items[i])
  }

  lemma PicksNext<T>(f: seq<nat>, items: seq<T>, x: T, p: T -> bool)
    requires Picks(f, items, p)
    ensures Picks(if p(x) then f + [|items|] else f, items + [x], p)
  {
    assert forall i :: 0 <= i < |f| ==> f[i] in f;
  }

  // ----- Subsequences -----

  /** Positions at which a is found in b, in order. */
  ghost predicate Embeds<T>(f: seq<nat>, a: seq<T>, b: seq<T>) {
    && |f| == |a|
    && (forall i, j :: 0 <= i < j < |f| ==> f[i] < f[j])
    && forall i :: 0 <= i < |f| ==> f[i] < |b| && a[i] == b[f[i]]
  }

  /** a is an in-order selection of b. */
  ghost predicate Subsequence<T>(a: seq<T>, b: seq<T>) {
    exists f :: Embeds(f, a, b)
  }

  lemma SubsequenceGrows<T>(a: seq<T>, b: seq<T>, x: T)
    requires Subsequence(a, b)
    ensures Subsequence(a + [x], b + [x]) && Subsequence(a, b + [x])
  {
    var f: seq<nat> :| Embeds(f, a, b);
    assert Embeds(f + [|b|], a + [x], b + [x]);
    assert Embeds(f, a, b + [x]);
  }

  lemma SubsequenceSplits<T>(a: seq<T>, b: seq<T>)
    requires Subsequence(a, b) && b != []
    ensures Subsequence(a, b[..|b| - 1]) ||
            (a != [] && a[|a| - 1] == b[|b| - 1] && Subsequence(a[..|a| - 1], b[..|b| - 1]))
  {
    var f: seq<nat> :| Embeds(f, a, b);
    var n := |b| - 1;
    if f != [] && f[|f| - 1] == n {
      assert Embeds(f[..|f| - 1], a[..|a| - 1], b[..n]);
    } else {
      assert Embeds(f, a, b[..n]);
    }
  }

  lemma {:induction false} PositionsGrow<T>(f: seq<nat>, a: seq<T>, b: seq<T>, i: nat)
    requires Embeds(f, a, b) && i < |f|
    ensures i <= f[i]
  {
    if i > 0 {
      PositionsGrow(f, a, b, i - 1);
    }
  }

  lemma NoLonger<T>(a: seq<T>, b: seq<T>)
    requires Subsequence(a, b)
    ensures |a| <= |b|
  {
    var f: seq<nat> :| Embeds(f, a, b);
    if a != [] {
      PositionsGrow(f, a, b, |a| - 1);
    }
  }

  lemma EmptyWithinEmpty<T>()
    ensures Subsequence<T>([], [])
  {
    assert Embeds<T>([], [], []);
  }
}
