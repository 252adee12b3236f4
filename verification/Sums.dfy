/** Order-free sums of metric amounts, and the 64-bit wrap-around of Go's int64. */
module Sums {

  const TWO63: int := 0x8000_0000_0000_0000
  const TWO64: int := 0x1_0000_0000_0000_0000

  type int64 = n: int | -0x8000_0000_0000_0000 <= n < 0x8000_0000_0000_0000

  /** The int64 that Go keeps of the mathematical integer n (two's complement). */
  function Wrap64(n: int): (w: int64)
    ensures -TWO63 <= n < TWO63 ==> w == n
  {
    (n + TWO63) % TWO64 - TWO63
  }

  function Turns(q: int): int {
    q * TWO64
  }

  /** a and b are the same 64 bits. */
  ghost predicate Same64(a: int, b: int) {
    exists q: int :: a == b + Turns(q)
  }

  lemma Same64By(a: int, b: int, q: int)
    requires a == b + q * TWO64
    ensures Same64(a, b)
  {
    assert a == b + Turns(q);
  }

  lemma WrapIsSame(n: int)
    ensures Same64(Wrap64(n), n)
  {
    Same64By(Wrap64(n), n, -((n + TWO63) / TWO64));
  }

  lemma Same64Sum(a: int, b: int, c: int, d: int)
    requires Same64(a, c) && Same64(b, d)
    ensures Same64(a + b, c + d)
  {
    var q: int :| a == c + Turns(q);
    var r: int :| b == d + Turns(r);
    Same64By(a + b, c + d, q + r);
  }

  lemma Same64Reflexive(a: int)
    ensures Same64(a, a)
  {
    Same64By(a, a, 0);
  }

  lemma Same64Symmetric(a: int, b: int)
    requires Same64(a, b)
    ensures Same64(b, a)
  {
    var q: int :| a == b + Turns(q);
    Same64By(b, a, -q);
  }

  lemma Same64Transitive(a: int, b: int, c: int)
    requires Same64(a, b) && Same64(b, c)
    ensures Same64(a, c)
  {
    var q: int :| a == b + Turns(q);
    var r: int :| b == c + Turns(r);
    Same64By(a, c, q + r);
  }

  /** An int64 is fixed by its bits: in range, the same bits are the same number. */
  lemma Same64InRange(a: int64, b: int)
    requires Same64(a, b)
    ensures a == Wrap64(b)
  {
    var q: int :| a == b + Turns(q);
    WrapIsSame(b);
    var r: int :| Wrap64(b) == b + Turns(r);
    assert a - Wrap64(b) == (q - r) * TWO64;
  }

  /** An integer part and a float part, added independently. */
  datatype Amount = Amount(i: int, x: real) {
    function Plus(b: Amount): Amount {
      Amount(i + b.i, x + b.x)
    }
  }

  const ZERO := Amount(0, 0.0)

  /** The sum of all the amounts in w, in no particular order. */
  ghost function Sum<K(!new)>(w: map<K, Amount>): (s: Amount)
    decreases |w|
  {
    if w == map[] then ZERO
    else
      var k :| k in w;
      assert |w - {k}| < |w| by { SmallerWithout(w, k); }
      w[k].Plus(Sum(w - {k}))
  }

  lemma SmallerWithout<K, V>(w: map<K, V>, k: K)
    requires k in w
    ensures |w - {k}| == |w| - 1
  {
    assert w.Keys == (w - {k}).Keys + {k};
  }

  /** Any key can be taken out first. */
  lemma {:induction false} SumWithout<K(!new)>(w: map<K, Amount>, k: K)
    requires k in w
    ensures Sum(w) == w[k].Plus(Sum(w - {k}))
    decreases |w|
  {
    var j :| j in w && Sum(w) == w[j].Plus(Sum(w - {j}));
    if j != k {
      SmallerWithout(w, j);
      SmallerWithout(w, k);
      SumWithout(w - {j}, k);
      SumWithout(w - {k}, j);
      assert w - {j} - {k} == w - {k} - {j};
      assert (w - {j})[k] == w[k] && (w - {k})[j] == w[j];
      var rest := Sum(w - {j} - {k});
      assert Sum(w) == w[j].Plus(w[k].Plus(rest));
      assert Sum(w - {k}) == w[j].Plus(rest);
    }
  }

  lemma SumInsert<K(!new)>(w: map<K, Amount>, k: K, a: Amount)
    requires k !in w
    ensures Sum(w[k := a]) == a.Plus(Sum(w))
  {
    SumWithout(w[k := a], k);
    assert w[k := a] - {k} == w;
  }

  lemma UnionWithout<K, V>(v: map<K, V>, w: map<K, V>, k: K)
    requires v.Keys !! w.Keys && k in v
    ensures (v + w) - {k} == (v - {k}) + w && (v + w)[k] == v[k]
  {}

  lemma {:induction false} SumUnion<K(!new)>(v: map<K, Amount>, w: map<K, Amount>)
    requires v.Keys !! w.Keys
    ensures Sum(v + w) == Sum(v).Plus(Sum(w))
    decreases |v|
  {
    if v == map[] {
      assert v + w == w;
    } else {
      var k :| k in v;
      SmallerWithout(v, k);
      UnionWithout(v, w, k);
      calc {
        Sum(v + w);
        { SumWithout(v + w, k); }
        v[k].Plus(Sum((v - {k}) + w));
        { SumUnion(v - {k}, w); }
        v[k].Plus(Sum(v - {k}).Plus(Sum(w)));
        { SumWithout(v, k); }
        Sum(v).Plus(Sum(w));
      }
    }
  }

  /** The part of w whose keys belong to the group g. */
  ghost function Fibre<K, G>(w: map<K, Amount>, group: map<K, G>, g: G): map<K, Amount>
    requires w.Keys <= group.Keys
  {
    map k | k in w && group[k] == g :: w[k]
  }

  ghost function GroupSums<K(!new), G>(w: map<K, Amount>, group: map<K, G>, gs: set<G>): map<G, Amount>
    requires w.Keys <= group.Keys
  {
    map g | g in gs :: Sum(Fibre(w, group, g))
  }

  /** Taking one group out leaves the sums of the other groups as they were. */
  lemma GroupOut<K(!new), G>(w: map<K, Amount>, group: map<K, G>, gs: set<G>, g: G)
    requires w.Keys <= group.Keys && g in gs
    ensures var rest := w - Fibre(w, group, g).Keys;
            && GroupSums(w, group, gs) - {g} == GroupSums(rest, group, gs - {g})
            && Fibre(w, group, g) + rest == w
  {
    var rest := w - Fibre(w, group, g).Keys;
    forall h | h in gs - {g}
      ensures Sum(Fibre(rest, group, h)) == Sum(Fibre(w, group, h))
    {
      assert Fibre(rest, group, h) == Fibre(w, group, h);
    }
    assert Fibre(w, group, g) + rest == w;
  }

  /** Summing group by group loses and duplicates nothing. */
  lemma {:induction false} SumByGroups<K(!new), G(!new)>(w: map<K, Amount>, group: map<K, G>, gs: set<G>)
    requires w.Keys <= group.Keys
    requires forall k :: k in w ==> group[k] in gs
    ensures Sum(GroupSums(w, group, gs)) == Sum(w)
    decreases gs
  {
    if gs == {} {
      assert w == map[];
      assert GroupSums(w, group, gs) == map[];
    } else {
      var g :| g in gs;
      var fibre := Fibre(w, group, g);
      var rest := w - fibre.Keys;
      SumByGroups(rest, group, gs - {g});
      SumWithout(GroupSums(w, group, gs), g);
      GroupOut(w, group, gs, g);
      SumUnion(fibre, rest);
    }
  }

  /** Renaming the keys one to one changes no sum. */
  lemma {:induction false} SumRenamed<K(!new), L(!new)>(w: map<K, Amount>, u: map<L, Amount>, name: map<K, L>)
    requires name.Keys == w.Keys
    requires forall j, k :: j in w && k in w && j != k ==> name[j] != name[k]
    requires forall k :: k in w ==> name[k] in u && u[name[k]] == w[k]
    requires forall l :: l in u ==> exists k :: k in w && name[k] == l
    ensures Sum(w) == Sum(u)
    decreases |w|
  {
    if w == map[] {
      assert u == map[];
    } else {
      var k :| k in w;
      SmallerWithout(w, k);
      forall l | l in u - {name[k]} ensures exists j :: j in w - {k} && (name - {k})[j] == l {
        var j :| j in w && name[j] == l;
        assert j in w - {k} && (name - {k})[j] == l;
      }
      SumRenamed(w - {k}, u - {name[k]}, name - {k});
      SumWithout(w, k);
      SumWithout(u, name[k]);
    }
  }
}
