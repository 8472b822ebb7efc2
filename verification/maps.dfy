/** Finite maps and sets. */
module Maps {
  /** Maps with the same entries are the same. */
  lemma SameMap<V>(a: map<int, V>, b: map<int, V>)
    requires forall k :: k in a ==> k in b && b[k] == a[k]
    requires forall k :: k in b ==> k in a
    ensures a == b
  {
    forall k ensures k in a <==> k in b {}
    assert a.Keys == b.Keys;
    assert forall k :: k in a.Keys ==> a[k] == b[k];
    assert a == b;
  }

  lemma Grown<V>(m: map<int, V>, k: int, v: V)
    requires k !in m
    ensures |m[k := v]| == |m| + 1
  {
    assert m[k := v].Keys == m.Keys + {k};
  }

  lemma {:induction false} Subset(a: set<int>, b: set<int>)
    requires a <= b
    ensures |a| <= |b|
  {
    if a == {} {
    } else {
      assert (forall x :: x !in a) ==> a == {};
      var x :| x in a;
      Subset(a - {x}, b - {x});
    }
  }
}
