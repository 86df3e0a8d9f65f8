/** The sum of the values of a finite map, whatever order they are added in. */
module MapSums {
  ghost function Sum<K(!new)>(w: map<K, nat>): nat
    decreases |w|
  {
    if w == map[] then 0
    else
      var k :| k in w;
      w[k] + Sum(w - {k})
  }

  lemma {:induction false} SumPick<K(!new)>(w: map<K, nat>, k: K)
    requires k in w
    ensures Sum(w) == w[k] + Sum(w - {k})
    decreases |w|
  {
    var c :| c in w && Sum(w) == w[c] + Sum(w - {c});
    if c != k {
      SumPick(w - {c}, k);
      SumPick(w - {k}, c);
      assert w - {c} - {k} == w - {k} - {c};
    }
  }

  lemma SumWithout<K(!new)>(w: map<K, nat>, k: K)
    ensures Sum(w - {k}) == if k in w then Sum(w) - w[k] else Sum(w)
  {
    if k in w { SumPick(w, k); } else { assert w - {k} == w; }
  }

  lemma SumPut<K(!new)>(w: map<K, nat>, k: K, v: nat)
    ensures Sum(w[k := v]) == Sum(w - {k}) + v
  {
    SumPick(w[k := v], k);
    assert w[k := v] - {k} == w - {k};
  }

  lemma SumBound<K(!new)>(w: map<K, nat>, k: K)
    requires k in w
    ensures w[k] <= Sum(w)
  {
    SumPick(w, k);
  }

  lemma {:induction false} SumZero<K(!new)>(w: map<K, nat>)
    requires forall k | k in w :: w[k] == 0
    ensures Sum(w) == 0
    decreases |w|
  {
    if w != map[] {
      var k :| k in w;
      SumPick(w, k);
      SumZero(w - {k});
    }
  }

  lemma {:induction false} SumLess<K(!new)>(w: map<K, nat>, gone: set<K>)
    ensures Sum(w - gone) <= Sum(w)
    decreases |gone|
  {
    if gone == {} {
      assert w - gone == w;
    } else {
      var k :| k in gone;
      SumLess(w, gone - {k});
      SumWithout(w - (gone - {k}), k);
      assert w - (gone - {k}) - {k} == w - gone;
    }
  }
}
