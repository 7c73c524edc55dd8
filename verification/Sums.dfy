/** Sums over the values of a finite map: the arithmetic every money invariant of this project rests on. */
module Sums {

  ghost function Sum<K(!new)>(m: map<K, int>): int
    decreases |m|
  {
    if m == map[] then 0
    else
      var k :| k in m;
      m[k] + Sum(m - {k})
  }

  /** The choice of the first key does not matter: any key can be split off. */
  lemma {:induction false} SumSplit<K(!new)>(m: map<K, int>, k: K)
    requires k in m
    ensures Sum(m) == m[k] + Sum(m - {k})
    decreases |m|
  {
    var j :| j in m && Sum(m) == m[j] + Sum(m - {j});
    if j != k {
      SumSplit(m - {j}, k);
      SumSplit(m - {k}, j);
      assert m - {j} - {k} == m - {k} - {j};
    }
  }

  function ValueOr0<K>(m: map<K, int>, k: K): int {
    if k in m then m[k] else 0
  }

  lemma SumUpdate<K(!new)>(m: map<K, int>, k: K, v: int)
    ensures Sum(m[k := v]) == Sum(m) - ValueOr0(m, k) + v
  {
    SumSplit(m[k := v], k);
    if k in m {
      SumSplit(m, k);
      assert m[k := v] - {k} == m - {k};
    } else {
      assert m[k := v] - {k} == m;
    }
  }

  lemma SumRemove<K(!new)>(m: map<K, int>, k: K)
    ensures Sum(m - {k}) == Sum(m) - ValueOr0(m, k)
  {
    if k in m {
      SumSplit(m, k);
    } else {
      assert m - {k} == m;
    }
  }

  /** A sum of non-negative values is non-negative, and each value is at most the sum. */
  lemma SumOneKey<K(!new)>(a: map<K, int>, b: map<K, int>, k: K)
    requires forall j | j != k :: (j in a <==> j in b) && (j in a ==> a[j] == b[j])
    ensures Sum(b) == Sum(a) - ValueOr0(a, k) + ValueOr0(b, k)
  {
    assert a - {k} == b - {k};
    SumRemove(a, k);
    SumRemove(b, k);
  }

  lemma {:induction false} SumBounds<K(!new)>(m: map<K, int>)
    requires forall k :: k in m ==> m[k] >= 0
    ensures Sum(m) >= 0
    ensures forall k :: k in m ==> m[k] <= Sum(m)
    decreases |m|
  {
    if m != map[] {
      var k :| k in m;
      SumSplit(m, k);
      SumBounds(m - {k});
      forall j | j in m ensures m[j] <= Sum(m) {
        if j != k {
          assert (m - {k})[j] == m[j];
        }
      }
    }
  }

  lemma {:induction false} SumZero<K(!new)>(m: map<K, int>)
    requires forall k :: k in m ==> m[k] == 0
    ensures Sum(m) == 0
    decreases |m|
  {
    if m != map[] {
      var k :| k in m;
      SumSplit(m, k);
      SumZero(m - {k});
    }
  }

  /** Two maps over the same keys add up pointwise. */
  lemma {:induction false} SumAdd<K(!new)>(a: map<K, int>, b: map<K, int>, c: map<K, int>)
    requires a.Keys == b.Keys == c.Keys
    requires forall k :: k in a ==> c[k] == a[k] + b[k]
    ensures Sum(c) == Sum(a) + Sum(b)
    decreases |a|
  {
    if a == map[] {
      assert b == map[] && c == map[];
    } else {
      var k :| k in a;
      SumSplit(a, k);
      SumSplit(b, k);
      SumSplit(c, k);
      SumAdd(a - {k}, b - {k}, c - {k});
    }
  }

  /** A walk over a map that has still to visit `todo`: the values it has seen so far. */
  ghost function Seen<K(!new)>(m: map<K, int>, todo: set<K>): map<K, int> {
    map k | k in m :: if k in todo then 0 else m[k]
  }

  lemma SeenNothing<K(!new)>(m: map<K, int>, todo: set<K>)
    requires m.Keys <= todo
    ensures Sum(Seen(m, todo)) == 0
  {
    SumZero(Seen(m, todo));
  }

  lemma SeenOneMore<K(!new)>(m: map<K, int>, todo: set<K>, k: K)
    requires k in todo && k in m
    ensures Sum(Seen(m, todo - {k})) == Sum(Seen(m, todo)) + m[k]
  {
    SumUpdate(Seen(m, todo), k, m[k]);
    assert Seen(m, todo - {k}) == Seen(m, todo)[k := m[k]];
  }

  lemma SeenAll<K(!new)>(m: map<K, int>)
    ensures Seen(m, {}) == m
  {
  }

  /** Keys that add nothing may be left out. */
  lemma {:induction false} SumExtend<K(!new)>(small: map<K, int>, big: map<K, int>)
    requires small.Keys <= big.Keys
    requires forall k :: k in small ==> big[k] == small[k]
    requires forall k :: k in big && k !in small ==> big[k] == 0
    ensures Sum(big) == Sum(small)
    decreases |small|
  {
    if small == map[] {
      SumZero(big);
    } else {
      var k :| k in small;
      SumSplit(small, k);
      SumSplit(big, k);
      SumExtend(small - {k}, big - {k});
    }
  }
}
