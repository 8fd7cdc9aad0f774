/** Sums over the values of a map. */
module Sums {

  ghost function Sum<K, V>(m: map<K, V>, f: V -> int): int
  {
    if m == map[] then 0
    else
      var k :| k in m;
      f(m[k]) + Sum(m - {k}, f)
  }

  /** Any key may be taken out first. */
  lemma {:induction false} SumTake<K, V>(m: map<K, V>, f: V -> int, k: K)
    requires k in m
    ensures Sum(m, f) == f(m[k]) + Sum(m - {k}, f)
    decreases |m|
  {
    var j :| j in m && Sum(m, f) == f(m[j]) + Sum(m - {j}, f);
    if j != k {
      assert |m - {j}| == |m| - 1 by { KeysMinus(m, j); }
      assert |m - {k}| == |m| - 1 by { KeysMinus(m, k); }
      SumTake(m - {j}, f, k);
      SumTake(m - {k}, f, j);
      assert m - {j} - {k} == m - {k} - {j};
    }
  }

  lemma KeysMinus<K, V>(m: map<K, V>, k: K)
    requires k in m
    ensures (m - {k}).Keys == m.Keys - {k}
    ensures |m - {k}| == |m| - 1
  {
    assert (m - {k}).Keys == m.Keys - {k};
    assert |m| == |m.Keys|;
    assert |m - {k}| == |(m - {k}).Keys|;
  }

  lemma KeysPlus<K, V>(m: map<K, V>, k: K, v: V)
    ensures m[k := v].Keys == m.Keys + {k}
    ensures |m[k := v]| == if k in m then |m| else |m| + 1
  {
    assert m[k := v].Keys == m.Keys + {k};
    assert |m| == |m.Keys|;
    assert |m[k := v]| == |m[k := v].Keys|;
    if k in m {
      assert m.Keys + {k} == m.Keys;
    }
  }

  lemma SumPut<K, V>(m: map<K, V>, f: V -> int, k: K, v: V)
    ensures Sum(m[k := v], f) == Sum(m, f) + f(v) - (if k in m then f(m[k]) else 0)
  {
    SumTake(m[k := v], f, k);
    assert m[k := v] - {k} == m - {k};
    if k in m {
      SumTake(m, f, k);
    } else {
      assert m - {k} == m;
    }
  }

  lemma {:induction false} SumBounds<K, V>(m: map<K, V>, f: V -> int)
    requires forall k | k in m :: f(m[k]) >= 0
    ensures Sum(m, f) >= 0
    ensures forall k | k in m :: f(m[k]) <= Sum(m, f)
    decreases |m|
  {
    forall k | k in m
      ensures f(m[k]) <= Sum(m, f)
    {
      SumTake(m, f, k);
      KeysMinus(m, k);
      SumBounds(m - {k}, f);
    }
    if m != map[] {
      var k :| k in m;
      assert f(m[k]) <= Sum(m, f);
    }
  }

  lemma {:induction false} SumZero<K, V>(m: map<K, V>, f: V -> int)
    requires forall k | k in m :: f(m[k]) == 0
    ensures Sum(m, f) == 0
    decreases |m|
  {
    if m != map[] {
      var k :| k in m;
      SumTake(m, f, k);
      KeysMinus(m, k);
      SumZero(m - {k}, f);
    }
  }
}
