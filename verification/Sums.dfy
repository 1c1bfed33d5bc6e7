/** Finite sums over the values of a map: the order in which a Go map is ranged
    over is unspecified, so every total taken over one has to be independent of it. */
module Sums {

  /** The total of the values of `m`. */
  ghost function Sum<K>(m: map<K, int>): int
    decreases m.Keys
  {
    if m == map[] then 0
    else
      var k :| k in m;
      assert (m - {k}).Keys == m.Keys - {k};
      m[k] + Sum(m - {k})
  }

  /** Any key may be taken out first. */
  lemma {:induction false} SumRemove<K>(m: map<K, int>, k: K)
    requires k in m
    ensures Sum(m) == m[k] + Sum(m - {k})
    decreases m.Keys
  {
    var j :| j in m && Sum(m) == m[j] + Sum(m - {j});
    if j != k {
      assert (m - {j}).Keys == m.Keys - {j} && (m - {k}).Keys == m.Keys - {k};
      SumRemove(m - {j}, k);
      SumRemove(m - {k}, j);
      assert m - {j} - {k} == m - {k} - {j};
    }
  }

  /** Writing one key replaces one term. */
  lemma SumUpdate<K>(m: map<K, int>, k: K, v: int)
    ensures Sum(m[k := v]) == Sum(m - {k}) + v
  {
    SumRemove(m[k := v], k);
    assert m[k := v] - {k} == m - {k};
  }

  /** A sum grows with its terms and with its set of keys. */
  lemma {:induction false} SumMonotone<K>(m: map<K, int>, n: map<K, int>)
    requires m.Keys <= n.Keys
    requires forall k :: k in m ==> m[k] <= n[k]
    requires forall k :: k in n ==> 0 <= n[k]
    ensures Sum(m) <= Sum(n)
    decreases n.Keys
  {
    if n != map[] {
      var k :| k in n;
      assert (n - {k}).Keys == n.Keys - {k};
      SumRemove(n, k);
      if k in m {
        SumRemove(m, k);
        SumMonotone(m - {k}, n - {k});
      } else {
        SumMonotone(m, n - {k});
      }
    }
  }

  /** The same, for real-valued maps. */
  ghost function RealSum<K>(m: map<K, real>): real
    decreases m.Keys
  {
    if m == map[] then 0.0
    else
      var k :| k in m;
      assert (m - {k}).Keys == m.Keys - {k};
      m[k] + RealSum(m - {k})
  }

  lemma {:induction false} RealSumRemove<K>(m: map<K, real>, k: K)
    requires k in m
    ensures RealSum(m) == m[k] + RealSum(m - {k})
    decreases m.Keys
  {
    var j :| j in m && RealSum(m) == m[j] + RealSum(m - {j});
    if j != k {
      assert (m - {j}).Keys == m.Keys - {j} && (m - {k}).Keys == m.Keys - {k};
      RealSumRemove(m - {j}, k);
      RealSumRemove(m - {k}, j);
      assert m - {j} - {k} == m - {k} - {j};
    }
  }

  /** Adding term by term adds the sums. */
  lemma {:induction false} RealSumAdds<K>(x: map<K, real>, y: map<K, real>, z: map<K, real>)
    requires x.Keys == y.Keys == z.Keys && forall k :: k in x ==> z[k] == x[k] + y[k]
    ensures RealSum(z) == RealSum(x) + RealSum(y)
    decreases x.Keys
  {
    if x == map[] {
      assert y == map[] && z == map[];
    } else {
      var k :| k in x;
      assert (x - {k}).Keys == x.Keys - {k};
      RealSumRemove(x, k);
      RealSumRemove(y, k);
      RealSumRemove(z, k);
      RealSumAdds(x - {k}, y - {k}, z - {k});
    }
  }

  lemma Distribute(c: real, a: real, b: real)
    ensures c * (a + b) == c * a + c * b && (a + b) * c == a * c + b * c
  {
  }

  /** A map of the reals that respects addition. */
  ghost predicate Additive(f: real -> real) {
    f(0.0) == 0.0 && forall a, b :: Adds(f, a, b)
  }

  ghost predicate Adds(f: real -> real, a: real, b: real) {
    f(a + b) == f(a) + f(b)
  }

  function Times(c: real): real -> real {
    (v: real) => c * v
  }

  lemma TimesAdds(c: real, a: real, b: real)
    ensures Times(c)(a + b) == Times(c)(a) + Times(c)(b)
  {
    Distribute(c, a, b);
  }

  lemma TimesAdditive(c: real)
    ensures Additive(Times(c))
  {
    var f := Times(c);
    assert f(0.0) == 0.0;
    forall a: real, b: real ensures Adds(f, a, b) {
      TimesAdds(c, a, b);
    }
  }

  /** Scaling every term scales the sum. */
  lemma {:induction false} RealSumScales<K>(x: map<K, real>, f: real -> real, y: map<K, real>)
    requires Additive(f) && x.Keys == y.Keys && forall k :: k in x ==> y[k] == f(x[k])
    ensures RealSum(y) == f(RealSum(x))
    decreases x.Keys
  {
    if x == map[] {
      assert y == map[];
    } else {
      var k :| k in x;
      assert (x - {k}).Keys == x.Keys - {k};
      RealSumRemove(x, k);
      RealSumRemove(y, k);
      RealSumScales(x - {k}, f, y - {k});
      assert Adds(f, x[k], RealSum(x - {k}));
    }
  }

  /** Dividing by a positive number respects addition. */
  function Over(n: int): real -> real
    requires n != 0
  {
    (v: real) => v / n as real
  }

  lemma OverAdds(n: int, a: real, b: real)
    requires n != 0
    ensures Over(n)(a + b) == Over(n)(a) + Over(n)(b)
  {
  }

  lemma OverAdditive(n: int)
    requires n != 0
    ensures Additive(Over(n))
  {
    var f := Over(n);
    assert f(0.0) == 0.0;
    forall a: real, b: real ensures Adds(f, a, b) {
      OverAdds(n, a, b);
    }
  }

  /** A sum of whole numbers, taken over the reals. */
  lemma {:induction false} SumAsReal<K>(m: map<K, int>, f: real -> real, r: map<K, real>)
    requires Additive(f) && m.Keys == r.Keys && forall k :: k in m ==> r[k] == f(m[k] as real)
    ensures RealSum(r) == f(Sum(m) as real)
    decreases m.Keys
  {
    if m == map[] {
      assert r == map[];
    } else {
      var k :| k in m;
      assert (m - {k}).Keys == m.Keys - {k};
      SumRemove(m, k);
      RealSumRemove(r, k);
      SumAsReal(m - {k}, f, r - {k});
      assert Adds(f, m[k] as real, Sum(m - {k}) as real);
      assert Sum(m) as real == m[k] as real + Sum(m - {k}) as real;
    }
  }

  /** A sum of nothing negative grows with its keys. */
  lemma {:induction false} RealSumMonotone<K>(m: map<K, real>, n: map<K, real>)
    requires m.Keys <= n.Keys
    requires forall k :: k in m ==> m[k] <= n[k]
    requires forall k :: k in n ==> 0.0 <= n[k]
    ensures RealSum(m) <= RealSum(n)
    decreases n.Keys
  {
    if n != map[] {
      var k :| k in n;
      assert (n - {k}).Keys == n.Keys - {k};
      RealSumRemove(n, k);
      if k in m {
        RealSumRemove(m, k);
        RealSumMonotone(m - {k}, n - {k});
      } else {
        RealSumMonotone(m, n - {k});
      }
    }
  }
}
