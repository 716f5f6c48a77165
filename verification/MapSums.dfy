/** Sums over the values of a finite map. Over the reals the visiting order does not matter, so changing one
    key changes the sum by that key alone. */
module MapSums {

  ghost function SumMap(m: map<string, real>): real
    decreases |m|
  {
    if m == map[] then 0.0
    else
      var k :| k in m;
      m[k] + SumMap(m - {k})
  }

  lemma {:induction false} SumRemove(m: map<string, real>, k: string)
    requires k in m
    ensures SumMap(m) == m[k] + SumMap(m - {k})
    decreases |m|
  {
    var j :| j in m && SumMap(m) == m[j] + SumMap(m - {j});
    if j != k {
      SumRemove(m - {j}, k);
      SumRemove(m - {k}, j);
      assert m - {j} - {k} == m - {k} - {j};
    }
  }

  lemma {:induction false} SumUpdate(m: map<string, real>, k: string, v: real)
    ensures SumMap(m[k := v]) == SumMap(m) + v - if k in m then m[k] else 0.0
  {
    SumRemove(m[k := v], k);
    assert m[k := v] - {k} == m - {k};
    if k in m {
      SumRemove(m, k);
    } else {
      assert m - {k} == m;
    }
  }

  /** Two maps over the same keys, combined key by key. */
  ghost function Zip(f: (real, real) -> real, a: map<string, real>, b: map<string, real>): (m: map<string, real>)
    requires a.Keys == b.Keys
    ensures m.Keys == a.Keys && forall k | k in m :: m[k] == f(a[k], b[k])
  {
    map k | k in a :: f(a[k], b[k])
  }

  lemma {:induction false} SumZipUpdate(f: (real, real) -> real, a: map<string, real>, b: map<string, real>, k: string,
                                        x: real, y: real)
    requires a.Keys == b.Keys
    ensures SumMap(Zip(f, a[k := x], b[k := y]))
         == SumMap(Zip(f, a, b)) + f(x, y) - if k in a then f(a[k], b[k]) else 0.0
  {
    assert Zip(f, a[k := x], b[k := y]) == Zip(f, a, b)[k := f(x, y)];
    SumUpdate(Zip(f, a, b), k, f(x, y));
  }

  lemma {:induction false} SumZipRemove(f: (real, real) -> real, a: map<string, real>, b: map<string, real>, k: string)
    requires a.Keys == b.Keys && k in a
    ensures SumMap(Zip(f, a - {k}, b - {k})) == SumMap(Zip(f, a, b)) - f(a[k], b[k])
  {
    assert Zip(f, a - {k}, b - {k}) == Zip(f, a, b) - {k};
    SumRemove(Zip(f, a, b), k);
  }
}
