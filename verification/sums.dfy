/** Sums of the values of a finite map, the shape of every `sum(...)` query and every
    accounting total in the model. */
module Sums {

  ghost function Sum<K>(m: map<K, int>): int
  {
    if m == map[] then 0
    else
      var k :| k in m;
      m[k] + Sum(m - {k})
  }

  lemma {:induction false} SumRemove<K>(m: map<K, int>, k: K)
    requires k in m
    ensures Sum(m) == m[k] + Sum(m - {k})
    decreases |m|
  {
    var p :| p in m && Sum(m) == m[p] + Sum(m - {p});
    if p != k {
      SumRemove(m - {p}, k);
      SumRemove(m - {k}, p);
      assert m - {p} - {k} == m - {k} - {p};
    }
  }

  lemma SumOfNoRows<K>(m: map<K, int>)
    requires m == map[]
    ensures Sum(m) == 0
  {
  }

  lemma SumUpdate<K>(m: map<K, int>, k: K, v: int)
    ensures Sum(m[k := v]) == Sum(m) + v - (if k in m then m[k] else 0)
  {
    hide Sum;
    SumRemove(m[k := v], k);
    assert m[k := v] - {k} == m - {k};
    if k in m {
      SumRemove(m, k);
    } else {
      assert m - {k} == m;
    }
  }

  // Two tables that hold the same rows under different keys have the same total.
  lemma {:induction false} SumReindex<A, B>(m: map<A, int>, f: map<A, B>, n: map<B, int>)
    requires f.Keys == m.Keys
    requires forall a, b | a in f && b in f :: f[a] == f[b] ==> a == b
    requires forall a | a in f :: f[a] in n && n[f[a]] == m[a]
    requires forall b | b in n :: exists a :: a in f && f[a] == b
    ensures Sum(m) == Sum(n)
    decreases |m|
  {
    if m == map[] {
      assert forall b :: b !in n;
    } else {
      hide Sum;
      var a :| a in m;
      SumRemove(m, a);
      SumRemove(n, f[a]);
      var f' := f - {a};
      forall b | b in n - {f[a]} ensures exists x :: x in f' && f'[x] == b {
        var x :| x in f && f[x] == b;
        assert x in f' && f'[x] == b;
      }
      SumReindex(m - {a}, f', n - {f[a]});
    }
  }

  lemma {:induction false} SumNonNegative<K>(m: map<K, int>)
    requires forall k | k in m :: m[k] >= 0
    ensures Sum(m) >= 0
    ensures forall k | k in m :: m[k] <= Sum(m)
    decreases |m|
  {
    if m != map[] {
      forall k | k in m ensures 0 <= m[k] <= Sum(m) {
        SumRemove(m, k);
        SumNonNegative(m - {k});
      }
      var k :| k in m;
    }
  }

  ghost function Only<K>(m: map<K, int>, part: set<K>): map<K, int>
  {
    map k | k in m && k in part :: m[k]
  }

  lemma OnlyWithout<K>(m: map<K, int>, part: set<K>, x: K)
    requires x in m
    ensures if x in part then x in Only(m, part) && Only(m, part)[x] == m[x] &&
        Only(m, part) - {x} == Only(m - {x}, part)
            else Only(m, part) == Only(m - {x}, part)
  {
  }

  lemma RestWithout<K>(m: map<K, int>, part: set<K>, x: K)
    requires x in m
    ensures if x in part then m - part == m - {x} - part
            else x in m - part && (m - part)[x] == m[x] && m - part - {x} == m - {x} - part
  {
  }

  // A table splits into the rows selected by a set of keys and the rest.
  lemma {:induction false} SumSplit<K>(m: map<K, int>, part: set<K>)
    ensures Sum(m) == Sum(Only(m, part)) + Sum(m - part)
    decreases |m|
  {
    if m == map[] {
      assert Only(m, part) == map[] == m - part;
    } else {
      hide Sum, Only;
      var x :| x in m;
      SumRemove(m, x);
      SumSplit(m - {x}, part);
      OnlyWithout(m, part, x);
      RestWithout(m, part, x);
      if x in part {
        SumRemove(Only(m, part), x);
      } else {
        SumRemove(m - part, x);
      }
    }
  }

  // The total of a numeric column over all rows of a table.
  ghost function SumOf<K, V>(m: map<K, V>, column: V -> int): int
  {
    Sum(map k | k in m :: column(m[k]))
  }

  lemma SumOfIs<K, V>(m: map<K, V>, column: V -> int, values: map<K, int>)
    requires values.Keys == m.Keys && forall k | k in m :: values[k] == column(m[k])
    ensures SumOf(m, column) == Sum(values)
  {
    assert (map k | k in m :: column(m[k])) == values;
  }

  lemma SumOfUpdate<K, V>(m: map<K, V>, column: V -> int, k: K, v: V)
    ensures SumOf(m[k := v], column) == SumOf(m, column) + column(v) - (if k in m then column(m[k]) else 0)
  {
    var values := map x | x in m :: column(m[x]);
    var m' := m[k := v];
    assert (map x | x in m' :: column(m'[x])) == values[k := column(v)];
    SumUpdate(values, k, column(v));
  }

  lemma SumOfNothing<K, V>(m: map<K, V>, column: V -> int)
    requires m == map[]
    ensures SumOf(m, column) == 0
  {
  }

  lemma SumOfSame<K, V>(m: map<K, V>, a: V -> int, b: V -> int)
    requires forall k | k in m :: a(m[k]) == b(m[k])
    ensures SumOf(m, a) == SumOf(m, b)
  {
    assert (map k | k in m :: a(m[k])) == (map k | k in m :: b(m[k]));
  }

  lemma SumOfBounds<K, V>(m: map<K, V>, column: V -> int, k: K)
    requires k in m && forall x | x in m :: column(m[x]) >= 0
    ensures 0 <= column(m[k]) <= SumOf(m, column)
  {
    var values := map x | x in m :: column(m[x]);
    SumNonNegative(values);
    assert values[k] == column(m[k]);
  }

  lemma SumOfNonNegative<K, V>(m: map<K, V>, column: V -> int)
    requires forall x | x in m :: column(m[x]) >= 0
    ensures SumOf(m, column) >= 0
  {
    if m == map[] {
      SumOfNothing(m, column);
    } else {
      var k :| k in m;
      SumOfBounds(m, column, k);
    }
  }

  // Rows of value zero do not count.
  lemma {:induction false} SumSkipsZeros<K>(m: map<K, int>, n: map<K, int>)
    requires forall k | k in n :: k in m && m[k] == n[k]
    requires forall k | k in m && k !in n :: m[k] == 0
    ensures Sum(m) == Sum(n)
    decreases |m|
  {
    if m != map[] {
      hide Sum;
      var k :| k in m;
      SumRemove(m, k);
      if k in n {
        SumRemove(n, k);
        SumSkipsZeros(m - {k}, n - {k});
      } else {
        SumSkipsZeros(m - {k}, n);
      }
    } else {
      assert n == map[];
    }
  }

  lemma {:induction false} SumPlus<K>(m: map<K, int>, a: map<K, int>, b: map<K, int>)
    requires m.Keys == a.Keys == b.Keys && forall k | k in m :: m[k] == a[k] + b[k]
    ensures Sum(m) == Sum(a) + Sum(b)
    decreases |m|
  {
    if m == map[] {
      assert a == map[] && b == map[];
    } else {
      hide Sum;
      var k :| k in m;
      SumRemove(m, k);
      SumRemove(a, k);
      SumRemove(b, k);
      SumPlus(m - {k}, a - {k}, b - {k});
    }
  }

  lemma SumOfPlus<K, V>(m: map<K, V>, a: V -> int, b: V -> int, both: V -> int)
    requires forall k | k in m :: both(m[k]) == a(m[k]) + b(m[k])
    ensures SumOf(m, both) == SumOf(m, a) + SumOf(m, b)
  {
    hide Sum;
    var left, right := map k | k in m :: a(m[k]), map k | k in m :: b(m[k]);
    var total := map k | k in m :: both(m[k]);
    SumOfIs(m, a, left);
    SumOfIs(m, b, right);
    SumOfIs(m, both, total);
    SumPlus(total, left, right);
  }
}
