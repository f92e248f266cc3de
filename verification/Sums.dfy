/** Sums over maps and sequences, and the laws that make them independent of
    the order in which the terms are taken. */
module Sums {

  /** No element twice. */
  predicate Distinct<T(==)>(s: seq<T>) { forall i, j :: 0 <= i < j < |s| ==> s[i] != s[j] }

  ghost function Total<K>(m: map<K, real>): real
    decreases |m|
  {
    if m == map[] then 0.0
    else
      var k :| k in m;
      m[k] + Total(m - {k})
  }

  /** Any key may be taken out first. */
  lemma {:induction false} TotalTakes<K>(m: map<K, real>, k: K)
    requires k in m
    ensures Total(m) == m[k] + Total(m - {k})
    decreases |m|
  {
    var j :| j in m && Total(m) == m[j] + Total(m - {j});
    if j != k {
      TotalTakes(m - {j}, k);
      TotalTakes(m - {k}, j);
      assert m - {j} - {k} == m - {k} - {j};
    }
  }

  lemma TotalUpdate<K>(m: map<K, real>, k: K, v: real)
    ensures Total(m[k := v]) == Total(m) - (if k in m then m[k] else 0.0) + v
  {
    TotalTakes(m[k := v], k);
    assert m[k := v] - {k} == m - {k};
    if k in m {
      TotalTakes(m, k);
    } else {
      assert m - {k} == m;
    }
  }

  lemma {:induction false} TotalOfSum<K>(m: map<K, real>, n: map<K, real>, sum: map<K, real>)
    requires m.Keys == n.Keys == sum.Keys
    requires forall k :: k in m ==> sum[k] == m[k] + n[k]
    ensures Total(sum) == Total(m) + Total(n)
    decreases |m|
  {
    if m == map[] {
      assert n == map[] && sum == map[];
    } else {
      var k :| k in m;
      TotalTakes(m, k);
      TotalTakes(n, k);
      TotalTakes(sum, k);
      TotalOfSum(m - {k}, n - {k}, sum - {k});
    }
  }

  /** Keys holding zero do not matter. */
  lemma {:induction false} TotalIgnoresZeros<K>(m: map<K, real>, n: map<K, real>)
    requires m.Keys <= n.Keys && forall k :: k in n ==> n[k] == if k in m then m[k] else 0.0
    ensures Total(n) == Total(m)
    decreases |n|
  {
    if n.Keys == m.Keys {
      assert n == m;
    } else {
      var k :| k in n && k !in m;
      TotalTakes(n, k);
      TotalIgnoresZeros(m, n - {k});
    }
  }

  ghost function SumOf<T>(s: seq<T>, f: T -> real): real {
    if s == [] then 0.0 else SumOf(s[..|s| - 1], f) + f(s[|s| - 1])
  }

  lemma {:induction false} SumOfConcat<T>(s: seq<T>, t: seq<T>, f: T -> real)
    ensures SumOf(s + t, f) == SumOf(s, f) + SumOf(t, f)
  {
    if t == [] {
      assert s + t == s;
    } else {
      var t' := t[..|t| - 1];
      assert (s + t)[..|s + t| - 1] == s + t';
      SumOfConcat(s, t', f);
    }
  }

  /** Sequences with the same terms have the same sum. */
  lemma {:induction false} SumOfPermuted<T>(s: seq<T>, t: seq<T>, f: T -> real)
    requires multiset(s) == multiset(t)
    ensures SumOf(s, f) == SumOf(t, f)
    decreases |s|
  {
    assert |s| == |multiset(s)| == |multiset(t)| == |t|;
    if s == [] {
    } else {
      var s', x := s[..|s| - 1], s[|s| - 1];
      assert s == s' + [x];
      assert x in multiset(t);
      var j :| 0 <= j < |t| && t[j] == x;
      var t' := t[..j] + t[j + 1..];
      assert t == t[..j] + ([x] + t[j + 1..]);
      assert multiset(t') == multiset(t) - multiset{x};
      assert multiset(s') == multiset(s) - multiset{x};
      SumOfPermuted(s', t', f);
      SumOfConcat(t[..j], t[j + 1..], f);
      SumOfConcat(t[..j], [x] + t[j + 1..], f);
      SumOfConcat([x], t[j + 1..], f);
      assert SumOf([x], f) == f(x) by {
        assert [x][..0] == [];
      }
    }
  }
}
