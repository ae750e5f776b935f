/** Sums over finite maps and sequences, and how single updates change them. */
module Sums {

  ghost function MapSum<K(!new), V(!new)>(m: map<K, V>, f: (K, V) -> int): int
    decreases |m|
  {
    if m == map[] then 0
    else
      var k :| k in m;
      f(k, m[k]) + MapSum(m - {k}, f)
  }

  /** The sum does not depend on which key is split off first. */
  lemma {:induction false} MapSumSplit<K(!new), V(!new)>(m: map<K, V>, f: (K, V) -> int, k: K)
    requires k in m
    ensures MapSum(m, f) == f(k, m[k]) + MapSum(m - {k}, f)
    decreases |m|
  {
    var j :| j in m && MapSum(m, f) == f(j, m[j]) + MapSum(m - {j}, f);
    if j != k {
      MapSumSplit(m - {j}, f, k);
      MapSumSplit(m - {k}, f, j);
      assert m - {j} - {k} == m - {k} - {j};
    }
  }

  ghost function At<K, V>(m: map<K, V>, f: (K, V) -> int, k: K): int {
    if k in m then f(k, m[k]) else 0
  }

  lemma MapSumPut<K(!new), V(!new)>(m: map<K, V>, f: (K, V) -> int, k: K, v: V)
    ensures MapSum(m[k := v], f) == MapSum(m, f) - At(m, f, k) + f(k, v)
  {
    MapSumSplit(m[k := v], f, k);
    assert m[k := v] - {k} == m - {k};
    if k in m {
      MapSumSplit(m, f, k);
    } else {
      assert m - {k} == m;
    }
  }

  lemma MapSumDrop<K(!new), V(!new)>(m: map<K, V>, f: (K, V) -> int, k: K)
    ensures MapSum(m - {k}, f) == MapSum(m, f) - At(m, f, k)
  {
    if k in m {
      MapSumSplit(m, f, k);
    } else {
      assert m - {k} == m;
    }
  }

  /** A sum of non-negative terms is at least any one of them. */
  lemma {:induction false} MapSumAtLeast<K(!new), V(!new)>(m: map<K, V>, f: (K, V) -> int, k: K)
    requires forall j :: j in m ==> f(j, m[j]) >= 0
    ensures 0 <= At(m, f, k) <= MapSum(m, f)
    decreases |m|
  {
    if m != map[] {
      var j := if k in m then k else var i :| i in m; i;
      MapSumSplit(m, f, j);
      MapSumAtLeast(m - {j}, f, j);
    }
  }

  lemma {:induction false} MapSumZero<K(!new), V(!new)>(m: map<K, V>, f: (K, V) -> int)
    requires forall j :: j in m ==> f(j, m[j]) == 0
    ensures MapSum(m, f) == 0
    decreases |m|
  {
    if m != map[] {
      var j :| j in m;
      MapSumSplit(m, f, j);
      MapSumZero(m - {j}, f);
    }
  }

  lemma {:induction false} MapSumMonotone<K(!new), V(!new)>(m: map<K, V>, f: (K, V) -> int, g: (K, V) -> int)
    requires forall j :: j in m ==> f(j, m[j]) <= g(j, m[j])
    ensures MapSum(m, f) <= MapSum(m, g)
    decreases |m|
  {
    if m != map[] {
      var j :| j in m;
      MapSumSplit(m, f, j);
      MapSumSplit(m, g, j);
      MapSumMonotone(m - {j}, f, g);
    }
  }

  ghost function SeqSum<T>(s: seq<T>, f: T -> int): int {
    if s == [] then 0 else SeqSum(s[..|s| - 1], f) + f(s[|s| - 1])
  }

  lemma SeqSumPush<T>(s: seq<T>, f: T -> int, x: T)
    ensures SeqSum(s + [x], f) == SeqSum(s, f) + f(x)
  {
    assert (s + [x])[..|s|] == s;
  }
}
