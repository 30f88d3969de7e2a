/** The sum of the values of a finite map, and how single-key updates move it. */
module MapSums {

  function Get<K>(m: map<K, int>, k: K): int {
    if k in m then m[k] else 0
  }

  ghost function Sum<K>(m: map<K, int>): int
    decreases |m|
  {
    if m == map[] then 0
    else
      var k :| k in m;
      m[k] + Sum(m - {k})
  }

  /** The sum does not depend on the key that is taken out first. */
  lemma {:induction false} SumSplit<K>(m: map<K, int>, k: K)
    requires k in m
    ensures Sum(m) == m[k] + Sum(m - {k})
    decreases |m|
  {
    var j :| j in m && Sum(m) == m[j] + Sum(m - {j});
    if j != k {
      SumSplit(m - {j}, k);
      SumSplit(m - {k}, j);
      assert m - {j} - {k} == m - {k} - {j};
    }
  }

  /** Setting one key moves the sum by the difference of the two values. */
  lemma SumUpdate<K>(m: map<K, int>, k: K, v: int)
    ensures Sum(m[k := v]) == Sum(m) + v - Get(m, k)
  {
    var n := m[k := v];
    SumSplit(n, k);
    assert n - {k} == m - {k};
    if k in m {
      SumSplit(m, k);
    } else {
      assert m - {k} == m;
    }
  }

  /** Removing one key lowers the sum by its value. */
  lemma SumRemove<K>(m: map<K, int>, k: K)
    ensures Sum(m - {k}) == Sum(m) - Get(m, k)
  {
    if k in m {
      SumSplit(m, k);
    } else {
      assert m - {k} == m;
    }
  }
}

/** Taking one element out of a sequence, seen as a multiset. */
module Permutations {

  lemma Pluck<T>(ys: seq<T>, x: T) returns (pre: seq<T>, post: seq<T>)
    requires x in multiset(ys)
    ensures ys == pre + [x] + post
    ensures multiset(pre + post) == multiset(ys) - multiset{x}
  {
    var i :| 0 <= i < |ys| && ys[i] == x;
    pre, post := ys[..i], ys[i + 1..];
    assert ys == pre + [x] + post;
  }

  lemma HeadTail<T>(xs: seq<T>)
    requires xs != []
    ensures multiset(xs[1..]) == multiset(xs) - multiset{xs[0]}
  {
    assert xs == [xs[0]] + xs[1..];
  }
}
