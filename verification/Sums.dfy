/** Sums over sequences and over the values of a map, with the few laws the proofs use. */
module Sums {

  /** The sum of the weights of the elements of `s`. */
  function SeqSum<T>(s: seq<T>, weight: T -> int): int {
    if s == [] then 0 else SeqSum(s[..|s| - 1], weight) + weight(s[|s| - 1])
  }

  lemma SeqSumAppend<T>(s: seq<T>, x: T, weight: T -> int)
    ensures SeqSum(s + [x], weight) == SeqSum(s, weight) + weight(x)
  {
    assert (s + [x])[..|s|] == s;
  }

  lemma SeqSumTake<T>(s: seq<T>, n: nat, weight: T -> int)
    requires 0 < n <= |s|
    ensures SeqSum(s[..n], weight) == SeqSum(s[..n - 1], weight) + weight(s[n - 1])
  {
    assert s[..n][..n - 1] == s[..n - 1];
  }

  lemma {:induction false} SeqSumConcat<T>(s: seq<T>, t: seq<T>, weight: T -> int)
    ensures SeqSum(s + t, weight) == SeqSum(s, weight) + SeqSum(t, weight)
  {
    if t == [] {
      assert s + t == s;
    } else {
      var n := |t| - 1;
      assert s + t == s + t[..n] + [t[n]];
      SeqSumAppend(s + t[..n], t[n], weight);
      SeqSumConcat(s, t[..n], weight);
    }
  }

  lemma {:induction false} SeqSumUpdate<T>(s: seq<T>, i: nat, x: T, weight: T -> int)
    requires i < |s|
    ensures SeqSum(s[i := x], weight) == SeqSum(s, weight) - weight(s[i]) + weight(x)
  {
    var n := |s| - 1;
    if i == n {
      assert s[i := x][..n] == s[..n];
    } else {
      assert s[i := x][..n] == s[..n][i := x];
      SeqSumUpdate(s[..n], i, x, weight);
    }
  }

  /** Sequences whose elements weigh the same position by position have the same sum. */
  lemma {:induction false} SeqSumAgree<S, T>(s: seq<S>, t: seq<T>, f: S -> int, g: T -> int)
    requires |s| == |t|
    requires forall i :: 0 <= i < |s| ==> f(s[i]) == g(t[i])
    ensures SeqSum(s, f) == SeqSum(t, g)
  {
    if s != [] {
      SeqSumAgree(s[..|s| - 1], t[..|t| - 1], f, g);
    }
  }

  lemma {:induction false} SeqSumNonNegative<T>(s: seq<T>, weight: T -> int)
    requires forall i :: 0 <= i < |s| ==> weight(s[i]) >= 0
    ensures SeqSum(s, weight) >= 0
  {
    if s != [] {
      SeqSumNonNegative(s[..|s| - 1], weight);
    }
  }

  lemma {:induction false} SeqSumZero<T>(s: seq<T>, weight: T -> int)
    requires forall i :: 0 <= i < |s| ==> weight(s[i]) == 0
    ensures SeqSum(s, weight) == 0
  {
    if s != [] {
      SeqSumZero(s[..|s| - 1], weight);
    }
  }

  /** The sum of the values of `m`. */
  ghost function MapSum<K>(m: map<K, int>): int {
    if m == map[] then 0
    else var k :| k in m; m[k] + MapSum(m - {k})
  }

  /** The sum does not depend on the order in which keys are taken. */
  lemma {:induction false} MapSumTake<K>(m: map<K, int>, k: K)
    requires k in m
    ensures MapSum(m) == m[k] + MapSum(m - {k})
    decreases |m|
  {
    var j :| j in m && MapSum(m) == m[j] + MapSum(m - {j});
    if j != k {
      MapSumTake(m - {j}, k);
      MapSumTake(m - {k}, j);
      assert m - {j} - {k} == m - {k} - {j};
    }
  }

  lemma MapSumPut<K>(m: map<K, int>, k: K, v: int)
    ensures MapSum(m[k := v]) == MapSum(m) + v - (if k in m then m[k] else 0)
  {
    MapSumTake(m[k := v], k);
    assert m[k := v] - {k} == m - {k};
    if k in m {
      MapSumTake(m, k);
    } else {
      assert m - {k} == m;
    }
  }

  lemma {:induction false} MapSumNonNegative<K>(m: map<K, int>)
    requires forall k :: k in m ==> m[k] >= 0
    ensures MapSum(m) >= 0
    ensures forall k :: k in m ==> m[k] <= MapSum(m)
    decreases |m|
  {
    forall k | k in m
      ensures m[k] <= MapSum(m) && MapSum(m) >= 0
    {
      MapSumTake(m, k);
      MapSumNonNegative(m - {k});
    }
  }
}
