// std::ranges::sort, used with comparators that compare one or two numbers.

module Sorting {
  type Key = (int, int)

  predicate LessOrEqual(a: Key, b: Key) {
    a.0 < b.0 || (a.0 == b.0 && a.1 <= b.1)
  }

  predicate SortedBy<T>(xs: seq<T>, key: T -> Key) {
    forall i, j | 0 <= i < j < |xs| :: LessOrEqual(key(xs[i]), key(xs[j]))
  }

  function Inserted<T>(ys: seq<T>, k: nat, x: T): (r: seq<T>)
    requires k <= |ys|
    ensures |r| == |ys| + 1
  {
    ys[..k] + [x] + ys[k..]
  }

  lemma InsertAdds<T>(ys: seq<T>, k: nat, x: T)
    requires k <= |ys|
    ensures multiset(Inserted(ys, k, x)) == multiset(ys) + multiset{x}
  {
    assert ys == ys[..k] + ys[k..];
  }

  lemma InsertKeepsOrder<T>(ys: seq<T>, k: nat, x: T, key: T -> Key)
    requires SortedBy(ys, key) && k <= |ys|
    requires forall i | 0 <= i < k :: LessOrEqual(key(ys[i]), key(x))
    requires k < |ys| ==> !LessOrEqual(key(ys[k]), key(x))
    ensures SortedBy(Inserted(ys, k, x), key)
  {
    var r := Inserted(ys, k, x);
    forall i, j | 0 <= i < j < |r|
      ensures LessOrEqual(key(r[i]), key(r[j]))
    {
      var from := if i <= k then i else i - 1;
      var to := if j <= k then j else j - 1;
      if i != k && j != k {
        assert r[i] == ys[from] && r[j] == ys[to];
      } else if i == k {
        assert r[i] == x && r[j] == ys[to];
        assert to == k || LessOrEqual(key(ys[k]), key(ys[to]));
      } else {
        assert r[i] == ys[from] && r[j] == x;
      }
    }
  }

  /** A sorted permutation; among equal keys callers may rely on no particular order. */
  method SortBy<T>(xs: seq<T>, key: T -> Key) returns (ys: seq<T>)
    ensures multiset(ys) == multiset(xs)
    ensures SortedBy(ys, key)
  {
    ys := [];
    for n := 0 to |xs|
      invariant multiset(ys) == multiset(xs[..n])
      invariant SortedBy(ys, key)
    {
      var k := 0;
      while k < |ys| && LessOrEqual(key(ys[k]), key(xs[n]))
        invariant k <= |ys|
        invariant forall i | 0 <= i < k :: LessOrEqual(key(ys[i]), key(xs[n]))
      {
        k := k + 1;
      }
      InsertKeepsOrder(ys, k, xs[n], key);
      InsertAdds(ys, k, xs[n]);
      assert xs[..n + 1] == xs[..n] + [xs[n]];
      ys := Inserted(ys, k, xs[n]);
    }
    assert xs[..|xs|] == xs;
  }

  predicate Distinct<T(==)>(xs: seq<T>) {
    forall i, j | 0 <= i < j < |xs| :: xs[i] != xs[j]
  }

  /** Rearranging a list neither repeats nor drops an element. */
  lemma {:induction false} DistinctMultiset<T>(xs: seq<T>)
    ensures Distinct(xs) <==> forall x | x in xs :: multiset(xs)[x] == 1
  {
    if |xs| > 0 {
      var n := |xs| - 1;
      assert xs == xs[..n] + [xs[n]];
      DistinctMultiset(xs[..n]);
      if Distinct(xs) {
        assert Distinct(xs[..n]) && xs[n] !in xs[..n];
      } else if Distinct(xs[..n]) {
        assert forall k | 0 <= k < n :: xs[..n][k] == xs[k];
        var i, j :| 0 <= i < j < |xs| && xs[i] == xs[j];
        assert j == n;
        assert xs[n] == xs[..n][i] && multiset(xs[..n])[xs[n]] > 0;
        assert multiset(xs)[xs[n]] > 1 && xs[n] in xs;
      } else {
        var x :| x in xs[..n] && multiset(xs[..n])[x] != 1;
        assert multiset(xs)[x] >= multiset(xs[..n])[x] > 0;
      }
    }
  }

  lemma PermutationKeeps<T>(xs: seq<T>, ys: seq<T>)
    requires multiset(xs) == multiset(ys)
    ensures |xs| == |ys|
    ensures forall x :: x in xs <==> x in ys
    ensures Distinct(xs) <==> Distinct(ys)
  {
    DistinctMultiset(xs);
    DistinctMultiset(ys);
    assert |multiset(xs)| == |xs| && |multiset(ys)| == |ys|;
    assert forall x :: (x in xs <==> x in multiset(xs)) && (x in ys <==> x in multiset(ys));
  }
}
