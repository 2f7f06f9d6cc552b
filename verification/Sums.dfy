/** Sums over sequences: how they split, and that the order of the elements does not matter. */
module Sums {
  import opened Sequences

  function SumOf<A>(xs: seq<A>, f: A -> int): int {
    if xs == [] then 0 else f(xs[0]) + SumOf(xs[1..], f)
  }

  lemma SumIsNatural<A>(xs: seq<A>, f: A -> int)
    requires forall x :: x in xs ==> f(x) >= 0
    ensures SumOf(xs, f) >= 0
  {
  }

  lemma {:induction false} SameSum<A>(xs: seq<A>, f: A -> int, g: A -> int)
    requires forall x :: x in xs ==> f(x) == g(x)
    ensures SumOf(xs, f) == SumOf(xs, g)
  {
    if xs == [] {
    } else {
      SameSum(xs[1..], f, g);
    }
  }

  lemma {:induction false} SumAppend<A>(xs: seq<A>, ys: seq<A>, f: A -> int)
    ensures SumOf(xs + ys, f) == SumOf(xs, f) + SumOf(ys, f)
  {
    if xs == [] {
      assert xs + ys == ys;
    } else {
      SumAppend(xs[1..], ys, f);
      assert (xs + ys)[1..] == xs[1..] + ys;
    }
  }

  lemma SumOfOne<A>(x: A, f: A -> int)
    ensures SumOf([x], f) == f(x)
  {
    assert [x][1..] == [];
  }

  lemma SumSnoc<A>(xs: seq<A>, x: A, f: A -> int)
    ensures SumOf(xs + [x], f) == SumOf(xs, f) + f(x)
  {
    SumAppend(xs, [x], f);
    SumOfOne(x, f);
  }

  lemma WithoutOne<A>(xs: seq<A>, i: nat)
    requires i < |xs|
    ensures xs == xs[..i] + ([xs[i]] + xs[i + 1..])
    ensures multiset(xs) == multiset(xs[..i] + xs[i + 1..]) + multiset{xs[i]}
  {
    assert xs == xs[..i] + ([xs[i]] + xs[i + 1..]);
  }

  lemma Cancel<A>(m: multiset<A>, n: multiset<A>, x: A)
    requires m + multiset{x} == n + multiset{x}
    ensures m == n
  {
    assert m == (m + multiset{x}) - multiset{x};
    assert n == (n + multiset{x}) - multiset{x};
  }

  lemma {:induction false} SumOfPermutation<A>(xs: seq<A>, ys: seq<A>, f: A -> int)
    requires multiset(xs) == multiset(ys)
    ensures SumOf(xs, f) == SumOf(ys, f)
    decreases |ys|
  {
    assert |multiset(xs)| == |xs|;
    if ys != [] {
      assert ys[0] in multiset(ys);
      var i :| 0 <= i < |xs| && xs[i] == ys[0];
      var front, back := xs[..i], xs[i + 1..];
      WithoutOne(xs, i);
      WithoutOne(ys, 0);
      assert ys[..0] + ys[1..] == ys[1..];
      Cancel(multiset(front + back), multiset(ys[1..]), ys[0]);
      SumOfPermutation(front + back, ys[1..], f);
      SumAppend(front, [xs[i]] + back, f);
      SumAppend(front, back, f);
    }
  }

  // ---------- Sums by key ----------

  /** The sum over the elements with the given key. */
  function SumWhere<A, K(==)>(xs: seq<A>, key: A -> K, k: K, f: A -> int): int {
    if xs == [] then 0
    else if key(xs[0]) == k then f(xs[0]) + SumWhere(xs[1..], key, k, f)
    else SumWhere(xs[1..], key, k, f)
  }

  function SumOver<A, K(==)>(ks: seq<K>, xs: seq<A>, key: A -> K, f: A -> int): int {
    if ks == [] then 0 else SumWhere(xs, key, ks[0], f) + SumOver(ks[1..], xs, key, f)
  }

  lemma {:induction false} SumWhereSnoc<A, K>(xs: seq<A>, x: A, key: A -> K, k: K, f: A -> int)
    ensures SumWhere(xs + [x], key, k, f) == SumWhere(xs, key, k, f) + (if key(x) == k then f(x) else 0)
  {
    if xs == [] {
      assert [] + [x] == [x] && [x][1..] == [];
    } else {
      SumWhereSnoc(xs[1..], x, key, k, f);
      assert (xs + [x])[1..] == xs[1..] + [x];
    }
  }

  lemma {:induction false} SumOverCons<A, K>(ks: seq<K>, xs: seq<A>, key: A -> K, f: A -> int)
    requires xs != []
    requires Distinct(ks)
    ensures SumOver(ks, xs, key, f) == SumOver(ks, xs[1..], key, f) + (if key(xs[0]) in ks then f(xs[0]) else 0)
  {
    if ks == [] {
    } else {
      SumOverCons(ks[1..], xs, key, f);
      assert ks[0] !in ks[1..];
      assert ks == [ks[0]] + ks[1..];
    }
  }

  /** Sums by key add up to the sum of all, over any enumeration of the keys without repetition. */
  lemma {:induction false} SumByKeys<A, K>(ks: seq<K>, xs: seq<A>, key: A -> K, f: A -> int)
    requires Distinct(ks)
    requires forall x :: x in xs ==> key(x) in ks
    ensures SumOver(ks, xs, key, f) == SumOf(xs, f)
    decreases |xs|
  {
    if xs == [] {
      SumOverNothing(ks, xs, key, f);
    } else {
      SumOverCons(ks, xs, key, f);
      SumByKeys(ks, xs[1..], key, f);
    }
  }

  lemma SumOverNothing<A, K>(ks: seq<K>, xs: seq<A>, key: A -> K, f: A -> int)
    requires xs == []
    ensures SumOver(ks, xs, key, f) == 0
  {
  }
}
