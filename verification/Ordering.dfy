/** Sorting by an integer key, for the source's `sort((a, b) => a.key - b.key)` on lists with distinct keys. */
module Ordering {
  import opened Sequences

  ghost predicate Increasing(keys: seq<int>) {
    forall i, j :: 0 <= i < j < |keys| ==> keys[i] < keys[j]
  }

  function Keys<T>(xs: seq<T>, key: T -> int): (keys: seq<int>)
    ensures |keys| == |xs| && forall i :: 0 <= i < |xs| ==> keys[i] == key(xs[i])
  {
    seq(|xs|, i requires 0 <= i < |xs| => key(xs[i]))
  }

  function Insert<T>(x: T, xs: seq<T>, key: T -> int): seq<T> {
    if xs == [] then [x]
    else if key(x) <= key(xs[0]) then [x] + xs
    else [xs[0]] + Insert(x, xs[1..], key)
  }

  function SortBy<T>(xs: seq<T>, key: T -> int): seq<T> {
    if xs == [] then [] else Insert(xs[0], SortBy(xs[1..], key), key)
  }

  lemma MultisetCons<T>(x: T, xs: seq<T>)
    ensures multiset([x] + xs) == multiset{x} + multiset(xs)
  {
  }

  lemma {:induction false} InsertAdds<T>(x: T, xs: seq<T>, key: T -> int)
    ensures multiset(Insert(x, xs, key)) == multiset{x} + multiset(xs)
  {
    if xs == [] {
    } else if key(x) <= key(xs[0]) {
      MultisetCons(x, xs);
    } else {
      InsertAdds(x, xs[1..], key);
      MultisetCons(xs[0], Insert(x, xs[1..], key));
      MultisetCons(xs[0], xs[1..]);
      assert xs == [xs[0]] + xs[1..];
    }
  }

  lemma {:induction false} SortByPermutes<T>(xs: seq<T>, key: T -> int)
    ensures multiset(SortBy(xs, key)) == multiset(xs)
  {
    if xs == [] {
    } else {
      SortByPermutes(xs[1..], key);
      InsertAdds(xs[0], SortBy(xs[1..], key), key);
      assert xs == [xs[0]] + xs[1..];
    }
  }

  lemma KeysOfCons<T>(x: T, xs: seq<T>, key: T -> int)
    ensures Keys([x] + xs, key) == [key(x)] + Keys(xs, key)
  {
  }

  lemma IncreasingCons(k: int, keys: seq<int>)
    requires Increasing(keys) && forall l :: l in keys ==> k < l
    ensures Increasing([k] + keys)
  {
    var all := [k] + keys;
    forall i, j | 0 <= i < j < |all|
      ensures all[i] < all[j]
    {
      assert all[j] == keys[j - 1] && keys[j - 1] in keys;
    }
  }

  lemma IncreasingTail(k: int, keys: seq<int>)
    requires Increasing([k] + keys)
    ensures Increasing(keys) && forall l :: l in keys ==> k < l
  {
    var all := [k] + keys;
    assert forall i :: 0 <= i < |keys| ==> keys[i] == all[i + 1];
    assert forall i :: 0 <= i < |keys| ==> all[0] < keys[i];
  }

  lemma {:induction false} InsertKeepsOrder<T>(x: T, xs: seq<T>, key: T -> int)
    requires Increasing(Keys(xs, key)) && key(x) !in Keys(xs, key)
    ensures Increasing(Keys(Insert(x, xs, key), key))
    ensures forall k :: k in Keys(Insert(x, xs, key), key) <==> k == key(x) || k in Keys(xs, key)
  {
    if xs == [] {
    } else {
      var rest := xs[1..];
      assert xs == [xs[0]] + rest;
      KeysOfCons(xs[0], rest, key);
      IncreasingTail(key(xs[0]), Keys(rest, key));
      if key(x) <= key(xs[0]) {
        KeysOfCons(x, xs, key);
        assert key(xs[0]) in Keys(xs, key);
        IncreasingCons(key(x), Keys(xs, key));
      } else {
        InsertKeepsOrder(x, rest, key);
        var inserted := Insert(x, rest, key);
        KeysOfCons(xs[0], inserted, key);
        IncreasingCons(key(xs[0]), Keys(inserted, key));
      }
    }
  }

  /** Sorting keeps the elements and, when the keys are distinct, puts them in strictly increasing order. */
  lemma {:induction false} SortByOrders<T>(xs: seq<T>, key: T -> int)
    requires Distinct(Keys(xs, key))
    ensures Increasing(Keys(SortBy(xs, key), key))
    ensures multiset(SortBy(xs, key)) == multiset(xs)
    ensures forall k :: k in Keys(SortBy(xs, key), key) <==> k in Keys(xs, key)
  {
    if xs == [] {
    } else {
      var rest := xs[1..];
      assert xs == [xs[0]] + rest;
      KeysOfCons(xs[0], rest, key);
      assert forall i :: 0 <= i < |rest| ==> Keys(rest, key)[i] == Keys(xs, key)[i + 1];
      SortByOrders(rest, key);
      InsertKeepsOrder(xs[0], SortBy(rest, key), key);
      SortByPermutes(xs, key);
    }
  }

  ghost predicate NonDecreasing(keys: seq<int>) {
    forall i, j :: 0 <= i < j < |keys| ==> keys[i] <= keys[j]
  }

  lemma NonDecreasingCons(k: int, keys: seq<int>)
    ensures NonDecreasing([k] + keys) <==> NonDecreasing(keys) && forall l :: l in keys ==> k <= l
  {
    var all := [k] + keys;
    assert forall i :: 0 <= i < |keys| ==> keys[i] == all[i + 1];
    if NonDecreasing(all) {
      assert forall i :: 0 <= i < |keys| ==> all[0] <= keys[i];
    }
    if NonDecreasing(keys) && forall l :: l in keys ==> k <= l {
      forall i, j | 0 <= i < j < |all|
        ensures all[i] <= all[j]
      {
        assert all[j] == keys[j - 1] && keys[j - 1] in keys;
      }
    }
  }

  lemma {:induction false} InsertSorts<T>(x: T, xs: seq<T>, key: T -> int)
    requires NonDecreasing(Keys(xs, key))
    ensures NonDecreasing(Keys(Insert(x, xs, key), key))
    ensures forall k :: k in Keys(Insert(x, xs, key), key) ==> k == key(x) || k in Keys(xs, key)
  {
    if xs == [] {
    } else {
      var rest := xs[1..];
      assert xs == [xs[0]] + rest;
      KeysOfCons(xs[0], rest, key);
      NonDecreasingCons(key(xs[0]), Keys(rest, key));
      if key(x) <= key(xs[0]) {
        KeysOfCons(x, xs, key);
        NonDecreasingCons(key(x), Keys(xs, key));
      } else {
        InsertSorts(x, rest, key);
        KeysOfCons(xs[0], Insert(x, rest, key), key);
        NonDecreasingCons(key(xs[0]), Keys(Insert(x, rest, key), key));
      }
    }
  }

  lemma {:induction false} SortBySorts<T>(xs: seq<T>, key: T -> int)
    ensures NonDecreasing(Keys(SortBy(xs, key), key))
  {
    if xs == [] {
    } else {
      SortBySorts(xs[1..], key);
      InsertSorts(xs[0], SortBy(xs[1..], key), key);
    }
  }

  /** The elements with the given key, in order. */
  function WithKey<T>(xs: seq<T>, key: T -> int, k: int): seq<T> {
    if xs == [] then []
    else if key(xs[0]) == k then [xs[0]] + WithKey(xs[1..], key, k)
    else WithKey(xs[1..], key, k)
  }

  lemma {:induction false} InsertIsStable<T>(x: T, xs: seq<T>, key: T -> int, k: int)
    ensures WithKey(Insert(x, xs, key), key, k) == WithKey([x] + xs, key, k)
  {
    assert ([x] + xs)[1..] == xs;
    if xs != [] && key(x) > key(xs[0]) {
      InsertIsStable(x, xs[1..], key, k);
      assert ([x] + xs[1..])[1..] == xs[1..];
      var r := Insert(x, xs[1..], key);
      assert ([xs[0]] + r)[1..] == r;
    }
  }

  /** Sorting keeps the order of elements with equal keys. */
  lemma {:induction false} SortByIsStable<T>(xs: seq<T>, key: T -> int, k: int)
    ensures WithKey(SortBy(xs, key), key, k) == WithKey(xs, key, k)
  {
    if xs == [] {
    } else {
      SortByIsStable(xs[1..], key, k);
      var rest := SortBy(xs[1..], key);
      InsertIsStable(xs[0], rest, key, k);
      assert ([xs[0]] + rest)[1..] == rest;
    }
  }

  lemma DistinctSnoc(keys: seq<int>, k: int)
    requires Distinct(keys)
    ensures k !in keys ==> Distinct(keys + [k])
  {
  }

  lemma {:induction false} InsertLengthens<T>(x: T, xs: seq<T>, key: T -> int)
    ensures |Insert(x, xs, key)| == |xs| + 1
  {
    if xs == [] {
    } else {
      InsertLengthens(x, xs[1..], key);
    }
  }

  /** The first element after sorting has the least key. */
  lemma {:induction false} SortByHead<T>(xs: seq<T>, key: T -> int)
    ensures |SortBy(xs, key)| == |xs|
    ensures forall x :: x in xs ==> key(SortBy(xs, key)[0]) <= key(x)
  {
    if xs == [] {
    } else {
      var rest := SortBy(xs[1..], key);
      SortByHead(xs[1..], key);
      InsertLengthens(xs[0], rest, key);
      forall x | x in xs
        ensures key(SortBy(xs, key)[0]) <= key(x)
      {
        if x in xs[1..] {
          assert rest != [] && key(rest[0]) <= key(x);
        } else {
          assert x == xs[0];
        }
      }
    }
  }

  /** A strictly increasing list is determined by its elements. */
  lemma {:induction false} IncreasingIsUnique(a: seq<int>, b: seq<int>)
    requires Increasing(a) && Increasing(b)
    requires forall k :: k in a <==> k in b
    ensures a == b
  {
    assert b != [] ==> b[0] in b && b[0] in a;
    if a == [] {
    } else {
      assert a[0] in a && a[0] in b;
      assert b[0] in b && b[0] in a;
      assert a[0] == b[0];
      assert a == [a[0]] + a[1..] && b == [b[0]] + b[1..];
      assert forall k :: k in a[1..] <==> k in a && k != a[0];
      assert forall k :: k in b[1..] <==> k in b && k != b[0];
      IncreasingIsUnique(a[1..], b[1..]);
    }
  }
}
