/**
  A stable sort by an integer key. It models `Array.prototype.sort` called with a
  consistent comparator of the form `(a, b) => key(a) - key(b)`: the result is in
  non-decreasing key order, is a permutation of the input, and keeps the input
  order among elements with equal keys (the sort is stable since ECMAScript 2019).
*/
module Sorting {

  ghost predicate SortedByKey<T>(s: seq<T>, key: T -> int) {
    forall i, j :: 0 <= i < j < |s| ==> key(s[i]) <= key(s[j])
  }

  /** The elements of `s` whose key is `k`, in their order in `s`. */
  function WithKey<T>(s: seq<T>, key: T -> int, k: int): seq<T> {
    if |s| == 0 then []
    else (if key(s[0]) == k then [s[0]] else []) + WithKey(s[1..], key, k)
  }

  /** Places `x` in front of the first element whose key is not smaller than its own. */
  function Insert<T>(x: T, s: seq<T>, key: T -> int): (r: seq<T>)
    ensures multiset(r) == multiset(s) + multiset{x}
    ensures |r| == |s| + 1
  {
    if |s| == 0 then [x]
    else if key(x) <= key(s[0]) then [x] + s
    else
      assert s == [s[0]] + s[1..];
      [s[0]] + Insert(x, s[1..], key)
  }

  lemma {:induction false} InsertKeepsSorted<T>(x: T, s: seq<T>, key: T -> int)
    requires SortedByKey(s, key)
    ensures SortedByKey(Insert(x, s, key), key)
  {
    if |s| == 0 {
    } else if key(x) <= key(s[0]) {
      SortedCons(x, s, key);
    } else {
      var t := Insert(x, s[1..], key);
      assert s == [s[0]] + s[1..];
      InsertKeepsSorted(x, s[1..], key);
      forall y | y in t ensures key(s[0]) <= key(y) {
        assert y in multiset(t);
        assert y == x || y in s[1..];
      }
      SortedCons(s[0], t, key);
    }
  }

  lemma SortedCons<T>(a: T, t: seq<T>, key: T -> int)
    requires SortedByKey(t, key)
    requires forall y :: y in t ==> key(a) <= key(y)
    ensures SortedByKey([a] + t, key)
  {
    var r := [a] + t;
    forall i, j | 0 <= i < j < |r| ensures key(r[i]) <= key(r[j]) {
      assert r[j] == t[j - 1];
      if i > 0 {
        assert r[i] == t[i - 1];
      } else {
        assert t[j - 1] in t;
      }
    }
  }

  function SortByKey<T>(s: seq<T>, key: T -> int): (r: seq<T>)
    ensures multiset(r) == multiset(s)
    ensures |r| == |s|
    ensures SortedByKey(r, key)
  {
    if |s| == 0 then []
    else
      assert s == [s[0]] + s[1..];
      var t := SortByKey(s[1..], key);
      InsertKeepsSorted(s[0], t, key);
      Insert(s[0], t, key)
  }

  lemma {:induction false} InsertWithKey<T>(x: T, s: seq<T>, key: T -> int, k: int)
    requires SortedByKey(s, key)
    ensures WithKey(Insert(x, s, key), key, k)
         == (if key(x) == k then [x] else []) + WithKey(s, key, k)
  {
    if |s| == 0 {
      WithKeyCons(x, [], key, k);
    } else if key(x) <= key(s[0]) {
      WithKeyCons(x, s, key, k);
    } else {
      var t, w := Insert(x, s[1..], key), WithKey(s[1..], key, k);
      assert Insert(x, s, key) == [s[0]] + t;
      SortedTail(s, key);
      InsertWithKey(x, s[1..], key, k);
      WithKeyCons(s[0], t, key, k);
      WithKeyCons(s[0], s[1..], key, k);
      assert [s[0]] + s[1..] == s;
      if key(x) == k {
        // s[0] precedes x only when its key is smaller, so it is not in the k-group
        assert key(s[0]) != k;
        assert WithKey([s[0]] + t, key, k) == [x] + w;
      } else {
        assert WithKey(t, key, k) == w;
      }
    }
  }

  lemma WithKeyCons<T>(a: T, t: seq<T>, key: T -> int, k: int)
    ensures WithKey([a] + t, key, k) == (if key(a) == k then [a] else []) + WithKey(t, key, k)
  {
    assert ([a] + t)[1..] == t;
  }

  lemma SortedTail<T>(s: seq<T>, key: T -> int)
    requires |s| > 0 && SortedByKey(s, key)
    ensures SortedByKey(s[1..], key)
  {
    forall i, j | 0 <= i < j < |s| - 1 ensures key(s[1..][i]) <= key(s[1..][j]) {
      assert s[1..][i] == s[i + 1] && s[1..][j] == s[j + 1];
    }
  }

  /** Stability: for every key value, the sort keeps the input order of the elements with that key. */
  lemma {:induction false} SortIsStable<T>(s: seq<T>, key: T -> int, k: int)
    ensures WithKey(SortByKey(s, key), key, k) == WithKey(s, key, k)
  {
    if |s| > 0 {
      SortIsStable(s[1..], key, k);
      InsertWithKey(s[0], SortByKey(s[1..], key), key, k);
    }
  }

  /** Sorting a list that is already in key order changes nothing. */
  lemma {:induction false} SortOfSortedIsIdentity<T>(s: seq<T>, key: T -> int)
    requires SortedByKey(s, key)
    ensures SortByKey(s, key) == s
  {
    if |s| > 0 {
      assert SortedByKey(s[1..], key);
      SortOfSortedIsIdentity(s[1..], key);
      assert s == [s[0]] + s[1..];
      if |s| > 1 {
        assert key(s[0]) <= key(s[1]);
      }
    }
  }
}
