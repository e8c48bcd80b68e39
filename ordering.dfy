/** `Array.prototype.sort` with a comparator `(a, b) => key(b) - key(a)`:
    a stable sort into descending order of an integer key. The store's
    `order(..., { ascending: false })` is modelled by the same sort. */
module Ordering {
  predicate SortedDesc<T>(s: seq<T>, key: T -> int) {
    forall i, j | 0 <= i < j < |s| :: key(s[i]) >= key(s[j])
  }

  /** `x` placed before the first element whose key is not larger. */
  function InsertDesc<T>(x: T, s: seq<T>, key: T -> int): (r: seq<T>)
    ensures |r| == |s| + 1
  {
    if s == [] || key(s[0]) <= key(x) then [x] + s
    else [s[0]] + InsertDesc(x, s[1..], key)
  }

  /** Inserting adds `x` and loses nothing. */
  lemma {:induction false} InsertDescPermutes<T>(x: T, s: seq<T>, key: T -> int)
    ensures multiset(InsertDesc(x, s, key)) == multiset(s) + multiset{x}
  {
    if s != [] && key(s[0]) > key(x) {
      InsertDescPermutes(x, s[1..], key);
      assert s == [s[0]] + s[1..];
    }
  }

  lemma {:induction false} InsertDescSorted<T>(x: T, s: seq<T>, key: T -> int)
    requires SortedDesc(s, key)
    ensures SortedDesc(InsertDesc(x, s, key), key)
  {
    if s != [] && key(s[0]) > key(x) {
      var rest := InsertDesc(x, s[1..], key);
      InsertDescSorted(x, s[1..], key);
      var r := [s[0]] + rest;
      assert InsertDesc(x, s, key) == r;
      assert rest[0] == x || (|s| > 1 && rest[0] == s[1]);
      assert key(s[0]) >= key(rest[0]);
      forall i, j | 0 <= i < j < |r| ensures key(r[i]) >= key(r[j]) {
        assert r[j] == rest[j - 1];
        if i > 0 {
          assert r[i] == rest[i - 1];
        } else if j > 1 {
          assert key(rest[0]) >= key(rest[j - 1]);
        }
      }
    }
  }

  function SortDesc<T(==)>(s: seq<T>, key: T -> int): (r: seq<T>)
    ensures |r| == |s|
    ensures multiset(r) == multiset(s)
    ensures SortedDesc(r, key)
  {
    if s == [] then []
    else
      assert s == [s[0]] + s[1..];
      var rest := SortDesc(s[1..], key);
      InsertDescSorted(s[0], rest, key);
      InsertDescPermutes(s[0], rest, key);
      InsertDesc(s[0], rest, key)
  }

  /** The elements with key `k`, in their order. */
  function WithKey<T>(s: seq<T>, key: T -> int, k: int): seq<T> {
    if s == [] then [] else (if key(s[0]) == k then [s[0]] else []) + WithKey(s[1..], key, k)
  }

  lemma WithKeyCons<T>(y: T, s: seq<T>, key: T -> int, k: int)
    ensures WithKey([y] + s, key, k) == (if key(y) == k then [y] else []) + WithKey(s, key, k)
  {
    assert ([y] + s)[1..] == s;
  }

  lemma {:induction false} InsertDescStable<T>(x: T, s: seq<T>, key: T -> int, k: int)
    ensures WithKey(InsertDesc(x, s, key), key, k)
         == (if key(x) == k then [x] else []) + WithKey(s, key, k)
  {
    if s == [] || key(s[0]) <= key(x) {
      assert InsertDesc(x, s, key) == [x] + s;
      WithKeyCons(x, s, key, k);
    } else {
      var rest := InsertDesc(x, s[1..], key);
      assert InsertDesc(x, s, key) == [s[0]] + rest;
      InsertDescStable(x, s[1..], key, k);
      WithKeyCons(s[0], rest, key, k);
      assert s == [s[0]] + s[1..];
      WithKeyCons(s[0], s[1..], key, k);
      assert key(s[0]) != k || key(x) != k;
    }
  }

  /** The sort is stable: elements with equal keys keep their relative order. */
  lemma {:induction false} SortDescStable<T>(s: seq<T>, key: T -> int, k: int)
    ensures WithKey(SortDesc(s, key), key, k) == WithKey(s, key, k)
  {
    if s != [] {
      SortDescStable(s[1..], key, k);
      InsertDescStable(s[0], SortDesc(s[1..], key), key, k);
    }
  }

  /** Sorting a sequence already in descending order leaves it as it is. */
  lemma {:induction false} SortDescOfSorted<T(!new)>(s: seq<T>, key: T -> int)
    requires SortedDesc(s, key)
    ensures SortDesc(s, key) == s
  {
    if s != [] {
      assert SortedDesc(s[1..], key);
      SortDescOfSorted(s[1..], key);
    }
  }
}
