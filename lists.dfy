/** Sequence operations the list logic of the pages is built from:
    `Array.prototype.filter` and the first-occurrence order of a `Set`. */
module Lists {

  /** `s.filter(keep)`: the elements that pass, each as often as in `s`, in
      their original order. */
  function Filter<T(==,!new)>(s: seq<T>, keep: T -> bool): (r: seq<T>)
    ensures |r| <= |s|
    ensures forall x :: multiset(r)[x] == if keep(x) then multiset(s)[x] else 0
    ensures forall x :: x in r <==> x in s && keep(x)
  {
    if s == [] then []
    else
      assert s == [s[0]] + s[1..];
      (if keep(s[0]) then [s[0]] else []) + Filter(s[1..], keep)
  }

  /** Filtering with a test every element passes keeps the sequence. */
  lemma {:induction false} FilterAll<T(!new)>(s: seq<T>, keep: T -> bool)
    requires forall i | 0 <= i < |s| :: keep(s[i])
    ensures Filter(s, keep) == s
  {
    if s != [] {
      FilterAll(s[1..], keep);
    }
  }

  lemma FilterCons<T(!new)>(x: T, s: seq<T>, keep: T -> bool)
    ensures Filter([x] + s, keep) == (if keep(x) then [x] else []) + Filter(s, keep)
  {
    assert ([x] + s)[1..] == s;
  }

  predicate NoDuplicates<T(==,!new)>(s: seq<T>) {
    forall i, j | 0 <= i < j < |s| :: s[i] != s[j]
  }

  /** The index of the first occurrence of `x` in `s`. */
  function IndexOf<T(==,!new)>(s: seq<T>, x: T): (k: nat)
    requires x in s
    ensures k < |s| && s[k] == x
    ensures forall j | 0 <= j < k :: s[j] != x
  {
    if s[0] == x then 0 else 1 + IndexOf(s[1..], x)
  }

  lemma {:induction false} IndexOfExtend<T(!new)>(s: seq<T>, x: T, y: T)
    requires x in s
    ensures IndexOf(s + [y], x) == IndexOf(s, x)
  {
    if s[0] != x {
      assert (s + [y])[1..] == s[1..] + [y];
      IndexOfExtend(s[1..], x, y);
    }
  }

  /** `Array.from(new Set(s))`: each distinct element once, at the place of its
      first occurrence. */
  function Distinct<T(==,!new)>(s: seq<T>): (r: seq<T>)
    ensures forall x :: x in r <==> x in s
    ensures NoDuplicates(r)
  {
    if s == [] then []
    else
      var d := Distinct(s[..|s| - 1]);
      assert s == s[..|s| - 1] + [s[|s| - 1]];
      if s[|s| - 1] in d then d else d + [s[|s| - 1]]
  }

  /** The elements of `Distinct(s)` come in the order of their first
      occurrences in `s`. */
  lemma {:induction false} DistinctInFirstOccurrenceOrder<T(!new)>(s: seq<T>)
    ensures forall i, j | 0 <= i < j < |Distinct(s)| ::
      IndexOf(s, Distinct(s)[i]) < IndexOf(s, Distinct(s)[j])
  {
    if s != [] {
      var init, last := s[..|s| - 1], s[|s| - 1];
      var d := Distinct(init);
      assert s == init + [last];
      DistinctInFirstOccurrenceOrder(init);
      forall x | x in init ensures IndexOf(s, x) == IndexOf(init, x) {
        IndexOfExtend(init, x, last);
      }
      if last !in d {
        assert IndexOf(s, last) == |init|;
      }
    }
  }

  /** A prefix of `Distinct(s)` leaves out no element whose first occurrence
      comes before that of an element it holds. */
  lemma DistinctPrefixClosed<T(!new)>(s: seq<T>, n: nat)
    requires n <= |Distinct(s)|
    ensures forall k, t | 0 <= k < n && t in s && IndexOf(s, t) <= IndexOf(s, Distinct(s)[k]) ::
      t in Distinct(s)[..n]
  {
    var d := Distinct(s);
    DistinctInFirstOccurrenceOrder(s);
    forall k, t | 0 <= k < n && t in s && IndexOf(s, t) <= IndexOf(s, d[k]) ensures t in d[..n] {
      assert t in d;
      var m :| 0 <= m < |d| && d[m] == t;
      assert m <= k;
      assert d[..n][m] == t;
    }
  }
}
