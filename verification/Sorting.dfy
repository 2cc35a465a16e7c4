/** A stable sort by a real key, as the library sort the source calls. */
module Sorting {

  predicate SortedBy<T>(s: seq<T>, key: T -> real) {
    forall i, j :: 0 <= i < j < |s| ==> key(s[i]) <= key(s[j])
  }

  /** `x` goes after every element with the same key. */
  function InsertLast<T>(s: seq<T>, x: T, key: T -> real): seq<T> {
    if s == [] || key(s[|s| - 1]) <= key(x) then s + [x]
    else InsertLast(s[..|s| - 1], x, key) + [s[|s| - 1]]
  }

  function StableSort<T>(s: seq<T>, key: T -> real): seq<T> {
    if s == [] then [] else InsertLast(StableSort(s[..|s| - 1], key), s[|s| - 1], key)
  }

  lemma {:induction false} InsertLastPermutes<T>(s: seq<T>, x: T, key: T -> real)
    ensures multiset(InsertLast(s, x, key)) == multiset(s) + multiset{x}
  {
    if s != [] && key(s[|s| - 1]) > key(x) {
      assert s == s[..|s| - 1] + [s[|s| - 1]];
      InsertLastPermutes(s[..|s| - 1], x, key);
    }
  }

  predicate AtMost<T>(s: seq<T>, bound: real, key: T -> real) {
    forall i :: 0 <= i < |s| ==> key(s[i]) <= bound
  }

  lemma {:induction false} InsertLastAtMost<T>(s: seq<T>, x: T, bound: real, key: T -> real)
    requires AtMost(s, bound, key) && key(x) <= bound
    ensures AtMost(InsertLast(s, x, key), bound, key)
  {
    if s != [] { InsertLastAtMost(s[..|s| - 1], x, bound, key); }
  }

  lemma {:induction false} InsertLastSorts<T>(s: seq<T>, x: T, key: T -> real)
    requires SortedBy(s, key)
    ensures SortedBy(InsertLast(s, x, key), key)
  {
    if s != [] && key(s[|s| - 1]) > key(x) {
      InsertLastSorts(s[..|s| - 1], x, key);
      InsertLastAtMost(s[..|s| - 1], x, key(s[|s| - 1]), key);
    }
  }

  lemma {:induction false} StableSortSorts<T>(s: seq<T>, key: T -> real)
    ensures SortedBy(StableSort(s, key), key)
    ensures multiset(StableSort(s, key)) == multiset(s)
    ensures |StableSort(s, key)| == |s|
  {
    if s != [] {
      var n := |s| - 1;
      assert s == s[..n] + [s[n]];
      StableSortSorts(s[..n], key);
      InsertLastSorts(StableSort(s[..n], key), s[n], key);
      InsertLastPermutes(StableSort(s[..n], key), s[n], key);
    }
    assert |multiset(StableSort(s, key))| == |StableSort(s, key)| && |multiset(s)| == |s|;
  }

  /** A sorted sequence is left alone. */
  lemma {:induction false} StableSortFixes<T>(s: seq<T>, key: T -> real)
    requires SortedBy(s, key)
    ensures StableSort(s, key) == s
  {
    if s != [] { StableSortFixes(s[..|s| - 1], key); }
  }

  /** The elements with one key, in order. */
  function WithKey<T>(s: seq<T>, key: T -> real, v: real): seq<T> {
    if s == [] then []
    else WithKey(s[..|s| - 1], key, v) + if key(s[|s| - 1]) == v then [s[|s| - 1]] else []
  }

  lemma {:induction false} InsertLastStable<T>(s: seq<T>, x: T, key: T -> real, v: real)
    requires SortedBy(s, key)
    ensures WithKey(InsertLast(s, x, key), key, v) == WithKey(s, key, v) + if key(x) == v then [x] else []
  {
    if s == [] || key(s[|s| - 1]) <= key(x) {
      assert (s + [x])[..|s|] == s;
    } else {
      var front, last := s[..|s| - 1], s[|s| - 1];
      InsertLastStable(front, x, key, v);
      var r := InsertLast(front, x, key);
      assert (r + [last])[..|r|] == r;
    }
  }

  /** Elements with the same key keep their order. */
  lemma {:induction false} StableSortStable<T>(s: seq<T>, key: T -> real, v: real)
    ensures WithKey(StableSort(s, key), key, v) == WithKey(s, key, v)
  {
    if s != [] {
      var n := |s| - 1;
      StableSortStable(s[..n], key, v);
      StableSortSorts(s[..n], key);
      InsertLastStable(StableSort(s[..n], key), s[n], key, v);
    }
  }
}
