/** Stable ascending sort by a real-valued key.  It stands for the two library
    sorts the matcher relies on: `IntStream.sorted()` over quantised scores and
    `List.sort(Comparator.comparing(Prediction::getScore))` over the summary.
    The functions promise only their length; that the result is ordered and
    a permutation of the input is proved by the lemmas below. */
module Sorting {

  /** The keys of `s` never decrease from left to right. */
  ghost predicate SortedBy<T>(s: seq<T>, key: T -> real) {
    forall i, j :: 0 <= i < j < |s| ==> key(s[i]) <= key(s[j])
  }

  /** The keys of `s` never increase from left to right. */
  ghost predicate DescendingBy<T>(s: seq<T>, key: T -> real) {
    forall i, j :: 0 <= i < j < |s| ==> key(s[i]) >= key(s[j])
  }

  /** Inserts `x` into `s` before the first element whose key is larger than
      its own, so that `x` comes after the elements with an equal key. */
  function InsertBy<T>(x: T, s: seq<T>, key: T -> real): (r: seq<T>)
    ensures |r| == |s| + 1
  {
    if s == [] then [x]
    else if key(x) < key(s[0]) then [x] + s
    else [s[0]] + InsertBy(x, s[1..], key)
  }

  /** Insertion sort that takes the elements of `s` from left to right. */
  function SortBy<T>(s: seq<T>, key: T -> real): (r: seq<T>)
    ensures |r| == |s|
  {
    if s == [] then []
    else InsertBy(s[|s| - 1], SortBy(s[..|s| - 1], key), key)
  }

  lemma {:induction false} InsertByPermutes<T>(x: T, s: seq<T>, key: T -> real)
    ensures multiset(InsertBy(x, s, key)) == multiset(s) + multiset{x}
  {
    if s != [] && key(s[0]) <= key(x) {
      InsertByPermutes(x, s[1..], key);
      assert s == [s[0]] + s[1..];
    }
  }

  /** Every element of `InsertBy(x, s, key)` is `x` or an element of `s`. */
  lemma InsertByMembers<T>(x: T, s: seq<T>, key: T -> real)
    ensures forall y :: y in InsertBy(x, s, key) ==> y == x || y in s
  {
    InsertByPermutes(x, s, key);
    forall y | y in InsertBy(x, s, key) ensures y == x || y in s {
      assert y in multiset(InsertBy(x, s, key));
    }
  }

  lemma {:induction false} InsertBySorted<T>(x: T, s: seq<T>, key: T -> real)
    requires SortedBy(s, key)
    ensures SortedBy(InsertBy(x, s, key), key)
  {
    if s != [] && key(s[0]) <= key(x) {
      var tail := s[1..];
      var rest := InsertBy(x, tail, key);
      assert SortedBy(tail, key);
      InsertBySorted(x, tail, key);
      InsertByMembers(x, tail, key);
      assert InsertBy(x, s, key) == [s[0]] + rest;
      forall k | 0 <= k < |rest| ensures key(s[0]) <= key(rest[k]) {
        assert rest[k] in rest;
        if rest[k] != x {
          var m :| 0 <= m < |tail| && tail[m] == rest[k];
          assert tail[m] == s[m + 1];
        }
      }
    }
  }

  /** `SortBy` returns its input in ascending order of `key`, with every
      element kept as often as it occurs. */
  lemma {:induction false} SortByCorrect<T>(s: seq<T>, key: T -> real)
    ensures SortedBy(SortBy(s, key), key)
    ensures multiset(SortBy(s, key)) == multiset(s)
  {
    if s != [] {
      var front := s[..|s| - 1];
      SortByCorrect(front, key);
      InsertBySorted(s[|s| - 1], SortBy(front, key), key);
      InsertByPermutes(s[|s| - 1], SortBy(front, key), key);
      assert s == front + [s[|s| - 1]];
    }
  }
}
