/**
 * `Array.prototype.sort` with a numeric comparator `(a, b) => key(a) - key(b)`: a stable sort by
 * an integer key, written as insertion sort. A descending sort is the ascending sort by the
 * negated key.
 */
module Sorting {

  /** The keys do not decrease along `s`. */
  predicate SortedBy<T>(s: seq<T>, key: T -> int) {
    forall i, j :: 0 <= i < j < |s| ==> key(s[i]) <= key(s[j])
  }

  /** Inserts `x` after every element whose key is at most its own. */
  function InsertBy<T>(x: T, s: seq<T>, key: T -> int): (r: seq<T>)
    ensures |r| == |s| + 1
    ensures multiset(r) == multiset(s) + multiset{x}
  {
    if |s| == 0 then [x]
    else if key(s[0]) <= key(x) then
      assert s == [s[0]] + s[1..];
      [s[0]] + InsertBy(x, s[1..], key)
    else [x] + s
  }

  /** Inserting into a sorted sequence keeps it sorted. */
  lemma {:induction false} InsertKeepsSorted<T>(x: T, s: seq<T>, key: T -> int)
    requires SortedBy(s, key)
    ensures SortedBy(InsertBy(x, s, key), key)
  {
    if |s| > 0 && key(s[0]) <= key(x) {
      var rest := InsertBy(x, s[1..], key);
      InsertKeepsSorted(x, s[1..], key);
      assert s == [s[0]] + s[1..];
      forall i | 0 <= i < |rest| ensures key(s[0]) <= key(rest[i]) {
        assert rest[i] in multiset(s[1..]) + multiset{x};
      }
    }
  }

  /** The elements of `s`, stably sorted by `key`. */
  function SortBy<T>(s: seq<T>, key: T -> int): (r: seq<T>)
    ensures |r| == |s|
    ensures multiset(r) == multiset(s)
    ensures SortedBy(r, key)
    decreases |s|
  {
    if |s| == 0 then []
    else
      var init := s[..|s| - 1];
      assert s == init + [s[|s| - 1]];
      InsertKeepsSorted(s[|s| - 1], SortBy(init, key), key);
      InsertBy(s[|s| - 1], SortBy(init, key), key)
  }

  /** A permutation lists the same elements. */
  lemma SameElements<T>(a: seq<T>, b: seq<T>, x: T)
    requires multiset(a) == multiset(b)
    ensures x in a <==> x in b
  {
    assert x in a <==> x in multiset(a);
    assert x in b <==> x in multiset(b);
  }
}
