/**
  A stable insertion sort by an integer key, standing in for
  `Array.prototype.sort` with a numeric comparator and for the database's
  `orderBy`. Descending orders use the negated key.
 */
module Sorting {

  /** `s` is in non-decreasing order of `key`. */
  predicate SortedBy<T>(s: seq<T>, key: T -> int) {
    forall i, j :: 0 <= i < j < |s| ==> key(s[i]) <= key(s[j])
  }

  /** No two members of `s` share a key. */
  predicate DistinctBy<T>(s: seq<T>, key: T -> int) {
    forall i, j :: 0 <= i < j < |s| ==> key(s[i]) != key(s[j])
  }

  /** Inserts `x` before the first member whose key is not smaller, so equal keys keep their order. */
  function Insert<T>(x: T, s: seq<T>, key: T -> int): (r: seq<T>)
    requires SortedBy(s, key)
    ensures SortedBy(r, key)
    ensures multiset(r) == multiset(s) + multiset{x}
    ensures |r| == |s| + 1
    ensures r[0] == x || (|s| > 0 && r[0] == s[0])
  {
    if |s| == 0 || key(x) <= key(s[0]) then [x] + s
    else
      var rest := Insert(x, s[1..], key);
      assert key(s[0]) <= key(rest[0]);
      assert s == [s[0]] + s[1..];
      [s[0]] + rest
  }

  /** Sorts `s` by `key`; members with equal keys keep their relative order. */
  function SortBy<T>(s: seq<T>, key: T -> int): (r: seq<T>)
    ensures SortedBy(r, key)
    ensures multiset(r) == multiset(s)
    ensures |r| == |s|
  {
    if |s| == 0 then []
    else
      assert s == [s[0]] + s[1..];
      Insert(s[0], SortBy(s[1..], key), key)
  }

  /** Sorting input that is already in order changes nothing. */
  lemma {:induction false} SortSorted<T>(s: seq<T>, key: T -> int)
    requires SortedBy(s, key)
    ensures SortBy(s, key) == s
  {
    if |s| > 0 {
      SortSorted(s[1..], key);
      assert s == [s[0]] + s[1..];
    }
  }

  lemma {:induction false} InsertDistinct<T>(x: T, s: seq<T>, key: T -> int)
    requires SortedBy(s, key) && DistinctBy(s, key)
    requires forall k :: 0 <= k < |s| ==> key(s[k]) != key(x)
    ensures DistinctBy(Insert(x, s, key), key)
  {
    if |s| > 0 && key(x) > key(s[0]) {
      InsertDistinct(x, s[1..], key);
      var rest := Insert(x, s[1..], key);
      forall k | 0 <= k < |rest|
        ensures key(rest[k]) != key(s[0])
      {
        assert rest[k] in multiset(s[1..]) + multiset{x};
        if rest[k] != x {
          assert rest[k] in s[1..];
        }
      }
    }
  }

  /** Sorting keeps keys distinct, so a sorted, distinct result is strictly increasing. */
  lemma {:induction false} SortDistinct<T>(s: seq<T>, key: T -> int)
    requires DistinctBy(s, key)
    ensures DistinctBy(SortBy(s, key), key)
    ensures forall i, j :: 0 <= i < j < |s| ==> key(SortBy(s, key)[i]) < key(SortBy(s, key)[j])
  {
    if |s| > 0 {
      SortDistinct(s[1..], key);
      var rest := SortBy(s[1..], key);
      forall k | 0 <= k < |rest|
        ensures key(rest[k]) != key(s[0])
      {
        assert rest[k] in multiset(s[1..]);
        var j :| 0 <= j < |s[1..]| && s[1..][j] == rest[k];
        assert s[j + 1] == rest[k];
      }
      InsertDistinct(s[0], rest, key);
    }
  }

  /** `s.slice(0, n)` */
  /** Sorting loses no element. */
  lemma SortKeeps<T>(s: seq<T>, key: T -> int, j: nat)
    requires j < |s|
    ensures s[j] in SortBy(s, key)
  {
    assert s[j] in multiset(s);
    assert s[j] in multiset(SortBy(s, key));
  }

  function Take<T>(s: seq<T>, n: nat): (r: seq<T>)
    ensures |r| <= n && |r| <= |s|
    ensures |r| == n || r == s
    ensures forall k :: 0 <= k < |r| ==> r[k] == s[k]
  {
    if |s| <= n then s else s[..n]
  }
}
