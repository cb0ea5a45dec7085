/**
 * Sequence operations behind the dashboard's `Array.prototype.filter` and
 * `Array.prototype.sort` calls. JavaScript's sort is stable (ECMAScript 2019
 * and later), and every comparator in the dashboard is a difference of two
 * integer keys, so each sort is modelled as a stable sort by an integer key:
 * `SortBy` is an insertion sort, proved to be a sorted, stable permutation.
 */
module Seqs {

  /** `s.filter(p)`: the elements of `s` that satisfy `p`, in their order. */
  function Filter<T>(s: seq<T>, p: T -> bool): (r: seq<T>)
    ensures |r| <= |s|
  {
    if s == [] then [] else (if p(s[0]) then [s[0]] else []) + Filter(s[1..], p)
  }

  /** The filter keeps each element that satisfies `p` as often as it occurs, and no other element. */
  lemma {:induction false} FilterCounts<T(!new)>(s: seq<T>, p: T -> bool)
    ensures forall x :: multiset(Filter(s, p))[x] == if p(x) then multiset(s)[x] else 0
  {
    if s != [] {
      FilterCounts(s[1..], p);
      assert s == [s[0]] + s[1..];
      assert multiset(s) == multiset{s[0]} + multiset(s[1..]);
    }
  }

  /** Everything the filter keeps satisfies `p`. */
  lemma {:induction false} FilterSatisfies<T>(s: seq<T>, p: T -> bool)
    ensures forall i :: 0 <= i < |Filter(s, p)| ==> p(Filter(s, p)[i])
  {
    if s != [] {
      FilterSatisfies(s[1..], p);
      var rest := Filter(s[1..], p);
      if p(s[0]) {
        assert forall i :: 0 < i < |rest| + 1 ==> ([s[0]] + rest)[i] == rest[i - 1];
      }
    }
  }

  /** The summary of `Filter`: what it keeps, how often, and that it keeps nothing else. */
  lemma FilterSpec<T(!new)>(s: seq<T>, p: T -> bool)
    ensures forall x :: multiset(Filter(s, p))[x] == if p(x) then multiset(s)[x] else 0
    ensures forall i :: 0 <= i < |Filter(s, p)| ==> p(Filter(s, p)[i])
  {
    FilterCounts(s, p);
    FilterSatisfies(s, p);
  }

  /** Every element's key is at most the key of every later element. */
  ghost predicate SortedBy<T>(s: seq<T>, key: T -> int) {
    forall i, j :: 0 <= i < j < |s| ==> key(s[i]) <= key(s[j])
  }

  /**
   * Inserts `x` just before the first element whose key is not smaller than
   * `x`'s, so that `x` precedes every element of `s` with an equal key.
   */
  function Insert<T>(x: T, s: seq<T>, key: T -> int): (r: seq<T>)
    ensures |r| == |s| + 1
  {
    if s == [] || key(x) <= key(s[0]) then [x] + s else [s[0]] + Insert(x, s[1..], key)
  }

  /** Inserting adds exactly one occurrence of `x` and loses nothing. */
  lemma {:induction false} InsertCounts<T>(x: T, s: seq<T>, key: T -> int)
    ensures multiset(Insert(x, s, key)) == multiset(s) + multiset{x}
  {
    if !(s == [] || key(x) <= key(s[0])) {
      InsertCounts(x, s[1..], key);
      assert s == [s[0]] + s[1..];
    }
  }

  /** An element whose key bounds a sorted sequence from below can go in front of it. */
  lemma SortedPrepend<T>(x: T, s: seq<T>, key: T -> int)
    requires SortedBy(s, key)
    requires forall j :: 0 <= j < |s| ==> key(x) <= key(s[j])
    ensures SortedBy([x] + s, key)
  {
    var r := [x] + s;
    forall i, j | 0 <= i < j < |r| ensures key(r[i]) <= key(r[j]) {
      assert r[j] == s[j - 1];
      if i > 0 {
        assert r[i] == s[i - 1];
      }
    }
  }

  /** Inserting an element above a lower bound of the keys keeps every key above it. */
  lemma {:induction false} InsertKeepsLowerBound<T>(x: T, s: seq<T>, key: T -> int, lo: int)
    requires lo <= key(x) && forall j :: 0 <= j < |s| ==> lo <= key(s[j])
    ensures forall j :: 0 <= j < |Insert(x, s, key)| ==> lo <= key(Insert(x, s, key)[j])
  {
    if s == [] || key(x) <= key(s[0]) {
      var r := [x] + s;
      assert forall j :: 0 < j < |r| ==> r[j] == s[j - 1];
    } else {
      var tail := s[1..];
      assert forall j :: 0 <= j < |tail| ==> tail[j] == s[j + 1];
      InsertKeepsLowerBound(x, tail, key, lo);
      var r := [s[0]] + Insert(x, tail, key);
      assert forall j :: 0 < j < |r| ==> r[j] == Insert(x, tail, key)[j - 1];
    }
  }

  /** Inserting into a sorted sequence keeps it sorted. */
  lemma {:induction false} InsertSorted<T>(x: T, s: seq<T>, key: T -> int)
    requires SortedBy(s, key)
    ensures SortedBy(Insert(x, s, key), key)
  {
    if s == [] || key(x) <= key(s[0]) {
      assert forall j :: 0 < j < |s| ==> key(s[0]) <= key(s[j]);
      SortedPrepend(x, s, key);
    } else {
      var tail := s[1..];
      assert forall j :: 0 <= j < |tail| ==> tail[j] == s[j + 1];
      assert SortedBy(tail, key);
      InsertSorted(x, tail, key);
      InsertKeepsLowerBound(x, tail, key, key(s[0]));
      SortedPrepend(s[0], Insert(x, tail, key), key);
    }
  }

  /** `[...s].sort((a, b) => key(a) - key(b))`: a stable ascending sort by `key`. */
  function SortBy<T>(s: seq<T>, key: T -> int): (r: seq<T>)
    ensures |r| == |s|
    ensures multiset(r) == multiset(s)
    ensures SortedBy(r, key)
  {
    if s == [] then []
    else
      assert s == [s[0]] + s[1..];
      InsertSorted(s[0], SortBy(s[1..], key), key);
      InsertCounts(s[0], SortBy(s[1..], key), key);
      Insert(s[0], SortBy(s[1..], key), key)
  }

  /** The first and last elements of the sorted copy are elements `s[lo]` and `s[hi]` with the least and the greatest key. */
  lemma {:induction false} SortByEnds<T>(s: seq<T>, key: T -> int) returns (lo: nat, hi: nat)
    requires s != []
    ensures lo < |s| && hi < |s|
    ensures SortBy(s, key)[0] == s[lo] && SortBy(s, key)[|s| - 1] == s[hi]
    ensures forall i :: 0 <= i < |s| ==> key(s[lo]) <= key(s[i]) <= key(s[hi])
  {
    var r := SortBy(s, key);
    assert r[0] in multiset(s) && r[|r| - 1] in multiset(s) by {
      assert r[0] in multiset(r) && r[|r| - 1] in multiset(r);
    }
    lo :| 0 <= lo < |s| && s[lo] == r[0];
    hi :| 0 <= hi < |s| && s[hi] == r[|r| - 1];
    forall i | 0 <= i < |s| ensures key(r[0]) <= key(s[i]) <= key(r[|r| - 1]) {
      assert s[i] in multiset(r);
      var j :| 0 <= j < |r| && r[j] == s[i];
      assert j == 0 || key(r[0]) <= key(r[j]);
      assert j == |r| - 1 || key(r[j]) <= key(r[|r| - 1]);
    }
  }

  /** The elements of `s` whose key is `k`, in their order in `s`. */
  function WithKey<T>(s: seq<T>, key: T -> int, k: int): seq<T> {
    if s == [] then [] else (if key(s[0]) == k then [s[0]] else []) + WithKey(s[1..], key, k)
  }

  lemma WithKeyCons<T>(y: T, s: seq<T>, key: T -> int, k: int)
    ensures WithKey([y] + s, key, k) == (if key(y) == k then [y] else []) + WithKey(s, key, k)
  {
    assert ([y] + s)[1..] == s;
  }

  /** Inserting `x` puts it ahead of every element with the same key and moves no other one past another. */
  lemma {:induction false} InsertKeepsKeyOrder<T>(x: T, s: seq<T>, key: T -> int, k: int)
    ensures WithKey(Insert(x, s, key), key, k) == (if key(x) == k then [x] else []) + WithKey(s, key, k)
  {
    if s == [] || key(x) <= key(s[0]) {
      WithKeyCons(x, s, key, k);
    } else {
      var rest := Insert(x, s[1..], key);
      WithKeyCons(s[0], rest, key, k);
      InsertKeepsKeyOrder(x, s[1..], key, k);
      WithKeyCons(s[0], s[1..], key, k);
      assert s == [s[0]] + s[1..];
    }
  }

  /** Stability: among elements with equal keys, the sort keeps the input order. */
  lemma {:induction false} SortByIsStable<T>(s: seq<T>, key: T -> int, k: int)
    ensures WithKey(SortBy(s, key), key, k) == WithKey(s, key, k)
  {
    if s != [] {
      SortByIsStable(s[1..], key, k);
      InsertKeepsKeyOrder(s[0], SortBy(s[1..], key), key, k);
    }
  }

  lemma FilterCons<T>(y: T, s: seq<T>, p: T -> bool)
    ensures Filter([y] + s, p) == (if p(y) then [y] else []) + Filter(s, p)
  {
    assert ([y] + s)[1..] == s;
  }

  /** The filter keeps the input order: among the elements with key `k`, it keeps those that pass, in their order. */
  lemma {:induction false} FilterWithKey<T>(s: seq<T>, p: T -> bool, key: T -> int, k: int)
    ensures WithKey(Filter(s, p), key, k) == Filter(WithKey(s, key, k), p)
  {
    if s != [] {
      FilterWithKey(s[1..], p, key, k);
      var y, rest, same := s[0], Filter(s[1..], p), WithKey(s[1..], key, k);
      assert s == [y] + s[1..];
      assert WithKey(rest, key, k) == Filter(same, p);
      if p(y) {
        assert Filter(s, p) == [y] + rest;
        WithKeyCons(y, rest, key, k);
      } else {
        assert Filter(s, p) == rest;
      }
      if key(y) == k {
        assert WithKey(s, key, k) == [y] + same;
        FilterCons(y, same, p);
      } else {
        assert WithKey(s, key, k) == same;
      }
    }
  }

  /** A filter that keeps every element returns its input. */
  lemma {:induction false} FilterKeepsAll<T>(s: seq<T>, p: T -> bool)
    requires forall i :: 0 <= i < |s| ==> p(s[i])
    ensures Filter(s, p) == s
  {
    if s != [] {
      var t := s[1..];
      assert forall i :: 0 <= i < |t| ==> p(t[i]) by {
        assert forall i :: 0 <= i < |t| ==> t[i] == s[i + 1];
      }
      FilterKeepsAll(t, p);
      assert Filter(s, p) == [s[0]] + t;
    }
  }

  /** Sorting moves elements but makes none: a property of every element survives it. */
  lemma SortByKeeps<T>(s: seq<T>, key: T -> int, p: T -> bool)
    requires forall i :: 0 <= i < |s| ==> p(s[i])
    ensures forall i :: 0 <= i < |SortBy(s, key)| ==> p(SortBy(s, key)[i])
  {
    var r := SortBy(s, key);
    forall i | 0 <= i < |r| ensures p(r[i]) {
      assert r[i] in multiset(s) by {
        assert r[i] in multiset(r);
      }
      var j :| 0 <= j < |s| && s[j] == r[i];
    }
  }
}
