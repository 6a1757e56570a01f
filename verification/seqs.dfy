/**
  Sequence operations the source takes from its languages' standard libraries:
  filtering (`Array.prototype.filter`, list comprehensions), Python's stable
  `list.sort(key=..., reverse=True)` and Python's slice `s[:n]`.
 */
module Seqs {

  function Min(a: int, b: int): int { if a <= b then a else b }

  function Max(a: int, b: int): int { if a >= b then a else b }

  // ---------------------------------------------------------------------------
  // Filtering
  // ---------------------------------------------------------------------------

  /** The elements of `s` that satisfy `p`, in their original order. */
  function Filter<T(==)>(s: seq<T>, p: T -> bool): (r: seq<T>)
    ensures |r| <= |s|
    ensures forall i :: 0 <= i < |r| ==> p(r[i]) && r[i] in s
    ensures forall i :: 0 <= i < |s| && p(s[i]) ==> s[i] in r
  {
    if |s| == 0 then []
    else if p(s[0]) then [s[0]] + Filter(s[1..], p)
    else Filter(s[1..], p)
  }

  /** `a` can be obtained from `b` by deleting elements (order is kept). */
  predicate IsSubsequence<T(==)>(a: seq<T>, b: seq<T>)
    decreases |b|
  {
    if |a| == 0 then true
    else if |b| == 0 then false
    else (a[0] == b[0] && IsSubsequence(a[1..], b[1..])) || IsSubsequence(a, b[1..])
  }

  lemma {:induction false} FilterIsSubsequence<T>(s: seq<T>, p: T -> bool)
    ensures IsSubsequence(Filter(s, p), s)
    decreases |s|
  {
    if |s| > 0 {
      FilterIsSubsequence(s[1..], p);
      var rest := Filter(s[1..], p);
      if p(s[0]) {
        assert Filter(s, p) == [s[0]] + rest;
        assert ([s[0]] + rest)[1..] == rest;
      } else {
        assert Filter(s, p) == rest;
      }
    }
  }

  lemma {:induction false} FilterConcat<T>(a: seq<T>, b: seq<T>, p: T -> bool)
    ensures Filter(a + b, p) == Filter(a, p) + Filter(b, p)
    decreases |a|
  {
    if |a| > 0 {
      assert (a + b)[0] == a[0];
      assert (a + b)[1..] == a[1..] + b;
      FilterConcat(a[1..], b, p);
    } else {
      assert a + b == b;
    }
  }

  /** Filtering a sequence all of whose elements pass leaves it unchanged. */
  lemma {:induction false} FilterAllPass<T>(s: seq<T>, p: T -> bool)
    requires forall i :: 0 <= i < |s| ==> p(s[i])
    ensures Filter(s, p) == s
    decreases |s|
  {
    if |s| > 0 {
      FilterAllPass(s[1..], p);
      assert [s[0]] + s[1..] == s;
    }
  }

  /** Filtering a sequence none of whose elements pass leaves nothing. */
  lemma {:induction false} FilterNonePass<T>(s: seq<T>, p: T -> bool)
    requires forall i :: 0 <= i < |s| ==> !p(s[i])
    ensures Filter(s, p) == []
    decreases |s|
  {
    if |s| > 0 {
      FilterNonePass(s[1..], p);
    }
  }

  // ---------------------------------------------------------------------------
  // Stable descending sort
  // ---------------------------------------------------------------------------

  /** Non-increasing by `key`. */
  predicate SortedDesc<T>(s: seq<T>, key: T -> real)
  {
    forall i, j :: 0 <= i < j < |s| ==> key(s[i]) >= key(s[j])
  }

  /**
    Inserts `x` before the first element whose key is not greater than its
    own, so that `x` precedes every element of `s` with an equal key.
   */
  function InsertDesc<T(==)>(x: T, s: seq<T>, key: T -> real): (r: seq<T>)
    requires SortedDesc(s, key)
    ensures |r| == |s| + 1
    ensures multiset(r) == multiset(s) + multiset{x}
    ensures SortedDesc(r, key)
  {
    if |s| == 0 || key(x) >= key(s[0]) then [x] + s
    else
      var rest := InsertDesc(x, s[1..], key);
      BoundedByMultiset(rest, s[1..], x, key, key(s[0]));
      assert s == [s[0]] + s[1..];
      [s[0]] + rest
  }

  /** Every element of a sequence holding `t` plus `x` has key at most `bound`. */
  lemma BoundedByMultiset<T>(r: seq<T>, t: seq<T>, x: T, key: T -> real, bound: real)
    requires multiset(r) == multiset(t) + multiset{x}
    requires forall j :: 0 <= j < |t| ==> key(t[j]) <= bound
    requires key(x) <= bound
    ensures forall j :: 0 <= j < |r| ==> key(r[j]) <= bound
  {
    forall j | 0 <= j < |r|
      ensures key(r[j]) <= bound
    {
      assert r[j] in multiset(r);
      if r[j] != x {
        assert r[j] in multiset(t);
        var i :| 0 <= i < |t| && t[i] == r[j];
      }
    }
  }

  /**
    Python's `sorted(s, key=key, reverse=True)`: a permutation of `s`,
    non-increasing by `key`; elements with equal keys keep their input order
    (see SortDescIsStable).
   */
  function SortDesc<T(==)>(s: seq<T>, key: T -> real): (r: seq<T>)
    ensures |r| == |s|
    ensures multiset(r) == multiset(s)
    ensures SortedDesc(r, key)
  {
    if |s| == 0 then []
    else
      assert s == [s[0]] + s[1..];
      InsertDesc(s[0], SortDesc(s[1..], key), key)
  }

  /** The elements of `s` whose key is exactly `k`, in order. */
  function WithKey<T>(s: seq<T>, key: T -> real, k: real): seq<T>
  {
    if |s| == 0 then []
    else if key(s[0]) == k then [s[0]] + WithKey(s[1..], key, k)
    else WithKey(s[1..], key, k)
  }

  lemma {:induction false} InsertDescWithKey<T>(x: T, s: seq<T>, key: T -> real, k: real)
    requires SortedDesc(s, key)
    ensures WithKey(InsertDesc(x, s, key), key, k)
         == (if key(x) == k then [x] + WithKey(s, key, k) else WithKey(s, key, k))
    decreases |s|
  {
    var r := InsertDesc(x, s, key);
    if |s| == 0 || key(x) >= key(s[0]) {
      assert r == [x] + s;
      assert r[1..] == s;
    } else {
      var rest := InsertDesc(x, s[1..], key);
      assert r == [s[0]] + rest;
      assert r[1..] == rest;
      InsertDescWithKey(x, s[1..], key, k);
    }
  }

  /**
    Stability: for every key value, the elements carrying it appear in the
    sorted output in exactly the order they had in the input.
   */
  lemma {:induction false} SortDescIsStable<T>(s: seq<T>, key: T -> real, k: real)
    ensures WithKey(SortDesc(s, key), key, k) == WithKey(s, key, k)
    decreases |s|
  {
    if |s| > 0 {
      SortDescIsStable(s[1..], key, k);
      InsertDescWithKey(s[0], SortDesc(s[1..], key), key, k);
    }
  }

  // ---------------------------------------------------------------------------
  // Python slicing
  // ---------------------------------------------------------------------------

  /** Python's `s[:n]`; a negative `n` counts from the end of `s`. */
  function TakePrefix<T>(s: seq<T>, n: int): (r: seq<T>)
    ensures r <= s
    ensures 0 <= n ==> |r| == Min(n, |s|)
    ensures n < 0 ==> |r| == Max(0, |s| + n)
  {
    if 0 <= n then s[..Min(n, |s|)]
    else s[..Max(0, |s| + n)]
  }

  /** A prefix of a sequence sorted by `key` is sorted by `key`. */
  lemma PrefixOfSortedIsSorted<T>(s: seq<T>, t: seq<T>, key: T -> real)
    requires SortedDesc(s, key)
    requires t <= s
    ensures SortedDesc(t, key)
  {
    forall i, j | 0 <= i < j < |t|
      ensures key(t[i]) >= key(t[j])
    {
      assert t[i] == s[i] && t[j] == s[j];
    }
  }
}
