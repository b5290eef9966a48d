/**
 * `Array.prototype.filter` on sequences, and the facts that pin it down:
 * the result is an order-preserving subsequence of the input that keeps
 * every element satisfying the predicate, as often as it occurs, and no other.
 */
module Sequences {

  /** The elements of `s` for which `p` holds, in their original order. */
  function Filter<T(==)>(s: seq<T>, p: T -> bool): (r: seq<T>)
    ensures |r| <= |s|
    ensures forall i :: 0 <= i < |r| ==> r[i] in s && p(r[i])
    ensures forall i :: 0 <= i < |s| && p(s[i]) ==> s[i] in r
  {
    if s == [] then []
    else if p(s[0]) then [s[0]] + Filter(s[1..], p)
    else Filter(s[1..], p)
  }

  /** `a` can be obtained from `b` by deleting elements (order is kept). */
  predicate IsSubsequence<T(==)>(a: seq<T>, b: seq<T>)
    decreases |b|
  {
    || a == []
    || (b != [] && ((a[0] == b[0] && IsSubsequence(a[1..], b[1..])) || IsSubsequence(a, b[1..])))
  }

  /** Filtering keeps the relative order of the surviving elements. */
  lemma {:induction false} FilterIsSubsequence<T>(s: seq<T>, p: T -> bool)
    ensures IsSubsequence(Filter(s, p), s)
  {
    if s != [] {
      FilterIsSubsequence(s[1..], p);
      if p(s[0]) {
        assert Filter(s, p)[1..] == Filter(s[1..], p);
      }
    }
  }

  /** Filtering keeps every occurrence of an element that satisfies `p` and none of the others. */
  lemma {:induction false} FilterCount<T>(s: seq<T>, p: T -> bool, x: T)
    ensures multiset(Filter(s, p))[x] == if p(x) then multiset(s)[x] else 0
  {
    if s != [] {
      FilterCount(s[1..], p, x);
      assert s == [s[0]] + s[1..];
    }
  }

  /** A subsequence never holds an element more often than the sequence it comes from. */
  lemma {:induction false} SubsequenceCount<T>(a: seq<T>, b: seq<T>, x: T)
    requires IsSubsequence(a, b)
    ensures multiset(a)[x] <= multiset(b)[x]
    decreases |b|
  {
    if a != [] {
      assert b == [b[0]] + b[1..];
      if a[0] == b[0] && IsSubsequence(a[1..], b[1..]) {
        SubsequenceCount(a[1..], b[1..], x);
        assert a == [a[0]] + a[1..];
      } else {
        SubsequenceCount(a, b[1..], x);
      }
    }
  }

  /**
   * The two facts above determine the filter completely: an order-preserving
   * subsequence with the filter's element counts is the filter.
   */
  lemma {:induction false} FilterUnique<T>(r: seq<T>, s: seq<T>, p: T -> bool)
    requires IsSubsequence(r, s)
    requires forall x :: multiset(r)[x] == if p(x) then multiset(s)[x] else 0
    ensures r == Filter(s, p)
    decreases |s|
  {
    if s == [] {
    } else {
      var h := s[0];
      assert s == [h] + s[1..];
      if r != [] && r[0] == h && IsSubsequence(r[1..], s[1..]) {
        assert r == [h] + r[1..];
        assert multiset(r)[h] >= 1;
        assert p(h);
        forall x ensures multiset(r[1..])[x] == if p(x) then multiset(s[1..])[x] else 0 {
          assert multiset(r)[x] == multiset(r[1..])[x] + (if x == h then 1 else 0);
        }
        FilterUnique(r[1..], s[1..], p);
      } else {
        assert IsSubsequence(r, s[1..]);
        SubsequenceCount(r, s[1..], h);
        assert multiset(s)[h] == multiset(s[1..])[h] + 1;
        assert !p(h);
        forall x ensures multiset(r)[x] == if p(x) then multiset(s[1..])[x] else 0 {
          if p(x) {
            assert x != h;
          }
        }
        FilterUnique(r, s[1..], p);
      }
    }
  }

  /** When every element satisfies `p`, filtering returns the sequence itself. */
  lemma {:induction false} FilterAll<T>(s: seq<T>, p: T -> bool)
    requires forall i :: 0 <= i < |s| ==> p(s[i])
    ensures Filter(s, p) == s
  {
    if s != [] {
      FilterAll(s[1..], p);
    }
  }

  /** Filtering twice with the same predicate is filtering once. */
  lemma FilterIdempotent<T>(s: seq<T>, p: T -> bool)
    ensures Filter(Filter(s, p), p) == Filter(s, p)
  {
    var r := Filter(s, p);
    forall i | 0 <= i < |r| ensures p(r[i]) {
      assert r[i] in r;
    }
    FilterAll(r, p);
  }

  /** Predicates that agree on every element filter alike. */
  lemma {:induction false} FilterCongruent<T>(s: seq<T>, p: T -> bool, q: T -> bool)
    requires forall x :: p(x) == q(x)
    ensures Filter(s, p) == Filter(s, q)
  {
    if s != [] {
      FilterCongruent(s[1..], p, q);
    }
  }
}
