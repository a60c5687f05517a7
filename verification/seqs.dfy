/** Sequence helpers shared by the query views, the question browser and the
    profile handlers: JavaScript's `Array.prototype.filter` and the notions
    needed to state what it keeps. */
module Seqs {

  /** `a` can be obtained from `b` by deleting elements, i.e. `a` keeps the
      relative order of the elements it takes from `b`. */
  predicate IsSubsequence<T(==)>(a: seq<T>, b: seq<T>)
    decreases |b|
  {
    if a == [] then true
    else if b == [] then false
    else if a[0] == b[0] then IsSubsequence(a[1..], b[1..])
    else IsSubsequence(a, b[1..])
  }

  /** Putting an element in front of `b` keeps every subsequence of `b`. */
  lemma {:induction false} SubsequenceCons<T>(a: seq<T>, x: T, b: seq<T>)
    requires IsSubsequence(a, b)
    ensures IsSubsequence(a, [x] + b)
    decreases |a| + |b|
  {
    var xb := [x] + b;
    assert xb[1..] == b;
    if a != [] && a[0] == x {
      if a[0] == b[0] {
        SubsequenceCons(a[1..], b[0], b[1..]);
      } else {
        SubsequenceCons(a, x, b[1..]);
        assert ([x] + b[1..])[1..] == b[1..];
        SubsequenceCons(a[1..], b[0], b[1..]);
      }
      assert [b[0]] + b[1..] == b;
    }
  }

  /** Putting any sequence in front of `b` keeps every subsequence of `b`. */
  lemma {:induction false} SubsequencePrefixed<T>(a: seq<T>, c: seq<T>, b: seq<T>)
    requires IsSubsequence(a, b)
    ensures IsSubsequence(a, c + b)
    decreases |c|
  {
    if c != [] {
      SubsequencePrefixed(a, c[1..], b);
      SubsequenceCons(a, c[0], c[1..] + b);
      assert [c[0]] + (c[1..] + b) == c + b;
    } else {
      assert c + b == b;
    }
  }

  /** Subsequences of two sequences concatenate to a subsequence of their
      concatenation. */
  lemma {:induction false} SubsequenceConcat<T>(a1: seq<T>, b1: seq<T>, a2: seq<T>, b2: seq<T>)
    requires IsSubsequence(a1, b1) && IsSubsequence(a2, b2)
    ensures IsSubsequence(a1 + a2, b1 + b2)
    decreases |b1|
  {
    if a1 == [] {
      SubsequencePrefixed(a2, b1, b2);
      assert a1 + a2 == a2;
    } else {
      var a, b := a1 + a2, b1 + b2;
      assert a[0] == a1[0] && b[0] == b1[0];
      assert b[1..] == b1[1..] + b2;
      if a1[0] == b1[0] {
        SubsequenceConcat(a1[1..], b1[1..], a2, b2);
        assert a[1..] == a1[1..] + a2;
      } else {
        SubsequenceConcat(a1, b1[1..], a2, b2);
      }
    }
  }

  /** Keeping or dropping each of four elements, in turn, yields a subsequence
      of the four. */
  lemma PickedInOrder<T>(a: seq<T>, b: seq<T>, c: seq<T>, d: seq<T>, w: T, x: T, y: T, z: T)
    requires a == [] || a == [w]
    requires b == [] || b == [x]
    requires c == [] || c == [y]
    requires d == [] || d == [z]
    ensures IsSubsequence(a + b + c + d, [w, x, y, z])
  {
    SubsequenceConcat(a, [w], b, [x]);
    assert [w] + [x] == [w, x];
    SubsequenceConcat(a + b, [w, x], c, [y]);
    assert [w, x] + [y] == [w, x, y];
    SubsequenceConcat(a + b + c, [w, x, y], d, [z]);
    assert [w, x, y] + [z] == [w, x, y, z];
  }

  /** No element occurs twice. */
  predicate NoDuplicates<T(==)>(xs: seq<T>) {
    forall i, j :: 0 <= i < j < |xs| ==> xs[i] != xs[j]
  }

  /** The elements of `xs` that `keep` accepts, in their original order
      (`xs.filter(keep)`). */
  function Filter<T(==,!new)>(xs: seq<T>, keep: T -> bool): (r: seq<T>)
    ensures |r| <= |xs|
    ensures forall x :: multiset(r)[x] == if keep(x) then multiset(xs)[x] else 0
    ensures forall x :: x in r <==> x in xs && keep(x)
    ensures IsSubsequence(r, xs)
  {
    if xs == [] then []
    else
      var rest := Filter(xs[1..], keep);
      assert xs == [xs[0]] + xs[1..];
      if keep(xs[0]) then
        var r := [xs[0]] + rest;
        assert r[1..] == rest;
        r
      else
        rest
  }

  /** A filter whose predicate accepts every element returns its input unchanged. */
  lemma {:induction false} FilterKeepsAll<T(!new)>(xs: seq<T>, keep: T -> bool)
    requires forall i :: 0 <= i < |xs| ==> keep(xs[i])
    ensures Filter(xs, keep) == xs
  {
    if xs != [] {
      FilterKeepsAll(xs[1..], keep);
    }
  }

  /** Filtering twice by the same predicate is filtering once. */
  lemma {:induction false} FilterIdempotent<T(!new)>(xs: seq<T>, keep: T -> bool)
    ensures Filter(Filter(xs, keep), keep) == Filter(xs, keep)
  {
    var r := Filter(xs, keep);
    forall i | 0 <= i < |r|
      ensures keep(r[i])
    {
      assert r[i] in r;
    }
    FilterKeepsAll(r, keep);
  }

  /** Duplicate freedom stated through multiplicities. */
  lemma {:induction false} NoDuplicatesCounts<T>(xs: seq<T>)
    ensures NoDuplicates(xs) <==> forall x :: multiset(xs)[x] <= 1
  {
    if xs != [] {
      NoDuplicatesCounts(xs[1..]);
      assert xs == [xs[0]] + xs[1..];
      if NoDuplicates(xs) {
        assert xs[0] !in xs[1..];
      }
      if forall x :: multiset(xs)[x] <= 1 {
        assert forall x :: multiset(xs[1..])[x] <= multiset(xs)[x];
        assert multiset(xs[1..])[xs[0]] == 0;
        forall i, j | 0 <= i < j < |xs|
          ensures xs[i] != xs[j]
        {
          if i == 0 {
            assert xs[j] in xs[1..];
          } else {
            assert xs[1..][i - 1] != xs[1..][j - 1];
          }
        }
      }
    }
  }
}
