/** The question page's orderings: a stable sort by an integer key in
    non-increasing order, as JavaScript's `Array.prototype.sort` does with a
    comparator of the shape `(a, b) => key(b) - key(a)` (the sort is stable
    since ECMAScript 2019). */
module Sorting {
  import opened Seqs

  /** Keys never grow from left to right. */
  predicate NonIncreasing<T>(xs: seq<T>, key: T -> int) {
    forall i, j :: 0 <= i < j < |xs| ==> key(xs[i]) >= key(xs[j])
  }

  /** The predicate "has key `v`", used to single out one class of equal keys. */
  function KeyIs<T>(key: T -> int, v: int): T -> bool {
    y => key(y) == v
  }

  /** No key in `xs` exceeds `b`. */
  predicate AllAtMost<T>(xs: seq<T>, key: T -> int, b: int) {
    forall j :: 0 <= j < |xs| ==> key(xs[j]) <= b
  }

  /** Inserts `x` in front of the first element whose key does not exceed
      `key(x)`, so `x` stays ahead of the elements with an equal key. */
  function InsertDesc<T(==,!new)>(x: T, xs: seq<T>, key: T -> int): (r: seq<T>)
    ensures multiset(r) == multiset(xs) + multiset{x}
    ensures |r| == |xs| + 1
  {
    if xs == [] || key(x) >= key(xs[0]) then
      [x] + xs
    else
      var rest := InsertDesc(x, xs[1..], key);
      assert xs == [xs[0]] + xs[1..];
      [xs[0]] + rest
  }

  /** The inserted sequence holds `x` and the elements of `xs`, nothing else. */
  lemma InsertDescMembers<T(!new)>(x: T, xs: seq<T>, key: T -> int)
    ensures forall y :: y in InsertDesc(x, xs, key) <==> y in xs || y == x
  {
    var r := InsertDesc(x, xs, key);
    forall y
      ensures y in r <==> y in xs || y == x
    {
      assert y in r <==> y in multiset(r);
      assert y in xs <==> y in multiset(xs);
    }
  }

  /** An insertion never raises the largest key above both `b` and `key(x)`. */
  lemma {:induction false} InsertDescBounded<T(!new)>(x: T, xs: seq<T>, key: T -> int, b: int)
    requires AllAtMost(xs, key, b) && key(x) <= b
    ensures AllAtMost(InsertDesc(x, xs, key), key, b)
  {
    var r := InsertDesc(x, xs, key);
    if xs == [] || key(x) >= key(xs[0]) {
      assert r == [x] + xs;
      forall j | 0 <= j < |r|
        ensures key(r[j]) <= b
      {
        if j > 0 { assert r[j] == xs[j - 1]; }
      }
    } else {
      var tail := xs[1..];
      var rest := InsertDesc(x, tail, key);
      assert r == [xs[0]] + rest;
      assert AllAtMost(tail, key, b) by {
        forall j | 0 <= j < |tail|
          ensures key(tail[j]) <= b
        {
          assert tail[j] == xs[j + 1];
        }
      }
      InsertDescBounded(x, tail, key, b);
      forall j | 0 <= j < |r|
        ensures key(r[j]) <= b
      {
        if j > 0 { assert r[j] == rest[j - 1]; }
      }
    }
  }

  /** A sequence is non-increasing when its head bounds a non-increasing tail. */
  lemma ConsNonIncreasing<T>(a: T, rest: seq<T>, key: T -> int)
    requires NonIncreasing(rest, key) && AllAtMost(rest, key, key(a))
    ensures NonIncreasing([a] + rest, key)
  {
    var r := [a] + rest;
    forall i, j | 0 <= i < j < |r|
      ensures key(r[i]) >= key(r[j])
    {
      assert r[j] == rest[j - 1];
      if i > 0 {
        assert r[i] == rest[i - 1];
      }
    }
  }

  /** Inserting into a non-increasing sequence keeps it non-increasing. */
  lemma {:induction false} InsertDescSorted<T(!new)>(x: T, xs: seq<T>, key: T -> int)
    requires NonIncreasing(xs, key)
    ensures NonIncreasing(InsertDesc(x, xs, key), key)
  {
    if xs == [] || key(x) >= key(xs[0]) {
      ConsNonIncreasing(x, xs, key);
    } else {
      var tail := xs[1..];
      assert NonIncreasing(tail, key);
      assert AllAtMost(tail, key, key(xs[0])) by {
        forall j | 0 <= j < |tail|
          ensures key(tail[j]) <= key(xs[0])
        {
          assert tail[j] == xs[j + 1];
        }
      }
      InsertDescSorted(x, tail, key);
      InsertDescBounded(x, tail, key, key(xs[0]));
      ConsNonIncreasing(xs[0], InsertDesc(x, tail, key), key);
    }
  }

  /** Filtering by one key value after an insertion: `x` lands ahead of every
      element with the same key, the others keep their relative order. */
  lemma {:induction false} InsertDescStable<T(!new)>(x: T, xs: seq<T>, key: T -> int, v: int)
    ensures Filter(InsertDesc(x, xs, key), KeyIs(key, v)) ==
            (if key(x) == v then [x] + Filter(xs, KeyIs(key, v)) else Filter(xs, KeyIs(key, v)))
  {
    var p := KeyIs(key, v);
    var r := InsertDesc(x, xs, key);
    if xs == [] || key(x) >= key(xs[0]) {
      assert r == [x] + xs;
      assert r[0] == x && r[1..] == xs;
    } else {
      var rest := InsertDesc(x, xs[1..], key);
      assert r == [xs[0]] + rest;
      assert r[0] == xs[0] && r[1..] == rest;
      InsertDescStable(x, xs[1..], key, v);
      assert key(xs[0]) > key(x);
      if key(x) == v {
        assert !p(xs[0]);
        assert Filter(r, p) == Filter(rest, p) == [x] + Filter(xs[1..], p);
        assert Filter(xs, p) == Filter(xs[1..], p);
      } else if p(xs[0]) {
        assert Filter(r, p) == [xs[0]] + Filter(rest, p);
        assert Filter(xs, p) == [xs[0]] + Filter(xs[1..], p);
      } else {
        assert Filter(r, p) == Filter(rest, p);
        assert Filter(xs, p) == Filter(xs[1..], p);
      }
    }
  }

  /** Insertion sort into non-increasing key order. */
  function SortDesc<T(==,!new)>(xs: seq<T>, key: T -> int): (r: seq<T>)
    ensures multiset(r) == multiset(xs)
    ensures |r| == |xs|
    ensures NonIncreasing(r, key)
    ensures forall v :: Filter(r, KeyIs(key, v)) == Filter(xs, KeyIs(key, v))
  {
    if xs == [] then []
    else
      var rest := SortDesc(xs[1..], key);
      assert xs == [xs[0]] + xs[1..];
      var r := InsertDesc(xs[0], rest, key);
      InsertDescSorted(xs[0], rest, key);
      assert forall v :: Filter(r, KeyIs(key, v)) == Filter(xs, KeyIs(key, v)) by {
        forall v
          ensures Filter(r, KeyIs(key, v)) == Filter(xs, KeyIs(key, v))
        {
          InsertDescStable(xs[0], rest, key, v);
        }
      }
      r
  }
}
