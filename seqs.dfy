/** Order-preserving filtering, first-match search and subsequences over sequences
    (JavaScript's `Array.prototype.filter` and `Array.prototype.find`). */
module Seqs {
  import opened Wrappers

  /** The elements of `xs` that satisfy `p`, in their original order. */
  function Filter<T>(xs: seq<T>, p: T -> bool): (r: seq<T>)
    ensures |r| <= |xs|
    ensures forall i :: 0 <= i < |r| ==> r[i] in xs && p(r[i])
    ensures forall i :: 0 <= i < |xs| && p(xs[i]) ==> xs[i] in r
    ensures multiset(r) <= multiset(xs)
    decreases |xs|
  {
    if xs == [] then []
    else
      assert xs == [xs[0]] + xs[1..];
      (if p(xs[0]) then [xs[0]] else []) + Filter(xs[1..], p)
  }

  lemma {:induction false} FilterAppend<T>(a: seq<T>, b: seq<T>, p: T -> bool)
    ensures Filter(a + b, p) == Filter(a, p) + Filter(b, p)
    decreases |a|
  {
    if a == [] {
      assert a + b == b;
    } else {
      assert (a + b)[1..] == a[1..] + b;
      FilterAppend(a[1..], b, p);
    }
  }

  /** A filter keeps every occurrence of an element that satisfies `p` and none of one that
      does not. */
  lemma {:induction false} FilterMultiplicity<T>(xs: seq<T>, p: T -> bool, x: T)
    ensures multiset(Filter(xs, p))[x] == if p(x) then multiset(xs)[x] else 0
    decreases |xs|
  {
    if xs != [] {
      FilterMultiplicity(xs[1..], p, x);
      assert xs == [xs[0]] + xs[1..];
      assert Filter(xs, p) == (if p(xs[0]) then [xs[0]] else []) + Filter(xs[1..], p);
    }
  }

  /** Filtering the last element on: the shape a left-to-right loop builds. */
  lemma FilterSnoc<T>(xs: seq<T>, x: T, p: T -> bool)
    ensures Filter(xs + [x], p) == Filter(xs, p) + (if p(x) then [x] else [])
  {
    FilterAppend(xs, [x], p);
    FilterSingleton(x, p);
  }

  lemma FilterSingleton<T>(x: T, p: T -> bool)
    ensures Filter([x], p) == if p(x) then [x] else []
  {
    assert [x][1..] == [];
  }

  /** `a` can be obtained from `b` by deleting elements: the order of `a` is that of `b`. */
  ghost predicate Subsequence<T>(a: seq<T>, b: seq<T>)
    decreases |b|
  {
    if a == [] then true
    else if b == [] then false
    else (a[0] == b[0] && Subsequence(a[1..], b[1..])) || Subsequence(a, b[1..])
  }

  /** A filter keeps the relative order of the elements it keeps. */
  lemma {:induction false} FilterIsSubsequence<T>(xs: seq<T>, p: T -> bool)
    ensures Subsequence(Filter(xs, p), xs)
    decreases |xs|
  {
    if xs != [] {
      FilterIsSubsequence(xs[1..], p);
      var rest := Filter(xs[1..], p);
      if p(xs[0]) {
        assert Filter(xs, p) == [xs[0]] + rest;
        assert ([xs[0]] + rest)[1..] == rest;
      } else {
        assert Filter(xs, p) == rest;
        if rest != [] {
          assert Subsequence(rest, xs[1..]);
        }
      }
    }
  }

  /** The elements of `xs` whose `key` is `v`, in their original order: one group of a
      grouping by `key`. */
  function FilterBy<T, K(==)>(xs: seq<T>, key: T -> K, v: K): (r: seq<T>)
    ensures |r| <= |xs|
    ensures forall i :: 0 <= i < |r| ==> r[i] in xs && key(r[i]) == v
    ensures forall i :: 0 <= i < |xs| && key(xs[i]) == v ==> xs[i] in r
    decreases |xs|
  {
    if xs == [] then []
    else (if key(xs[0]) == v then [xs[0]] else []) + FilterBy(xs[1..], key, v)
  }

  lemma {:induction false} FilterByAppend<T, K>(a: seq<T>, b: seq<T>, key: T -> K, v: K)
    ensures FilterBy(a + b, key, v) == FilterBy(a, key, v) + FilterBy(b, key, v)
    decreases |a|
  {
    if a == [] {
      assert a + b == b;
    } else {
      assert (a + b)[1..] == a[1..] + b;
      FilterByAppend(a[1..], b, key, v);
    }
  }

  lemma AppendAssoc<T>(a: seq<T>, b: seq<T>, c: seq<T>)
    ensures a + (b + c) == (a + b) + c
  {
  }

  lemma FilterByCons<T, K>(x: T, xs: seq<T>, key: T -> K, v: K)
    ensures FilterBy([x] + xs, key, v) == (if key(x) == v then [x] else []) + FilterBy(xs, key, v)
  {
    assert ([x] + xs)[0] == x && ([x] + xs)[1..] == xs;
  }

  lemma FilterBySnoc<T, K>(xs: seq<T>, x: T, key: T -> K, v: K)
    ensures FilterBy(xs + [x], key, v) == FilterBy(xs, key, v) + (if key(x) == v then [x] else [])
  {
    FilterByAppend(xs, [x], key, v);
    assert FilterBy([x], key, v) == (if key(x) == v then [x] else []) + FilterBy([x][1..], key, v);
  }

  /** `FilterBySnoc` for a loop that has looked at the first `i` elements. */
  lemma FilterByTakeStep<T, K>(xs: seq<T>, i: nat, key: T -> K, v: K)
    requires i < |xs|
    ensures FilterBy(xs[..i + 1], key, v) == FilterBy(xs[..i], key, v) + (if key(xs[i]) == v then [xs[i]] else [])
  {
    assert xs[..i + 1] == xs[..i] + [xs[i]];
    FilterBySnoc(xs[..i], xs[i], key, v);
  }

  /** No element has key `v`, so its group is empty. */
  lemma {:induction false} NoneWithKey<T, K>(ys: seq<T>, key: T -> K, v: K)
    requires forall i :: 0 <= i < |ys| ==> key(ys[i]) != v
    ensures FilterBy(ys, key, v) == []
    decreases |ys|
  {
    if ys != [] {
      NoneWithKey(ys[1..], key, v);
    }
  }

  /** Grouping by a key that takes one of three distinct values splits `xs` without loss:
      every element lands in exactly one group. */
  lemma {:induction false} FilterByPartition3<T, K>(xs: seq<T>, key: T -> K, a: K, b: K, c: K)
    requires a != b && b != c && a != c
    requires forall i :: 0 <= i < |xs| ==> key(xs[i]) == a || key(xs[i]) == b || key(xs[i]) == c
    ensures multiset(FilterBy(xs, key, a)) + multiset(FilterBy(xs, key, b)) + multiset(FilterBy(xs, key, c)) == multiset(xs)
    ensures |FilterBy(xs, key, a)| + |FilterBy(xs, key, b)| + |FilterBy(xs, key, c)| == |xs|
    decreases |xs|
  {
    if xs != [] {
      var x, rest := xs[0], xs[1..];
      FilterByPartition3(rest, key, a, b, c);
      assert xs == [x] + rest;
    }
    var ga, gb, gc := FilterBy(xs, key, a), FilterBy(xs, key, b), FilterBy(xs, key, c);
    assert |multiset(ga) + multiset(gb) + multiset(gc)| == |multiset(ga)| + |multiset(gb)| + |multiset(gc)|;
  }

  /** The first element of `xs` that satisfies `p` (JavaScript's `find`). */
  function FindFirst<T>(xs: seq<T>, p: T -> bool): (r: Option<T>)
    ensures r.None? <==> forall i :: 0 <= i < |xs| ==> !p(xs[i])
    ensures r.Some? ==> exists i :: 0 <= i < |xs| && xs[i] == r.value && p(r.value) && forall j :: 0 <= j < i ==> !p(xs[j])
    decreases |xs|
  {
    if xs == [] then None
    else if p(xs[0]) then Some(xs[0])
    else
      var r := FindFirst(xs[1..], p);
      assert r.Some? ==> exists i :: 1 <= i < |xs| && xs[i] == r.value && p(r.value) && forall j :: 0 <= j < i ==> !p(xs[j]) by {
        if r.Some? {
          var i :| 0 <= i < |xs[1..]| && xs[1..][i] == r.value && p(r.value) && forall j :: 0 <= j < i ==> !p(xs[1..][j]);
          assert xs[i + 1] == r.value;
          forall j | 0 <= j < i + 1 ensures !p(xs[j]) {
            if j > 0 { assert xs[j] == xs[1..][j - 1]; }
          }
        }
      }
      r
  }

  /** No two elements of `xs` share a `key`. */
  ghost predicate DistinctBy<T, K>(xs: seq<T>, key: T -> K) {
    forall i, j :: 0 <= i < j < |xs| ==> key(xs[i]) != key(xs[j])
  }

  /** Appending an element whose key differs from every key present keeps keys distinct. */
  lemma DistinctBySnoc<T, K>(xs: seq<T>, x: T, key: T -> K)
    requires DistinctBy(xs, key)
    requires forall i :: 0 <= i < |xs| ==> key(xs[i]) != key(x)
    ensures DistinctBy(xs + [x], key)
  {
    var ys := xs + [x];
    forall i, j | 0 <= i < j < |ys|
      ensures key(ys[i]) != key(ys[j])
    {
      assert ys[i] == xs[i];
    }
  }
}
