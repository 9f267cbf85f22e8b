/** The behaviour of JavaScript's `Array.prototype.sort` with a comparator `(a, b) => key(b) - key(a)`:
    a stable sort into non-increasing order of an integer key. ECMAScript 2019 and later require
    `sort` to be stable, so elements with equal keys keep their input order. */
module Ordering {
  import opened Seqs

  /** Keys never increase along `xs`. */
  ghost predicate NonIncreasing<T>(xs: seq<T>, key: T -> int) {
    forall i, j :: 0 <= i < j < |xs| ==> key(xs[i]) >= key(xs[j])
  }

  /** Puts `x` after every element whose key is at least its own. */
  function Insert<T>(x: T, ys: seq<T>, key: T -> int): (r: seq<T>)
    ensures multiset(r) == multiset(ys) + multiset{x}
    decreases |ys|
  {
    if ys == [] then [x]
    else if key(ys[0]) >= key(x) then
      assert ys == [ys[0]] + ys[1..];
      [ys[0]] + Insert(x, ys[1..], key)
    else [x] + ys
  }

  /** Insertion sort, taking the input's elements in order: the stable descending sort. */
  function SortDesc<T>(xs: seq<T>, key: T -> int): (r: seq<T>)
    ensures multiset(r) == multiset(xs)
    decreases |xs|
  {
    if xs == [] then []
    else
      assert xs == xs[..|xs| - 1] + [xs[|xs| - 1]];
      Insert(xs[|xs| - 1], SortDesc(xs[..|xs| - 1], key), key)
  }

  lemma {:induction false} InsertSorted<T>(x: T, ys: seq<T>, key: T -> int)
    requires NonIncreasing(ys, key)
    ensures NonIncreasing(Insert(x, ys, key), key)
    decreases |ys|
  {
    if ys == [] {
      assert |Insert(x, ys, key)| == 1;
    } else if key(ys[0]) >= key(x) {
      var tail := ys[1..];
      assert forall i :: 0 <= i < |tail| ==> tail[i] == ys[i + 1];
      InsertSorted(x, tail, key);
      InsertBounded(x, tail, key, key(ys[0]));
      InsertUnfold(x, ys, key);
      ConsSorted(ys[0], Insert(x, tail, key), key);
    } else {
      assert Insert(x, ys, key) == [x] + ys;
      ConsSorted(x, ys, key);
    }
  }

  /** Inserting below a bound keeps every key below it. */
  lemma {:induction false} InsertBounded<T>(x: T, ys: seq<T>, key: T -> int, b: int)
    requires key(x) <= b && forall i :: 0 <= i < |ys| ==> key(ys[i]) <= b
    ensures forall i :: 0 <= i < |Insert(x, ys, key)| ==> key(Insert(x, ys, key)[i]) <= b
    decreases |ys|
  {
    if ys != [] && key(ys[0]) >= key(x) {
      InsertBounded(x, ys[1..], key, b);
      InsertUnfold(x, ys, key);
    }
  }

  /** An element with a key at least every key of a sorted sequence can go in front of it. */
  lemma ConsSorted<T>(y: T, rest: seq<T>, key: T -> int)
    requires NonIncreasing(rest, key) && forall i :: 0 <= i < |rest| ==> key(rest[i]) <= key(y)
    ensures NonIncreasing([y] + rest, key)
  {
    var r := [y] + rest;
    forall i, j | 0 <= i < j < |r|
      ensures key(r[i]) >= key(r[j])
    {
      assert r[j] == rest[j - 1];
      if i > 0 {
        assert r[i] == rest[i - 1];
      }
    }
  }

  /** The sort's output is ordered by non-increasing key. */
  lemma {:induction false} SortDescSorted<T>(xs: seq<T>, key: T -> int)
    ensures NonIncreasing(SortDesc(xs, key), key)
    decreases |xs|
  {
    if xs != [] {
      SortDescSorted(xs[..|xs| - 1], key);
      InsertSorted(xs[|xs| - 1], SortDesc(xs[..|xs| - 1], key), key);
    }
  }

  lemma {:induction false} InsertStable<T>(x: T, ys: seq<T>, key: T -> int, v: int)
    requires NonIncreasing(ys, key)
    ensures FilterBy(Insert(x, ys, key), key, v) == FilterBy(ys, key, v) + (if key(x) == v then [x] else [])
    decreases |ys|
  {
    if ys == [] {
      assert [x][1..] == [];
    } else if key(ys[0]) >= key(x) {
      InsertStable(x, ys[1..], key, v);
      InsertStableAfterHead(x, ys, key, v);
    } else {
      InsertStableBeforeHead(x, ys, key, v);
    }
  }

  /** `x` goes in front of a sorted sequence whose head has a smaller key; nothing behind it
      can share its key. */
  lemma InsertStableBeforeHead<T>(x: T, ys: seq<T>, key: T -> int, v: int)
    requires NonIncreasing(ys, key)
    requires ys != [] && key(ys[0]) < key(x)
    ensures FilterBy(Insert(x, ys, key), key, v) == FilterBy(ys, key, v) + (if key(x) == v then [x] else [])
  {
    assert Insert(x, ys, key) == [x] + ys;
    FilterByCons(x, ys, key, v);
    if key(x) == v {
      assert forall i :: 0 <= i < |ys| ==> key(ys[i]) <= key(ys[0]);
      NoneWithKey(ys, key, v);
    }
  }

  /** `x` goes behind the head: the head's group membership comes first. */
  lemma InsertStableAfterHead<T>(x: T, ys: seq<T>, key: T -> int, v: int)
    requires ys != [] && key(ys[0]) >= key(x)
    requires FilterBy(Insert(x, ys[1..], key), key, v) == FilterBy(ys[1..], key, v) + (if key(x) == v then [x] else [])
    ensures FilterBy(Insert(x, ys, key), key, v) == FilterBy(ys, key, v) + (if key(x) == v then [x] else [])
  {
    var y, inserted := ys[0], Insert(x, ys[1..], key);
    var oy, rest, ox := (if key(y) == v then [y] else []), FilterBy(ys[1..], key, v), (if key(x) == v then [x] else []);
    FilterByCons(y, inserted, key, v);
    calc {
      FilterBy(Insert(x, ys, key), key, v);
      { InsertUnfold(x, ys, key); }
      FilterBy([y] + inserted, key, v);
      oy + FilterBy(inserted, key, v);
      oy + (rest + ox);
      { AppendAssoc(oy, rest, ox); }
      (oy + rest) + ox;
      FilterBy(ys, key, v) + ox;
    }
  }

  lemma InsertUnfold<T>(x: T, ys: seq<T>, key: T -> int)
    requires ys != [] && key(ys[0]) >= key(x)
    ensures Insert(x, ys, key) == [ys[0]] + Insert(x, ys[1..], key)
  {
  }

  /** Stability: among the elements with any one key, the sort keeps the input order. */
  lemma {:induction false} SortDescStable<T>(xs: seq<T>, key: T -> int, v: int)
    ensures FilterBy(SortDesc(xs, key), key, v) == FilterBy(xs, key, v)
    decreases |xs|
  {
    if xs != [] {
      var init, last := xs[..|xs| - 1], xs[|xs| - 1];
      assert xs == init + [last];
      assert SortDesc(xs, key) == Insert(last, SortDesc(init, key), key);
      SortDescStable(init, key, v);
      SortDescSorted(init, key);
      StableStep(init, last, key, v);
    }
  }

  lemma StableStep<T>(init: seq<T>, last: T, key: T -> int, v: int)
    requires NonIncreasing(SortDesc(init, key), key)
    requires FilterBy(SortDesc(init, key), key, v) == FilterBy(init, key, v)
    ensures FilterBy(Insert(last, SortDesc(init, key), key), key, v) == FilterBy(init + [last], key, v)
  {
    InsertStable(last, SortDesc(init, key), key, v);
    FilterBySnoc(init, last, key, v);
  }

  /** `xs.slice(0, n)`. */
  function Take<T>(xs: seq<T>, n: nat): (r: seq<T>)
    ensures |r| == if |xs| <= n then |xs| else n
    ensures |xs| <= n ==> r == xs
    ensures r <= xs
  {
    if |xs| <= n then xs else xs[..n]
  }

  /** Taking a prefix of a sorted sequence keeps the largest keys: nothing left out
      outranks anything kept. */
  lemma TakeDominates<T>(xs: seq<T>, key: T -> int, n: nat, m: T, i: nat)
    requires NonIncreasing(xs, key)
    requires m in xs && m !in Take(xs, n)
    requires i < |Take(xs, n)|
    ensures key(Take(xs, n)[i]) >= key(m)
  {
    var j :| 0 <= j < |xs| && xs[j] == m;
    if j < |Take(xs, n)| {
      assert false;
    }
  }

  lemma {:induction false} InsertDistinct<T, K>(x: T, ys: seq<T>, key: T -> int, id: T -> K)
    requires DistinctBy(ys, id)
    requires forall i :: 0 <= i < |ys| ==> id(ys[i]) != id(x)
    ensures DistinctBy(Insert(x, ys, key), id)
    decreases |ys|
  {
    if ys != [] && key(ys[0]) >= key(x) {
      InsertDistinct(x, ys[1..], key, id);
      var rest := Insert(x, ys[1..], key);
      forall j | 0 < j < |[ys[0]] + rest| ensures id(ys[0]) != id(([ys[0]] + rest)[j]) {
        var e := rest[j - 1];
        assert e in multiset(rest);
        if e != x {
          assert e in multiset(ys[1..]);
          var k :| 0 <= k < |ys[1..]| && ys[1..][k] == e;
          assert ys[k + 1] == e;
        }
      }
    }
  }

  /** Sorting cannot introduce two elements with the same identity. */
  lemma {:induction false} SortDescDistinct<T, K>(xs: seq<T>, key: T -> int, id: T -> K)
    requires DistinctBy(xs, id)
    ensures DistinctBy(SortDesc(xs, key), id)
    decreases |xs|
  {
    if xs != [] {
      var init, last := xs[..|xs| - 1], xs[|xs| - 1];
      SortDescDistinct(init, key, id);
      var sorted := SortDesc(init, key);
      forall i | 0 <= i < |sorted| ensures id(sorted[i]) != id(last) {
        assert sorted[i] in multiset(init);
        var k :| 0 <= k < |init| && init[k] == sorted[i];
        assert xs[k] == sorted[i];
      }
      InsertDistinct(last, sorted, key, id);
    }
  }
}
