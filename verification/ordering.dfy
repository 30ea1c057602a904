/** Order-preserving filtering and the stable sort that `Array.prototype.sort`
    performs with a numeric comparator (stable since ECMAScript 2019). */
module Ordering {

  /** `s.filter(p)`. */
  function Filter<T>(s: seq<T>, p: T -> bool): (r: seq<T>)
    ensures |r| <= |s|
    ensures forall x :: x in r ==> x in s && p(x)
  {
    if s == [] then []
    else (if p(s[0]) then [s[0]] else []) + Filter(s[1..], p)
  }

  /** Nothing that passes the test is dropped. */
  lemma {:induction false} FilterKeeps<T>(s: seq<T>, p: T -> bool, x: T)
    requires x in s && p(x)
    ensures x in Filter(s, p)
  {
    if s[0] != x {
      FilterKeeps(s[1..], p, x);
    }
  }

  lemma FilterMembership<T>(s: seq<T>, p: T -> bool)
    ensures forall x :: x in Filter(s, p) <==> x in s && p(x)
  {
    forall x | x in s && p(x)
      ensures x in Filter(s, p)
    {
      FilterKeeps(s, p, x);
    }
  }

  /** Keys never decrease from left to right. */
  ghost predicate SortedBy<T>(s: seq<T>, key: T -> int)
  {
    forall i, j :: 0 <= i < j < |s| ==> key(s[i]) <= key(s[j])
  }

  /** Filtering keeps a sorted sequence sorted, since it keeps relative order. */
  lemma {:induction false} FilterSorted<T>(s: seq<T>, p: T -> bool, key: T -> int)
    requires SortedBy(s, key)
    ensures SortedBy(Filter(s, p), key)
  {
    if s != [] {
      FilterSorted(s[1..], p, key);
      var rest := Filter(s[1..], p);
      forall x | x in rest
        ensures key(s[0]) <= key(x)
      {
        var j :| 0 <= j < |s[1..]| && s[1..][j] == x;
        assert s[j + 1] == x;
      }
    }
  }

  /** The elements of `s` whose key is `d`, in their order in `s`. */
  function KeyFilter<T>(s: seq<T>, key: T -> int, d: int): (r: seq<T>)
  {
    if s == [] then []
    else (if key(s[0]) == d then [s[0]] else []) + KeyFilter(s[1..], key, d)
  }

  lemma {:induction false} KeyFilterConcat<T>(a: seq<T>, b: seq<T>, key: T -> int, d: int)
    ensures KeyFilter(a + b, key, d) == KeyFilter(a, key, d) + KeyFilter(b, key, d)
  {
    if a == [] {
      assert a + b == b;
    } else {
      var h := if key(a[0]) == d then [a[0]] else [];
      assert (a + b)[0] == a[0] && (a + b)[1..] == a[1..] + b;
      assert KeyFilter(a + b, key, d) == h + KeyFilter(a[1..] + b, key, d);
      KeyFilterConcat(a[1..], b, key, d);
      assert h + (KeyFilter(a[1..], key, d) + KeyFilter(b, key, d))
          == (h + KeyFilter(a[1..], key, d)) + KeyFilter(b, key, d);
    }
  }

  /** Puts `x` in front of the first element whose key is not smaller than its own. */
  function Insert<T>(x: T, s: seq<T>, key: T -> int): (r: seq<T>)
    ensures |r| == |s| + 1
    ensures multiset(r) == multiset(s) + multiset{x}
  {
    if s == [] || key(x) <= key(s[0]) then [x] + s
    else
      assert s == [s[0]] + s[1..];
      [s[0]] + Insert(x, s[1..], key)
  }

  /** Every element of `Insert(x, s)` is `x` or an element of `s`. */
  lemma InsertElements<T>(x: T, s: seq<T>, key: T -> int, y: T)
    requires y in Insert(x, s, key)
    ensures y == x || y in s
  {
    assert y in multiset(Insert(x, s, key));
  }

  lemma {:induction false} InsertSorted<T>(x: T, s: seq<T>, key: T -> int)
    requires SortedBy(s, key)
    ensures SortedBy(Insert(x, s, key), key)
  {
    if s != [] && key(x) > key(s[0]) {
      var tail := Insert(x, s[1..], key);
      InsertSorted(x, s[1..], key);
      forall y | y in tail
        ensures key(s[0]) <= key(y)
      {
        InsertElements(x, s[1..], key, y);
        if y != x {
          var j :| 0 <= j < |s[1..]| && s[1..][j] == y;
          assert s[j + 1] == y;
        }
      }
      var r := [s[0]] + tail;
      forall i, j | 0 <= i < j < |r|
        ensures key(r[i]) <= key(r[j])
      {
        if i > 0 {
          assert r[i] == tail[i - 1] && r[j] == tail[j - 1];
        } else {
          assert r[j] in tail;
        }
      }
    }
  }

  /** The only element that `Insert` adds to the run of key `d` is `x`, in front:
      every element it passes has a key smaller than `x`'s. */
  lemma {:induction false} InsertKeyFilter<T>(x: T, s: seq<T>, key: T -> int, d: int)
    ensures KeyFilter(Insert(x, s, key), key, d)
         == (if key(x) == d then [x] else []) + KeyFilter(s, key, d)
  {
    var r := Insert(x, s, key);
    if s == [] || key(x) <= key(s[0]) {
      assert r == [x] + s && r[1..] == s;
      assert KeyFilter(r, key, d) == (if key(x) == d then [x] else []) + KeyFilter(r[1..], key, d);
    } else {
      var tail := Insert(x, s[1..], key);
      assert r == [s[0]] + tail && r[1..] == tail;
      InsertKeyFilter(x, s[1..], key, d);
      assert KeyFilter(r, key, d) == (if key(s[0]) == d then [s[0]] else []) + KeyFilter(tail, key, d);
      assert KeyFilter(s, key, d) == (if key(s[0]) == d then [s[0]] else []) + KeyFilter(s[1..], key, d);
      if key(x) == d {
        assert key(s[0]) != d;
      }
    }
  }

  /** Stable insertion sort by `key`. */
  function SortBy<T>(s: seq<T>, key: T -> int): (r: seq<T>)
    ensures |r| == |s|
    ensures multiset(r) == multiset(s)
  {
    if s == [] then []
    else
      assert s == [s[0]] + s[1..];
      Insert(s[0], SortBy(s[1..], key), key)
  }

  lemma {:induction false} SortBySorted<T>(s: seq<T>, key: T -> int)
    ensures SortedBy(SortBy(s, key), key)
  {
    if s != [] {
      SortBySorted(s[1..], key);
      InsertSorted(s[0], SortBy(s[1..], key), key);
    }
  }

  /** Stability: among elements with equal keys the sorted order is the input order. */
  lemma {:induction false} SortByStable<T>(s: seq<T>, key: T -> int, d: int)
    ensures KeyFilter(SortBy(s, key), key, d) == KeyFilter(s, key, d)
  {
    if s != [] {
      SortByStable(s[1..], key, d);
      InsertKeyFilter(s[0], SortBy(s[1..], key), key, d);
    }
  }

  /** `f(xs[0]) + f(xs[1]) + …`, in the order of `xs`. */
  function FlatMap<A, B>(xs: seq<A>, f: A -> seq<B>): (r: seq<B>)
  {
    if xs == [] then [] else f(xs[0]) + FlatMap(xs[1..], f)
  }

  /** Mapping one element is applying `f` to it. */
  lemma FlatMapSingle<A, B>(x: A, f: A -> seq<B>)
    ensures FlatMap([x], f) == f(x)
  {
    assert [x][1..] == [];
    assert f(x) + [] == f(x);
  }

  lemma {:induction false} FlatMapConcat<A, B>(a: seq<A>, b: seq<A>, f: A -> seq<B>)
    ensures FlatMap(a + b, f) == FlatMap(a, f) + FlatMap(b, f)
  {
    if a == [] {
      assert a + b == b;
    } else {
      assert (a + b)[1..] == a[1..] + b;
      FlatMapConcat(a[1..], b, f);
    }
  }

  /** An element comes out of `FlatMap` exactly when some `f(xs[i])` holds it. */
  lemma {:induction false} FlatMapMembership<A, B>(xs: seq<A>, f: A -> seq<B>, y: B)
    ensures y in FlatMap(xs, f) <==> exists i :: 0 <= i < |xs| && y in f(xs[i])
  {
    if xs != [] {
      FlatMapMembership(xs[1..], f, y);
      if y in FlatMap(xs[1..], f) {
        var i :| 0 <= i < |xs[1..]| && y in f(xs[1..][i]);
        assert xs[i + 1] == xs[1..][i];
      }
      if exists i :: 0 <= i < |xs| && y in f(xs[i]) {
        var i :| 0 <= i < |xs| && y in f(xs[i]);
        if i > 0 {
          assert xs[1..][i - 1] == xs[i];
        }
      }
    }
  }

  /** An element that maps to nothing can be dropped from the input. */
  lemma FlatMapSkip<A, B>(a: seq<A>, x: A, b: seq<A>, f: A -> seq<B>)
    requires f(x) == []
    ensures FlatMap(a + [x] + b, f) == FlatMap(a + b, f)
  {
    FlatMapConcat(a + [x], b, f);
    FlatMapConcat(a, [x], f);
    FlatMapConcat(a, b, f);
    assert [x][1..] == [];
  }

  /** `s.slice(0, n)`: the first `n` elements, or all of `s` when it is shorter. */
  function Take<T>(s: seq<T>, n: nat): (r: seq<T>)
    ensures |r| == if |s| < n then |s| else n
    ensures forall i :: 0 <= i < |r| ==> r[i] == s[i]
  {
    if |s| <= n then s else s[..n]
  }

  lemma TakeMembership<T>(s: seq<T>, n: nat, x: T)
    requires x in Take(s, n)
    ensures x in s
  {
    var r := Take(s, n);
    var i :| 0 <= i < |r| && r[i] == x;
    assert s[i] == x;
  }

  lemma {:induction false} FilterConcat<T>(a: seq<T>, b: seq<T>, p: T -> bool)
    ensures Filter(a + b, p) == Filter(a, p) + Filter(b, p)
  {
    if a == [] {
      assert a + b == b;
    } else {
      var h := if p(a[0]) then [a[0]] else [];
      assert (a + b)[0] == a[0] && (a + b)[1..] == a[1..] + b;
      assert Filter(a + b, p) == h + Filter(a[1..] + b, p);
      FilterConcat(a[1..], b, p);
      assert h + (Filter(a[1..], p) + Filter(b, p)) == (h + Filter(a[1..], p)) + Filter(b, p);
    }
  }

  /** Filtering with a test every element passes changes nothing. */
  lemma {:induction false} FilterAll<T>(s: seq<T>, p: T -> bool)
    requires forall x :: x in s ==> p(x)
    ensures Filter(s, p) == s
  {
    if s != [] {
      FilterAll(s[1..], p);
    }
  }

  /** Filtering with a test no element passes leaves nothing. */
  lemma {:induction false} FilterNone<T>(s: seq<T>, p: T -> bool)
    requires forall x :: x in s ==> !p(x)
    ensures Filter(s, p) == []
  {
    if s != [] {
      FilterNone(s[1..], p);
    }
  }

  /** Filtering with two tests that agree on every element gives the same result. */
  lemma {:induction false} FilterExt<T>(s: seq<T>, p: T -> bool, q: T -> bool)
    requires forall x :: x in s ==> p(x) == q(x)
    ensures Filter(s, p) == Filter(s, q)
  {
    if s != [] {
      FilterExt(s[1..], p, q);
    }
  }

  /** Filtering twice is filtering once with both tests. */
  lemma {:induction false} FilterFilter<T>(s: seq<T>, p: T -> bool, q: T -> bool, both: T -> bool)
    requires forall x :: x in s ==> both(x) == (p(x) && q(x))
    ensures Filter(Filter(s, p), q) == Filter(s, both)
  {
    if s != [] {
      FilterFilter(s[1..], p, q, both);
      var h := if p(s[0]) then [s[0]] else [];
      FilterConcat(h, Filter(s[1..], p), q);
      assert Filter(h, q) == if both(s[0]) then [s[0]] else [] by {
        if p(s[0]) {
          assert h[1..] == [];
        }
      }
    }
  }

  /** Every copy of an element that passes the test is kept, and no copy of
      one that fails it. */
  lemma {:induction false} FilterCount<T>(s: seq<T>, p: T -> bool, x: T)
    ensures multiset(Filter(s, p))[x] == if p(x) then multiset(s)[x] else 0
  {
    if s != [] {
      FilterCount(s[1..], p, x);
      assert s == [s[0]] + s[1..];
      var h := if p(s[0]) then [s[0]] else [];
      assert multiset(Filter(s, p)) == multiset(h) + multiset(Filter(s[1..], p));
    }
  }

  /** `r` is `s` with some elements left out and the others in their order. */
  ghost predicate Subsequence<T>(r: seq<T>, s: seq<T>)
    decreases |s|
  {
    if r == [] then true
    else if s == [] then false
    else (r[0] == s[0] && Subsequence(r[1..], s[1..])) || Subsequence(r, s[1..])
  }

  /** `filter` keeps the relative order of what it keeps. */
  lemma {:induction false} FilterSubsequence<T>(s: seq<T>, p: T -> bool)
    ensures Subsequence(Filter(s, p), s)
  {
    if s != [] {
      FilterSubsequence(s[1..], p);
      var rest := Filter(s[1..], p);
      if p(s[0]) {
        var r := Filter(s, p);
        assert r == [s[0]] + rest;
        assert r[0] == s[0] && r[1..] == rest;
      } else {
        assert Filter(s, p) == rest;
      }
    }
  }

  /** A subsequence holds no more copies of anything than the sequence. */
  lemma {:induction false} SubsequenceCount<T>(r: seq<T>, s: seq<T>, x: T)
    requires Subsequence(r, s)
    ensures multiset(r)[x] <= multiset(s)[x]
    decreases |s|
  {
    if r != [] {
      assert s == [s[0]] + s[1..];
      if r[0] == s[0] && Subsequence(r[1..], s[1..]) {
        SubsequenceCount(r[1..], s[1..], x);
        assert r == [r[0]] + r[1..];
      } else {
        SubsequenceCount(r, s[1..], x);
      }
    }
  }

  /** Order and copy counts pin the filter down: a subsequence of `s` that
      holds every copy of the passing elements and nothing else is `filter`'s result. */
  lemma {:induction false} FilterUnique<T>(r: seq<T>, s: seq<T>, p: T -> bool)
    requires Subsequence(r, s)
    requires forall x :: multiset(r)[x] == if p(x) then multiset(s)[x] else 0
    ensures r == Filter(s, p)
    decreases |s|
  {
    if s == [] {
    } else if r == [] {
      forall x | x in s
        ensures !p(x)
      {
        assert multiset(s)[x] > 0;
      }
      FilterNone(s, p);
    } else {
      assert s == [s[0]] + s[1..];
      assert r == [r[0]] + r[1..];
      if r[0] == s[0] && Subsequence(r[1..], s[1..]) {
        assert p(s[0]) by {
          assert multiset(r)[r[0]] > 0;
        }
        forall x
          ensures multiset(r[1..])[x] == if p(x) then multiset(s[1..])[x] else 0
        {
          assert multiset(r)[x] == multiset(r[1..])[x] + (if x == s[0] then 1 else 0);
          assert multiset(s)[x] == multiset(s[1..])[x] + (if x == s[0] then 1 else 0);
          if !p(x) {
            assert x != s[0];
          }
        }
        FilterUnique(r[1..], s[1..], p);
      } else {
        assert Subsequence(r, s[1..]);
        SubsequenceCount(r, s[1..], s[0]);
        assert multiset(s)[s[0]] == multiset(s[1..])[s[0]] + 1;
        assert !p(s[0]);
        forall x
          ensures multiset(r)[x] == if p(x) then multiset(s[1..])[x] else 0
        {
          assert multiset(s)[x] == multiset(s[1..])[x] + (if x == s[0] then 1 else 0);
          if p(x) {
            assert x != s[0];
          }
        }
        FilterUnique(r, s[1..], p);
      }
    }
  }

  /** Picking one key and filtering commute. */
  lemma {:induction false} KeyFilterOfFilter<T>(s: seq<T>, p: T -> bool, key: T -> int, d: int)
    ensures KeyFilter(Filter(s, p), key, d) == Filter(KeyFilter(s, key, d), p)
  {
    if s != [] {
      KeyFilterOfFilter(s[1..], p, key, d);
      var h := if p(s[0]) then [s[0]] else [];
      var k := if key(s[0]) == d then [s[0]] else [];
      KeyFilterConcat(h, Filter(s[1..], p), key, d);
      FilterConcat(k, KeyFilter(s[1..], key, d), p);
      assert KeyFilter(h, key, d) == Filter(k, p) by {
        if p(s[0]) {
          assert h[1..] == [];
        }
        if key(s[0]) == d {
          assert k[1..] == [];
        }
      }
    }
  }

  /** Two key-sorted sequences that agree on the run of every key are equal:
      sortedness and stability determine a sort's result. */
  lemma {:induction false} SortedKeyFilterUnique<T>(r1: seq<T>, r2: seq<T>, key: T -> int)
    requires SortedBy(r1, key) && SortedBy(r2, key)
    requires forall d :: KeyFilter(r1, key, d) == KeyFilter(r2, key, d)
    ensures r1 == r2
    decreases |r1| + |r2|
  {
    if r1 == [] {
      NoRunsIsEmpty(r2, key);
    } else if r2 == [] {
      NoRunsIsEmpty(r1, key);
    } else {
      SameHead(r1, r2, key);
      forall d
        ensures KeyFilter(r1[1..], key, d) == KeyFilter(r2[1..], key, d)
      {
        KeyFilterTail(r1, key, d);
        KeyFilterTail(r2, key, d);
      }
      SortedTail(r1, key);
      SortedTail(r2, key);
      SortedKeyFilterUnique(r1[1..], r2[1..], key);
      assert r1 == [r1[0]] + r1[1..] && r2 == [r2[0]] + r2[1..];
    }
  }

  /** Two non-empty sorted sequences with the same runs start alike. */
  lemma SameHead<T>(r1: seq<T>, r2: seq<T>, key: T -> int)
    requires r1 != [] && r2 != []
    requires SortedBy(r1, key) && SortedBy(r2, key)
    requires forall d :: KeyFilter(r1, key, d) == KeyFilter(r2, key, d)
    ensures r1[0] == r2[0]
  {
    var k1 := key(r1[0]);
    var k2 := key(r2[0]);
    KeyFilterHead(r1, key);
    KeyFilterHead(r2, key);
    assert k1 == k2 by {
      if k1 < k2 {
        KeyFilterBelowHead(r2, key, k1);
      } else if k2 < k1 {
        KeyFilterBelowHead(r1, key, k2);
      }
    }
    assert KeyFilter(r1, key, k1) == KeyFilter(r2, key, k1);
  }

  /** A sequence in which no key has a run is empty. */
  lemma NoRunsIsEmpty<T>(s: seq<T>, key: T -> int)
    requires forall d :: KeyFilter(s, key, d) == []
    ensures s == []
  {
    if s != [] {
      KeyFilterHead(s, key);
    }
  }

  /** The runs of the tail are the runs of the whole, less the head. */
  lemma KeyFilterTail<T>(s: seq<T>, key: T -> int, d: int)
    requires s != []
    ensures KeyFilter(s[1..], key, d) == KeyFilter(s, key, d)[if key(s[0]) == d then 1 else 0..]
  {
    var h := if key(s[0]) == d then [s[0]] else [];
    assert KeyFilter(s, key, d) == h + KeyFilter(s[1..], key, d);
  }

  lemma SortedTail<T>(s: seq<T>, key: T -> int)
    requires s != [] && SortedBy(s, key)
    ensures SortedBy(s[1..], key)
  {
    assert forall i :: 0 <= i < |s[1..]| ==> s[1..][i] == s[i + 1];
  }

  /** The run of the first element's key starts with that element. */
  lemma KeyFilterHead<T>(s: seq<T>, key: T -> int)
    requires s != []
    ensures KeyFilter(s, key, key(s[0])) != [] && KeyFilter(s, key, key(s[0]))[0] == s[0]
  {
  }

  /** In a sorted sequence no key below the first one has a run. */
  lemma {:induction false} KeyFilterBelowHead<T>(s: seq<T>, key: T -> int, d: int)
    requires s != [] && SortedBy(s, key) && d < key(s[0])
    ensures KeyFilter(s, key, d) == []
  {
    if |s| > 1 {
      SortedTail(s, key);
      assert key(s[0]) <= key(s[1]);
      KeyFilterBelowHead(s[1..], key, d);
    } else {
      assert s[1..] == [];
    }
  }

  /** Two functions that agree on every input give the same concatenation. */
  lemma {:induction false} FlatMapExt<A, B>(xs: seq<A>, f: A -> seq<B>, g: A -> seq<B>)
    requires forall i :: 0 <= i < |xs| ==> f(xs[i]) == g(xs[i])
    ensures FlatMap(xs, f) == FlatMap(xs, g)
  {
    if xs != [] {
      assert forall i :: 0 <= i < |xs[1..]| ==> xs[1..][i] == xs[i + 1];
      FlatMapExt(xs[1..], f, g);
    }
  }

  lemma FilterCounts<T>(s: seq<T>, p: T -> bool)
    ensures forall x :: multiset(Filter(s, p))[x] == if p(x) then multiset(s)[x] else 0
  {
    forall x
      ensures multiset(Filter(s, p))[x] == if p(x) then multiset(s)[x] else 0
    {
      FilterCount(s, p, x);
    }
  }

  lemma {:induction false} SubsequenceRefl<T>(s: seq<T>)
    ensures Subsequence(s, s)
  {
    if s != [] {
      SubsequenceRefl(s[1..]);
    }
  }
}
