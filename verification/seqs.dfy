/** Array helpers shared by the model: `filter`, `slice(0, n)`, `some`,
    and the order-preservation notion used to state that a filter keeps the
    relative order of what it keeps. */
module Seqs {

  /** `xs.filter(p)` */
  function Filter<T(==)>(p: T -> bool, xs: seq<T>): (r: seq<T>)
    ensures |r| <= |xs|
    ensures forall i :: 0 <= i < |r| ==> p(r[i]) && r[i] in xs
    ensures forall i :: 0 <= i < |xs| && p(xs[i]) ==> xs[i] in r
  {
    if xs == [] then []
    else (if p(xs[0]) then [xs[0]] else []) + Filter(p, xs[1..])
  }

  /** An element survives a filter iff it occurs and passes the test. */
  lemma FilterMembership<T>(p: T -> bool, xs: seq<T>, x: T)
    ensures x in Filter(p, xs) <==> x in xs && p(x)
  {
    var r := Filter(p, xs);
    if x in r {
      var i :| 0 <= i < |r| && r[i] == x;
    }
    if x in xs && p(x) {
      var i :| 0 <= i < |xs| && xs[i] == x;
    }
  }

  /** `xs.slice(0, n)` for a non-negative `n`. */
  function Take<T>(xs: seq<T>, n: nat): (r: seq<T>)
    ensures |r| == if n < |xs| then n else |xs|
    ensures r == xs[..|r|]
  {
    if n < |xs| then xs[..n] else xs
  }

  /** `xs.filter(y => y !== x)`: every occurrence of `x` removed. */
  function RemoveAll<T(==,!new)>(xs: seq<T>, x: T): (r: seq<T>)
    ensures x !in r
    ensures forall i :: 0 <= i < |r| ==> r[i] in xs
    ensures forall i :: 0 <= i < |xs| && xs[i] != x ==> xs[i] in r
    ensures IsSubsequence(r, xs)
    ensures forall y :: multiset(r)[y] == if y == x then 0 else multiset(xs)[y]
    ensures |r| == |xs| - multiset(xs)[x]
  {
    FilterIsSubsequence(y => y != x, xs);
    var r := Filter(y => y != x, xs);
    forall y ensures multiset(r)[y] == if y == x then 0 else multiset(xs)[y] {
      FilterCount(y => y != x, xs, y);
    }
    RemovedLength(xs, x);
    r
  }

  /** Removing every copy of `x` shortens `xs` by the number of copies. */
  lemma {:induction false} RemovedLength<T>(xs: seq<T>, x: T)
    ensures |Filter(y => y != x, xs)| == |xs| - multiset(xs)[x]
  {
    if xs != [] {
      RemovedLength(xs[1..], x);
      assert xs == [xs[0]] + xs[1..];
      assert multiset(xs) == multiset([xs[0]]) + multiset(xs[1..]);
    }
  }

  /** A filter keeps every copy of an element that passes its test and no
      copy of one that fails it. */
  lemma {:induction false} FilterCount<T>(p: T -> bool, xs: seq<T>, x: T)
    ensures multiset(Filter(p, xs))[x] == if p(x) then multiset(xs)[x] else 0
  {
    if xs != [] {
      FilterCount(p, xs[1..], x);
      ConsCount(xs[0], xs[1..], x);
      assert [xs[0]] + xs[1..] == xs;
      if p(xs[0]) {
        ConsCount(xs[0], Filter(p, xs[1..]), x);
      }
    }
  }

  /** `FilterCount` for every element at once. */
  lemma FilterCounts<T(!new)>(p: T -> bool, xs: seq<T>)
    ensures forall x :: multiset(Filter(p, xs))[x] == if p(x) then multiset(xs)[x] else 0
  {
    forall x ensures multiset(Filter(p, xs))[x] == if p(x) then multiset(xs)[x] else 0 {
      FilterCount(p, xs, x);
    }
  }

  /** The copies of `x` in `[a] + xs`. */
  lemma ConsCount<T>(a: T, xs: seq<T>, x: T)
    ensures multiset([a] + xs)[x] == (if a == x then 1 else 0) + multiset(xs)[x]
  {
    assert multiset([a] + xs) == multiset([a]) + multiset(xs);
  }

  /** Greedy subsequence test: `a` can be obtained from `b` by deleting
      elements, without reordering. */
  predicate IsSubsequence<T(==)>(a: seq<T>, b: seq<T>)
    decreases |b|
  {
    if a == [] then true
    else if b == [] then false
    else if a[0] == b[0] then IsSubsequence(a[1..], b[1..])
    else IsSubsequence(a, b[1..])
  }

  lemma {:induction false} FilterIsSubsequence<T>(p: T -> bool, xs: seq<T>)
    ensures IsSubsequence(Filter(p, xs), xs)
  {
    if xs != [] {
      FilterIsSubsequence(p, xs[1..]);
      var rest := Filter(p, xs[1..]);
      if p(xs[0]) {
        assert Filter(p, xs) == [xs[0]] + rest;
        assert ([xs[0]] + rest)[1..] == rest;
      } else {
        assert Filter(p, xs) == rest;
        SubsequenceOfTail(rest, xs);
      }
    }
  }

  lemma {:induction false} SubsequenceOfTail<T>(a: seq<T>, b: seq<T>)
    requires b != []
    requires IsSubsequence(a, b[1..])
    ensures IsSubsequence(a, b)
    decreases |b|, 1
  {
    if a != [] && a[0] == b[0] {
      // a[1..] is a subsequence of b[1..] since a is
      SubsequenceDropHead(a, b[1..]);
    }
  }

  lemma {:induction false} SubsequenceDropHead<T>(a: seq<T>, b: seq<T>)
    requires a != []
    requires IsSubsequence(a, b)
    ensures IsSubsequence(a[1..], b)
    decreases |b| + 1, 0
  {
    if b != [] {
      if a[0] == b[0] {
        SubsequenceOfTail(a[1..], b);
      } else {
        SubsequenceDropHead(a, b[1..]);
        SubsequenceOfTail(a[1..], b);
      }
    }
  }

  /** `filter` distributes over concatenation. */
  lemma {:induction false} FilterAppend<T>(p: T -> bool, xs: seq<T>, ys: seq<T>)
    ensures Filter(p, xs + ys) == Filter(p, xs) + Filter(p, ys)
  {
    if xs == [] {
      assert xs + ys == ys;
    } else {
      assert (xs + ys)[0] == xs[0];
      assert (xs + ys)[1..] == xs[1..] + ys;
      FilterAppend(p, xs[1..], ys);
    }
  }

  /** `FilterAppend` over five pieces. */
  lemma FilterAppend5<T>(p: T -> bool, a: seq<T>, b: seq<T>, c: seq<T>, d: seq<T>, e: seq<T>)
    ensures Filter(p, a + b + c + d + e)
         == Filter(p, a) + Filter(p, b) + Filter(p, c) + Filter(p, d) + Filter(p, e)
  {
    FilterAppend(p, a + b + c + d, e);
    FilterAppend(p, a + b + c, d);
    FilterAppend(p, a + b, c);
    FilterAppend(p, a, b);
  }

  /** Keeping the elements that pass and those that fail splits the length. */
  lemma {:induction false} FilterComplementLength<T>(p: T -> bool, xs: seq<T>)
    ensures |Filter(p, xs)| + |Filter(x => !p(x), xs)| == |xs|
  {
    if xs != [] {
      FilterComplementLength(p, xs[1..]);
    }
  }

  /** Filtering an already filtered sequence by the same test changes nothing. */
  lemma {:induction false} FilterIdempotent<T>(p: T -> bool, xs: seq<T>)
    ensures Filter(p, Filter(p, xs)) == Filter(p, xs)
  {
    if xs != [] {
      FilterIdempotent(p, xs[1..]);
      if p(xs[0]) {
        var s := Filter(p, xs);
        assert s[0] == xs[0];
        assert s[1..] == Filter(p, xs[1..]);
        assert s == [xs[0]] + Filter(p, xs[1..]);
        assert Filter(p, s) == [xs[0]] + Filter(p, s[1..]);
      } else {
        assert Filter(p, xs) == Filter(p, xs[1..]);
      }
    }
  }

  /** A filter whose test holds of every element is the identity. */
  lemma {:induction false} FilterAll<T>(p: T -> bool, xs: seq<T>)
    requires forall i :: 0 <= i < |xs| ==> p(xs[i])
    ensures Filter(p, xs) == xs
  {
    if xs != [] {
      FilterAll(p, xs[1..]);
      assert [xs[0]] + xs[1..] == xs;
    }
  }

  /** A filter whose test fails on every element yields nothing. */
  lemma {:induction false} FilterNone<T>(p: T -> bool, xs: seq<T>)
    requires forall i :: 0 <= i < |xs| ==> !p(xs[i])
    ensures Filter(p, xs) == []
  {
    if xs != [] {
      FilterNone(p, xs[1..]);
    }
  }

  /** Appending elements the test rejects does not change the filter. */
  lemma FilterAppendRejected<T>(p: T -> bool, xs: seq<T>, ys: seq<T>)
    requires forall i :: 0 <= i < |ys| ==> !p(ys[i])
    ensures Filter(p, xs + ys) == Filter(p, xs)
  {
    FilterAppend(p, xs, ys);
    FilterNone(p, ys);
  }

  /** Filtering by a weaker test keeps everything a stronger test keeps, in
      the same order. */
  lemma {:induction false} FilterWeakerTest<T>(p: T -> bool, q: T -> bool, xs: seq<T>)
    requires forall i :: 0 <= i < |xs| && p(xs[i]) ==> q(xs[i])
    ensures IsSubsequence(Filter(p, xs), Filter(q, xs))
  {
    if xs != [] {
      FilterWeakerTest(p, q, xs[1..]);
      var a := Filter(p, xs[1..]);
      var b := Filter(q, xs[1..]);
      if p(xs[0]) {
        assert Filter(p, xs) == [xs[0]] + a;
        assert Filter(q, xs) == [xs[0]] + b;
        assert ([xs[0]] + a)[1..] == a;
        assert ([xs[0]] + b)[1..] == b;
      } else if q(xs[0]) {
        assert Filter(p, xs) == a;
        assert Filter(q, xs) == [xs[0]] + b;
        assert ([xs[0]] + b)[1..] == b;
        SubsequenceOfTail(a, [xs[0]] + b);
      } else {
        assert Filter(p, xs) == a;
        assert Filter(q, xs) == b;
      }
    }
  }

  /** `xs.map(f)` */
  function Map<T, U>(f: T -> U, xs: seq<T>): (r: seq<U>)
    ensures |r| == |xs|
    ensures forall i :: 0 <= i < |xs| ==> r[i] == f(xs[i])
  {
    if xs == [] then [] else [f(xs[0])] + Map(f, xs[1..])
  }
}
