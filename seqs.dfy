/**
  Generic sequence operations that stand for the JavaScript array methods the
  blueprint generator chains together (`filter`, `slice(0, n)`), with the
  order-preserving subsequence relation used to state what a filter keeps.
 */
module Seqs {

  function Min(a: nat, b: nat): nat {
    if a <= b then a else b
  }

  /** `xs` is an order-preserving subsequence of `ys` (greedy matching). */
  predicate IsSubseq<T(==)>(xs: seq<T>, ys: seq<T>) {
    if xs == [] then true
    else if ys == [] then false
    else if xs[0] == ys[0] then IsSubseq(xs[1..], ys[1..])
    else IsSubseq(xs, ys[1..])
  }

  /** A subsequence keeps only elements of the sequence it was drawn from. */
  lemma {:induction false} SubseqElements<T>(xs: seq<T>, ys: seq<T>)
    requires IsSubseq(xs, ys)
    ensures |xs| <= |ys|
    ensures forall x :: x in xs ==> x in ys
  {
    if xs != [] {
      if xs[0] == ys[0] {
        SubseqElements(xs[1..], ys[1..]);
        assert forall x :: x in xs ==> x == xs[0] || x in xs[1..];
      } else {
        SubseqElements(xs, ys[1..]);
      }
    }
  }

  /** JavaScript's `Array.prototype.map`. */
  function Map<T, U>(s: seq<T>, f: T -> U): (r: seq<U>)
    ensures |r| == |s|
    ensures forall i :: 0 <= i < |s| ==> r[i] == f(s[i])
  {
    seq(|s|, i requires 0 <= i < |s| => f(s[i]))
  }

  /** A function that maps no other element to `f(x)` gives `f(x)` as often as `x` occurs. */
  lemma {:induction false} MapCount<T, U>(s: seq<T>, f: T -> U, x: T)
    requires forall y :: f(y) == f(x) ==> y == x
    ensures multiset(Map(s, f))[f(x)] == multiset(s)[x]
  {
    if s != [] {
      var m := Map(s, f);
      MapCount(s[1..], f, x);
      assert m[1..] == Map(s[1..], f);
      assert m == [m[0]] + m[1..];
      assert s == [s[0]] + s[1..];
    }
  }

  /** Mapping both sides by the same function keeps the subsequence relation. */
  lemma {:induction false} SubseqMap<T, U>(xs: seq<T>, ys: seq<T>, f: T -> U)
    requires IsSubseq(xs, ys)
    ensures IsSubseq(Map(xs, f), Map(ys, f))
  {
    var fx := Map(xs, f);
    var fy := Map(ys, f);
    if xs == [] {
    } else if xs[0] == ys[0] {
      SubseqMap(xs[1..], ys[1..], f);
      assert fx[1..] == Map(xs[1..], f);
      assert fy[1..] == Map(ys[1..], f);
    } else {
      SubseqMap(xs, ys[1..], f);
      assert fy[1..] == Map(ys[1..], f);
      SubseqSkip(fx, fy);
    }
  }

  /** Dropping the head of the longer sequence keeps a subsequence of its tail one of the whole. */
  lemma {:induction false} SubseqSkip<T>(xs: seq<T>, ys: seq<T>)
    requires ys != [] && IsSubseq(xs, ys[1..])
    ensures IsSubseq(xs, ys)
    decreases |xs| + |ys|
  {
    if xs != [] && xs[0] == ys[0] {
      SubseqTail(xs, ys[1..]);
    }
  }

  /** The tail of a subsequence is still a subsequence. */
  lemma {:induction false} SubseqTail<T>(xs: seq<T>, ys: seq<T>)
    requires xs != [] && IsSubseq(xs, ys)
    ensures IsSubseq(xs[1..], ys)
    decreases |xs| + |ys|
  {
    if xs[0] == ys[0] {
      if xs[1..] != [] {
        SubseqTail(xs[1..], ys[1..]);
        SubseqSkip(xs[1..], ys);
      }
    } else {
      SubseqTail(xs, ys[1..]);
      if xs[1..] != [] {
        SubseqSkip(xs[1..], ys);
      }
    }
  }

  /**
    JavaScript's `Array.prototype.filter`: the kept elements, in their
    original order, and exactly the elements satisfying `keep`
    (`FilterCount` adds: each as many times as it occurs in `s`).
   */
  function Filter<T(==,!new)>(s: seq<T>, keep: T -> bool): (r: seq<T>)
    ensures IsSubseq(r, s)
    ensures forall x :: x in r <==> x in s && keep(x)
  {
    if s == [] then []
    else if keep(s[0]) then [s[0]] + Filter(s[1..], keep)
    else
      var rest := Filter(s[1..], keep);
      assert rest != [] ==> rest[0] != s[0] by {
        if rest != [] { assert rest[0] in rest; }
      }
      rest
  }

  /** `filter` keeps every element that passes as many times as it occurs, and drops the others. */
  lemma {:induction false} FilterCount<T(!new)>(s: seq<T>, keep: T -> bool, x: T)
    ensures multiset(Filter(s, keep))[x] == if keep(x) then multiset(s)[x] else 0
  {
    if s != [] {
      FilterCount(s[1..], keep, x);
      assert s == [s[0]] + s[1..];
    }
  }

  /** Filtering a concatenation filters each part. */
  lemma {:induction false} FilterAppend<T(!new)>(a: seq<T>, b: seq<T>, keep: T -> bool)
    ensures Filter(a + b, keep) == Filter(a, keep) + Filter(b, keep)
  {
    if a != [] {
      assert (a + b)[1..] == a[1..] + b;
      FilterAppend(a[1..], b, keep);
    } else {
      assert a + b == b;
    }
  }

  /** Filtering a sequence whose every element is kept gives it back unchanged. */
  lemma {:induction false} FilterKeepsAll<T(!new)>(s: seq<T>, keep: T -> bool)
    requires forall x :: x in s ==> keep(x)
    ensures Filter(s, keep) == s
  {
    if s != [] {
      assert forall x :: x in s[1..] ==> x in s;
      FilterKeepsAll(s[1..], keep);
    }
  }

  /** JavaScript's `slice(0, n)`: the first `n` elements, or all of them when there are fewer. */
  function Take<T>(s: seq<T>, n: nat): (r: seq<T>)
    ensures |r| == Min(n, |s|)
    ensures r <= s
  {
    s[..Min(n, |s|)]
  }
}
