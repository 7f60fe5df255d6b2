/**
 * Sequence operations the front end uses through the JavaScript array
 * library: `Array.prototype.filter` and de-duplication through a `Set`
 * (whose iteration order is insertion order).
 */
module Seqs {

  /** `a` is obtained from `b` by deleting elements, keeping the rest in order. */
  predicate IsSubseq<T(==)>(a: seq<T>, b: seq<T>)
    decreases |b|
  {
    |a| == 0
    || (|b| > 0 && ((a[0] == b[0] && IsSubseq(a[1..], b[1..])) || IsSubseq(a, b[1..])))
  }

  /** `s.filter(p)`: the elements satisfying `p`, in their original order. */
  function Filter<T>(s: seq<T>, p: T -> bool): (r: seq<T>)
    ensures |r| <= |s|
    ensures forall i :: 0 <= i < |r| ==> r[i] in s && p(r[i])
    ensures forall i :: 0 <= i < |s| && p(s[i]) ==> s[i] in r
    decreases |s|
  {
    if |s| == 0 then []
    else if p(s[0]) then [s[0]] + Filter(s[1..], p)
    else Filter(s[1..], p)
  }

  /** No element occurs twice. */
  predicate NoDuplicates<T(==)>(s: seq<T>) {
    forall i, j :: 0 <= i < j < |s| ==> s[i] != s[j]
  }

  /** Position of the first occurrence of `x` in `xs`. */
  function FirstIndex<T(==)>(xs: seq<T>, x: T): (i: nat)
    requires x in xs
    ensures i < |xs| && xs[i] == x && x !in xs[..i]
    decreases |xs|
  {
    if xs[0] == x then 0 else 1 + FirstIndex(xs[1..], x)
  }

  // ----- Properties of Filter --------------------------------------------

  /** One step of the filter, from the front. */
  lemma FilterCons<T>(s: seq<T>, p: T -> bool)
    requires |s| > 0
    ensures Filter(s, p) == (if p(s[0]) then [s[0]] else []) + Filter(s[1..], p)
  {
  }

  /** A filter result is an order-preserving subsequence of its input. */
  lemma {:induction false} FilterIsSubseq<T>(s: seq<T>, p: T -> bool)
    ensures IsSubseq(Filter(s, p), s)
    decreases |s|
  {
    if |s| > 0 {
      FilterIsSubseq(s[1..], p);
      if p(s[0]) {
        assert Filter(s, p)[1..] == Filter(s[1..], p);
      }
    }
  }

  /** A filter keeps every occurrence of a satisfying element and none of
      the others: each value appears as often as in the input, or not at all. */
  lemma FilterMultiset<T>(s: seq<T>, p: T -> bool)
    ensures forall y :: multiset(Filter(s, p))[y] == if p(y) then multiset(s)[y] else 0
  {
    forall y ensures multiset(Filter(s, p))[y] == if p(y) then multiset(s)[y] else 0 {
      FilterCount(s, p, y);
    }
  }

  /** `FilterMultiset` for one value. */
  lemma {:induction false} FilterCount<T>(s: seq<T>, p: T -> bool, y: T)
    ensures multiset(Filter(s, p))[y] == if p(y) then multiset(s)[y] else 0
    decreases |s|
  {
    if |s| > 0 {
      var rest := Filter(s[1..], p);
      FilterCount(s[1..], p, y);
      FilterCons(s, p);
      assert s == [s[0]] + s[1..];
      assert multiset(s) == multiset{s[0]} + multiset(s[1..]);
      if p(s[0]) {
        assert multiset(Filter(s, p)) == multiset{s[0]} + multiset(rest);
      } else {
        assert Filter(s, p) == rest;
      }
    }
  }

  /** Filtering by a predicate every element satisfies changes nothing. */
  lemma {:induction false} FilterKeepsAll<T>(s: seq<T>, p: T -> bool)
    requires forall i :: 0 <= i < |s| ==> p(s[i])
    ensures Filter(s, p) == s
    decreases |s|
  {
    if |s| > 0 {
      assert p(s[0]);
      FilterKeepsAll(s[1..], p);
      assert [s[0]] + s[1..] == s;
    }
  }

  /** Filtering by a predicate no element satisfies leaves nothing. */
  lemma {:induction false} FilterKeepsNone<T>(s: seq<T>, p: T -> bool)
    requires forall i :: 0 <= i < |s| ==> !p(s[i])
    ensures Filter(s, p) == []
    decreases |s|
  {
    if |s| > 0 {
      assert !p(s[0]);
      FilterKeepsNone(s[1..], p);
    }
  }

  /** Only the predicate's values on the elements matter. */
  lemma {:induction false} FilterCongruent<T>(s: seq<T>, p: T -> bool, q: T -> bool)
    requires forall i :: 0 <= i < |s| ==> p(s[i]) == q(s[i])
    ensures Filter(s, p) == Filter(s, q)
    decreases |s|
  {
    if |s| > 0 {
      assert p(s[0]) == q(s[0]);
      FilterCongruent(s[1..], p, q);
    }
  }

  /** Two filters in a row are one filter by the conjunction. */
  lemma {:induction false} FilterFilter<T>(s: seq<T>, p: T -> bool, q: T -> bool, both: T -> bool)
    requires forall i :: 0 <= i < |s| ==> both(s[i]) == (p(s[i]) && q(s[i]))
    ensures Filter(Filter(s, p), q) == Filter(s, both)
    decreases |s|
  {
    if |s| > 0 {
      assert both(s[0]) == (p(s[0]) && q(s[0]));
      FilterFilter(s[1..], p, q, both);
      if p(s[0]) {
        assert Filter([s[0]] + Filter(s[1..], p), q)
            == (if q(s[0]) then [s[0]] else []) + Filter(Filter(s[1..], p), q) by {
          var t := [s[0]] + Filter(s[1..], p);
          assert t[0] == s[0] && t[1..] == Filter(s[1..], p);
        }
      }
    }
  }

  // ----- De-duplication -------------------------------------------------

  /** Nothing before the first occurrence equals `x`. */
  lemma FirstIndexIsFirst<T>(xs: seq<T>, x: T)
    requires x in xs
    ensures forall j :: 0 <= j < FirstIndex(xs, x) ==> xs[j] != x
  {
    var f := FirstIndex(xs, x);
    forall j | 0 <= j < f ensures xs[j] != x {
      assert xs[j] == xs[..f][j];
    }
  }

  lemma FirstIndexAt<T>(xs: seq<T>, x: T, i: int)
    requires 0 <= i < |xs| && xs[i] == x && x !in xs[..i]
    ensures FirstIndex(xs, x) == i
  {
    FirstIndexIsFirst(xs, x);
    forall j | 0 <= j < i ensures xs[j] != x {
      assert xs[j] == xs[..i][j];
    }
  }

  /** `Array.from(new Set(xs))`: the distinct values of `xs`, each once,
      ordered by where it first occurs in `xs`. */
  method DistinctInOrder<T(==)>(xs: seq<T>) returns (r: seq<T>)
    ensures NoDuplicates(r)
    ensures forall x :: x in r <==> x in xs
    ensures forall a, b :: 0 <= a < b < |r| ==> FirstIndex(xs, r[a]) < FirstIndex(xs, r[b])
  {
    r := [];
    var i := 0;
    while i < |xs|
      invariant 0 <= i <= |xs|
      invariant NoDuplicates(r)
      invariant forall x :: x in r <==> x in xs[..i]
      invariant forall a :: 0 <= a < |r| ==> r[a] in xs && FirstIndex(xs, r[a]) < i
      invariant forall a, b :: 0 <= a < b < |r| ==> FirstIndex(xs, r[a]) < FirstIndex(xs, r[b])
    {
      var x := xs[i];
      assert xs[..i + 1] == xs[..i] + [x];
      if x !in r {
        FirstIndexAt(xs, x, i);
        r := r + [x];
      }
      i := i + 1;
    }
    assert xs[..|xs|] == xs;
  }
}
