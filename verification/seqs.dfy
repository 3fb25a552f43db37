/**
 The two dataframe primitives the dashboard leans on, stated over sequences:
 boolean-mask indexing (`Keep`, an order-preserving filter) and `unique`
 (`Distinct`), with the lemmas that let filters be reordered and merged.
 */
module Seqs {

  /** The elements of `xs` satisfying `p`, in their original order. */
  function Keep<T(!new)>(xs: seq<T>, p: T -> bool): (r: seq<T>)
    ensures |r| <= |xs|
    ensures forall x :: x in r <==> x in xs && p(x)
    ensures forall x :: multiset(r)[x] == if p(x) then multiset(xs)[x] else 0
  {
    if xs == [] then []
    else
      assert xs == [xs[0]] + xs[1..];
      var rest := Keep(xs[1..], p);
      if p(xs[0]) then [xs[0]] + rest else rest
  }

  /** `xs` can be obtained from `ys` by deleting elements, without reordering. */
  ghost predicate IsSubsequence<T>(xs: seq<T>, ys: seq<T>)
    decreases |ys|
  {
    || xs == []
    || (&& ys != []
        && ((xs[0] == ys[0] && IsSubsequence(xs[1..], ys[1..])) || IsSubsequence(xs, ys[1..])))
  }

  /** A filtered sequence keeps the relative order of what it keeps. */
  lemma {:induction false} KeepIsSubsequence<T(!new)>(xs: seq<T>, p: T -> bool)
    ensures IsSubsequence(Keep(xs, p), xs)
  {
    if xs != [] {
      KeepIsSubsequence(xs[1..], p);
      var rest := Keep(xs[1..], p);
      if p(xs[0]) {
        assert Keep(xs, p) == [xs[0]] + rest;
        assert ([xs[0]] + rest)[1..] == rest;
      } else {
        assert Keep(xs, p) == rest;
        if rest != [] {
          assert IsSubsequence(rest, xs[1..]);
        }
      }
    }
  }

  /** Two filters in a row are one filter by their conjunction. */
  lemma {:induction false} KeepKeep<T(!new)>(xs: seq<T>, p: T -> bool, q: T -> bool, pq: T -> bool)
    requires forall x :: pq(x) == (p(x) && q(x))
    ensures Keep(Keep(xs, p), q) == Keep(xs, pq)
  {
    if xs != [] {
      KeepKeep(xs[1..], p, q, pq);
    }
  }

  /** Filters that agree on every element of `xs` select the same rows. */
  lemma {:induction false} KeepSame<T(!new)>(xs: seq<T>, p: T -> bool, q: T -> bool)
    requires forall x :: x in xs ==> p(x) == q(x)
    ensures Keep(xs, p) == Keep(xs, q)
  {
    if xs != [] {
      KeepSame(xs[1..], p, q);
    }
  }

  /** A filter every element passes returns its input unchanged. */
  lemma {:induction false} KeepAll<T(!new)>(xs: seq<T>, p: T -> bool)
    requires forall x :: x in xs ==> p(x)
    ensures Keep(xs, p) == xs
  {
    if xs != [] {
      KeepAll(xs[1..], p);
    }
  }

  /** The distinct values of `xs`, each once, in order of first appearance. */
  function Distinct<T(==,!new)>(xs: seq<T>): (r: seq<T>)
    ensures forall x :: x in r <==> x in xs
    ensures forall i, j :: 0 <= i < j < |r| ==> r[i] != r[j]
  {
    if xs == [] then []
    else
      var init := xs[..|xs| - 1];
      var last := xs[|xs| - 1];
      assert xs == init + [last];
      var r := Distinct(init);
      if last in r then r else r + [last]
  }
}
