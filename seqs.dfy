/**
 * The array combinators the dashboard is written with (`filter`, `find`, a summing
 * `reduce`), over Dafny sequences. `Filter` and `Sum` peel the last element, which is
 * how JavaScript's `reduce` folds from the left and how a loop over a prefix grows.
 */
module Seqs {
  import opened Wrappers

  /** `a` is `b` with some elements dropped and the rest kept in order. */
  ghost predicate IsSubsequence<T>(a: seq<T>, b: seq<T>)
    decreases |b|
  {
    if a == [] then true
    else if b == [] then false
    else
      (a[|a| - 1] == b[|b| - 1] && IsSubsequence(a[..|a| - 1], b[..|b| - 1]))
      || IsSubsequence(a, b[..|b| - 1])
  }

  /** `xs.filter(p)`: exactly the elements that pass, each as often as in `xs`, in input order. */
  function Filter<T>(xs: seq<T>, p: T -> bool): (r: seq<T>)
    ensures |r| <= |xs|
    ensures forall x :: x in r ==> p(x)
    ensures forall i :: 0 <= i < |xs| && p(xs[i]) ==> xs[i] in r
    ensures multiset(r) <= multiset(xs)
    ensures IsSubsequence(r, xs)
    decreases |xs|
  {
    if xs == [] then []
    else
      var init, last := xs[..|xs| - 1], xs[|xs| - 1];
      assert xs == init + [last];
      var r := Filter(init, p);
      assert r == [] || IsSubsequence(r, xs) by {
        if r != [] { assert xs[..|xs| - 1] == init; }
      }
      if p(last) then
        assert (r + [last])[..|r|] == r;
        r + [last]
      else
        r
  }

  /** Each value occurs in the filtered sequence as often as in `xs` if it passes, else never. */
  lemma {:induction false} FilterCounts<T>(xs: seq<T>, p: T -> bool)
    ensures forall x :: multiset(Filter(xs, p))[x] == if p(x) then multiset(xs)[x] else 0
    decreases |xs|
  {
    if xs != [] {
      var init, last := xs[..|xs| - 1], xs[|xs| - 1];
      assert xs == init + [last];
      FilterCounts(init, p);
    }
  }

  /** The filtered sequence holds exactly the elements of `xs` that pass. */
  lemma FilterMembers<T>(xs: seq<T>, p: T -> bool)
    ensures forall x :: x in Filter(xs, p) <==> x in xs && p(x)
  {
    var r := Filter(xs, p);
    forall x | x in r ensures x in xs {
      assert x in multiset(r);
    }
  }

  /** Two tests that agree on every element of `xs` keep the same elements. */
  lemma {:induction false} FilterAgree<T>(xs: seq<T>, p: T -> bool, q: T -> bool)
    requires forall i :: 0 <= i < |xs| ==> p(xs[i]) == q(xs[i])
    ensures Filter(xs, p) == Filter(xs, q)
    decreases |xs|
  {
    if xs != [] {
      var init := xs[..|xs| - 1];
      AgreeOnPrefix(xs, init, p, q);
      FilterAgree(init, p, q);
    }
  }

  /** Tests that agree on a sequence agree on the sequence without its last element. */
  lemma AgreeOnPrefix<T>(xs: seq<T>, init: seq<T>, p: T -> bool, q: T -> bool)
    requires xs != [] && init == xs[..|xs| - 1]
    requires forall i :: 0 <= i < |xs| ==> p(xs[i]) == q(xs[i])
    ensures forall i :: 0 <= i < |init| ==> p(init[i]) == q(init[i])
    ensures p(xs[|xs| - 1]) == q(xs[|xs| - 1])
  {
    assert forall i :: 0 <= i < |init| ==> init[i] == xs[i];
  }

  /** Nothing passes the filter exactly when no element passes. */
  lemma {:induction false} FilterEmpty<T>(xs: seq<T>, p: T -> bool)
    ensures Filter(xs, p) == [] <==> forall i :: 0 <= i < |xs| ==> !p(xs[i])
    decreases |xs|
  {
    if xs != [] {
      var n := |xs| - 1;
      assert forall i :: 0 <= i < n ==> xs[..n][i] == xs[i];
      FilterEmpty(xs[..n], p);
    }
  }

  /**
   * Filtering two sequences of the same length, where an element of the second passes
   * only if the element of the first at the same index does, keeps no more of the second.
   */
  lemma {:induction false} FilterLengthPointwise<T, U>(xs: seq<T>, p: T -> bool, ys: seq<U>, q: U -> bool)
    requires |xs| == |ys|
    requires forall i :: 0 <= i < |xs| && q(ys[i]) ==> p(xs[i])
    ensures |Filter(ys, q)| <= |Filter(xs, p)|
    decreases |xs|
  {
    if xs != [] {
      var n := |xs| - 1;
      assert forall i :: 0 <= i < n ==> xs[..n][i] == xs[i] && ys[..n][i] == ys[i];
      FilterLengthPointwise(xs[..n], p, ys[..n], q);
    }
  }

  /** `xs.reduce((total, x) => total + f(x), 0)`. */
  function Sum<T>(xs: seq<T>, f: T -> int): int
    decreases |xs|
  {
    if xs == [] then 0 else Sum(xs[..|xs| - 1], f) + f(xs[|xs| - 1])
  }

  /** `xs.find(p)`: the first element that passes, or nothing when none does. */
  function Find<T>(xs: seq<T>, p: T -> bool): (r: Option<T>)
    ensures r.None? <==> forall i :: 0 <= i < |xs| ==> !p(xs[i])
    ensures forall i :: 0 <= i < |xs| && p(xs[i]) && (forall j :: 0 <= j < i ==> !p(xs[j])) ==> r == Some(xs[i])
  {
    if xs == [] then None
    else if p(xs[0]) then Some(xs[0])
    else
      var r := Find(xs[1..], p);
      assert forall i :: 1 <= i < |xs| ==> xs[1..][i - 1] == xs[i];
      r
  }

  lemma {:induction false} SumConcat<T>(a: seq<T>, b: seq<T>, f: T -> int)
    ensures Sum(a + b, f) == Sum(a, f) + Sum(b, f)
    decreases |b|
  {
    if b != [] {
      assert (a + b)[..|a + b| - 1] == a + b[..|b| - 1];
      SumConcat(a, b[..|b| - 1], f);
    } else {
      assert a + b == a;
    }
  }

  /** Summing only what passes a filter is summing a function that is zero elsewhere. */
  lemma {:induction false} SumFilter<T>(xs: seq<T>, p: T -> bool, f: T -> int, g: T -> int)
    requires forall x :: g(x) == if p(x) then f(x) else 0
    ensures Sum(Filter(xs, p), f) == Sum(xs, g)
    decreases |xs|
  {
    if xs != [] {
      var init, last := xs[..|xs| - 1], xs[|xs| - 1];
      SumFilter(init, p, f, g);
      assert xs[..|xs| - 1] == init && xs[|xs| - 1] == last;
      assert Sum(xs, g) == Sum(init, g) + g(last);
      var r := Filter(init, p);
      if p(last) {
        assert Filter(xs, p) == r + [last];
        assert (r + [last])[..|r|] == r;
        assert Sum(r + [last], f) == Sum(r, f) + f(last);
      } else {
        assert Filter(xs, p) == r;
      }
    }
  }

  /** Replacing one element changes the sum by the difference of the two terms. */
  lemma {:induction false} SumUpdate<T>(xs: seq<T>, i: nat, x: T, f: T -> int)
    requires i < |xs|
    ensures Sum(xs[i := x], f) == Sum(xs, f) - f(xs[i]) + f(x)
    decreases |xs|
  {
    var n := |xs| - 1;
    var ys := xs[i := x];
    if i < n {
      assert ys[..n] == xs[..n][i := x];
      SumUpdate(xs[..n], i, x, f);
    } else {
      assert ys[..n] == xs[..n];
    }
  }

  /** Summing a pointwise sum of two terms is adding their sums. */
  lemma {:induction false} SumAdd<T>(xs: seq<T>, f: T -> int, g: T -> int, h: T -> int)
    requires forall x :: h(x) == f(x) + g(x)
    ensures Sum(xs, h) == Sum(xs, f) + Sum(xs, g)
    decreases |xs|
  {
    if xs != [] {
      SumAdd(xs[..|xs| - 1], f, g, h);
    }
  }

  /** Terms that are all zero sum to zero. */
  lemma {:induction false} SumZero<T>(xs: seq<T>, f: T -> int)
    requires forall i :: 0 <= i < |xs| ==> f(xs[i]) == 0
    ensures Sum(xs, f) == 0
    decreases |xs|
  {
    if xs != [] {
      SumZero(xs[..|xs| - 1], f);
    }
  }

  /** Concatenation regroups freely (stated on its own so that callers need not re-derive it). */
  lemma ConcatAssoc<T>(a: seq<T>, b: seq<T>, c: seq<T>)
    ensures (a + b) + c == a + (b + c)
  {
  }

  /** Cutting inside the first part of a concatenation. */
  lemma CutConcat<T>(x: seq<T>, y: seq<T>, n: nat)
    requires n <= |x|
    ensures (x + y)[..n] == x[..n]
    ensures (x + y)[n..] == x[n..] + y
  {
  }
}
