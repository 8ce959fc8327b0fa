/** Sequence helpers shared by the pages: order-preserving subsequences,
    `Array.prototype.filter`, `Array.prototype.find` and integer sums. */
module Seqs {

  datatype Option<+T> = None | Some(value: T)

  /** `r` can be obtained from `s` by deleting elements, keeping the order of the rest.
      Greedy matching of the first element is complete for this question. */
  predicate IsSubsequence<T(==)>(r: seq<T>, s: seq<T>)
    decreases |s|
  {
    if r == [] then true
    else if s == [] then false
    else if r[0] == s[0] then IsSubsequence(r[1..], s[1..])
    else IsSubsequence(r, s[1..])
  }

  /** `xs.filter(keep)`: the elements that satisfy `keep`, in their original order. */
  function Filter<T(==)>(xs: seq<T>, keep: T -> bool): (r: seq<T>)
    ensures IsSubsequence(r, xs)
    ensures forall i :: 0 <= i < |r| ==> keep(r[i])
    ensures (forall i :: 0 <= i < |xs| ==> keep(xs[i])) ==> r == xs
    decreases |xs|
  {
    if xs == [] then []
    else
      var rest := Filter(xs[1..], keep);
      if keep(xs[0]) then
        assert ([xs[0]] + rest)[1..] == rest;
        [xs[0]] + rest
      else
        assert rest != [] ==> keep(rest[0]) && rest[0] != xs[0];
        rest
  }

  /** Nothing that satisfies `keep` is dropped, and nothing is duplicated:
      each kept value occurs in the result exactly as often as in `xs`. */
  lemma {:induction false} FilterCounts<T(!new)>(xs: seq<T>, keep: T -> bool)
    ensures forall x :: multiset(Filter(xs, keep))[x] == if keep(x) then multiset(xs)[x] else 0
    decreases |xs|
  {
    if xs != [] {
      FilterCounts(xs[1..], keep);
      assert xs == [xs[0]] + xs[1..];
      assert multiset(xs) == multiset([xs[0]]) + multiset(xs[1..]);
    }
  }

  /** Consequently an element of `xs` is in the filtered list iff it satisfies `keep`. */
  lemma FilterMembership<T(!new)>(xs: seq<T>, keep: T -> bool)
    ensures forall x :: x in Filter(xs, keep) <==> x in xs && keep(x)
  {
    FilterCounts(xs, keep);
    forall x ensures x in Filter(xs, keep) <==> x in xs && keep(x) {
      assert x in Filter(xs, keep) <==> multiset(Filter(xs, keep))[x] > 0;
      assert x in xs <==> multiset(xs)[x] > 0;
    }
  }

  /** Filtering with two tests that agree on every value gives the same list. */
  lemma {:induction false} FilterSameTest<T>(xs: seq<T>, p: T -> bool, q: T -> bool)
    requires forall x :: p(x) == q(x)
    ensures Filter(xs, p) == Filter(xs, q)
    decreases |xs|
  {
    if xs != [] {
      FilterSameTest(xs[1..], p, q);
    }
  }

  /** `xs.filter(keep).length`. */
  function Count<T(==)>(xs: seq<T>, keep: T -> bool): (n: nat)
    ensures n <= |xs|
    ensures n == |Filter(xs, keep)|
    decreases |xs|
  {
    if xs == [] then 0
    else (if keep(xs[0]) then 1 else 0) + Count(xs[1..], keep)
  }

  /** `xs.find(p)`: the first element satisfying `p`, or nothing. */
  function Find<T(==)>(xs: seq<T>, p: T -> bool): (r: Option<T>)
    ensures r.None? <==> forall i :: 0 <= i < |xs| ==> !p(xs[i])
    ensures r.Some? ==> exists k :: 0 <= k < |xs| && xs[k] == r.value && p(xs[k])
                                     && forall j :: 0 <= j < k ==> !p(xs[j])
    decreases |xs|
  {
    if xs == [] then None
    else if p(xs[0]) then Some(xs[0])
    else
      var r := Find(xs[1..], p);
      if r.Some? then
        var k :| 0 <= k < |xs[1..]| && xs[1..][k] == r.value && p(xs[1..][k])
                 && forall j :: 0 <= j < k ==> !p(xs[1..][j]);
        assert xs[k + 1] == r.value && forall j :: 0 <= j < k + 1 ==> !p(xs[j]);
        r
      else r
  }

  /** `xs.reduce((s, x) => s + f(x), 0)`. */
  function Sum<T>(xs: seq<T>, f: T -> int): int
    decreases |xs|
  {
    if xs == [] then 0 else f(xs[0]) + Sum(xs[1..], f)
  }

  /** Summing a concatenation sums the parts: a record appended to a table adds its own value. */
  lemma {:induction false} SumAppend<T>(xs: seq<T>, ys: seq<T>, f: T -> int)
    ensures Sum(xs + ys, f) == Sum(xs, f) + Sum(ys, f)
    decreases |xs|
  {
    if xs == [] {
      assert xs + ys == ys;
    } else {
      assert (xs + ys)[1..] == xs[1..] + ys;
      SumAppend(xs[1..], ys, f);
    }
  }

  /** The difference of two column sums is the sum of the per-row differences. */
  lemma {:induction false} SumDifference<T>(xs: seq<T>, f: T -> int, g: T -> int, h: T -> int)
    requires forall x :: h(x) == f(x) - g(x)
    ensures Sum(xs, h) == Sum(xs, f) - Sum(xs, g)
    decreases |xs|
  {
    if xs != [] {
      SumDifference(xs[1..], f, g, h);
    }
  }

  /** A sum of values that are all non-negative is non-negative. */
  lemma {:induction false} SumNonNegative<T>(xs: seq<T>, f: T -> int)
    ensures (forall i :: 0 <= i < |xs| ==> f(xs[i]) >= 0) ==> Sum(xs, f) >= 0
    decreases |xs|
  {
    if xs != [] {
      assert forall i :: 0 <= i < |xs[1..]| ==> f(xs[1..][i]) == f(xs[i + 1]);
      SumNonNegative(xs[1..], f);
    }
  }
}
