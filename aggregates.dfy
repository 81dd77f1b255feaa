/**
 * The descriptive aggregates the statistics use: the mean, the largest and
 * the smallest value of a non-empty list, computed exactly.
 */
module Aggregates {

  function Sum(xs: seq<real>): real {
    if xs == [] then 0.0 else xs[0] + Sum(xs[1..])
  }

  ghost predicate Within(xs: seq<real>, lo: real, hi: real) {
    forall x | x in xs :: lo <= x <= hi
  }

  lemma {:induction false} SumBounds(xs: seq<real>, lo: real, hi: real)
    requires Within(xs, lo, hi)
    ensures |xs| as real * lo <= Sum(xs) <= |xs| as real * hi
  {
    if xs != [] {
      assert Within(xs[1..], lo, hi) by {
        forall x | x in xs[1..] ensures lo <= x <= hi { assert x in xs; }
      }
      SumBounds(xs[1..], lo, hi);
      assert xs[0] in xs;
      assert |xs| as real * lo == (|xs| - 1) as real * lo + lo;
      assert |xs| as real * hi == (|xs| - 1) as real * hi + hi;
    }
  }

  function Mean(xs: seq<real>): real
    requires |xs| > 0
  {
    Sum(xs) / |xs| as real
  }

  /** The mean of values drawn from [lo, hi] lies in [lo, hi]. */
  lemma MeanBounds(xs: seq<real>, lo: real, hi: real)
    requires |xs| > 0
    requires Within(xs, lo, hi)
    ensures lo <= Mean(xs) <= hi
  {
    var n := |xs| as real;
    SumBounds(xs, lo, hi);
    assert n * lo <= Sum(xs) <= n * hi;
    assert Mean(xs) * n == Sum(xs);
  }

  function Largest(xs: seq<real>): (m: real)
    requires |xs| > 0
    ensures m in xs
    ensures forall x | x in xs :: x <= m
  {
    if |xs| == 1 then xs[0]
    else
      var rest := Largest(xs[1..]);
      assert forall x | x in xs :: x == xs[0] || x in xs[1..];
      if xs[0] >= rest then xs[0] else rest
  }

  function Smallest(xs: seq<real>): (m: real)
    requires |xs| > 0
    ensures m in xs
    ensures forall x | x in xs :: m <= x
  {
    if |xs| == 1 then xs[0]
    else
      var rest := Smallest(xs[1..]);
      assert forall x | x in xs :: x == xs[0] || x in xs[1..];
      if xs[0] <= rest then xs[0] else rest
  }

  /** The average, best and worst value of one column of the statistics. */
  datatype Aggregate = Aggregate(average: real, best: real, worst: real)

  /**
   * Best and worst are values of the list that bound all the others, and the
   * average lies between them.
   */
  function Summarize(xs: seq<real>): (a: Aggregate)
    requires |xs| > 0
    ensures a.best in xs && a.worst in xs
    ensures forall x | x in xs :: a.worst <= x <= a.best
    ensures a.worst <= a.average <= a.best
    ensures a.average * |xs| as real == Sum(xs)
  {
    var lo, hi := Smallest(xs), Largest(xs);
    MeanBounds(xs, lo, hi);
    Aggregate(Mean(xs), hi, lo)
  }
}
