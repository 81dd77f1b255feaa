/**
 * Calendar dates are day numbers: consecutive days are consecutive integers.
 * An ISO `YYYY-MM-DD` key sorts as text exactly as its date sorts in time, so
 * sorting the source's string keys is sorting these numbers.
 */
module Dates {

  /** Some element of a non-empty set (specification only). */
  ghost function Pick<T>(s: set<T>): (y: T)
    requires s != {}
    ensures y in s
  {
    var y :| y in s; y
  }

  predicate IsLatest(days: set<int>, m: int) {
    m in days && forall d | d in days :: d <= m
  }

  lemma {:induction false} LatestExists(days: set<int>)
    requires days != {}
    ensures exists m :: IsLatest(days, m)
    decreases |days|
  {
    var y := Pick(days);
    if days != {y} {
      var rest := days - {y};
      LatestExists(rest);
      var m :| IsLatest(rest, m);
      assert forall d | d in days :: d == y || d in rest;
      if y > m {
        assert IsLatest(days, y);
      } else {
        assert IsLatest(days, m);
      }
    } else {
      assert IsLatest(days, y);
    }
  }

  /** The latest of a non-empty set of days. */
  function Latest(days: set<int>): (m: int)
    requires days != {}
    ensures m in days
    ensures forall d | d in days :: d <= m
  {
    LatestExists(days);
    var m :| IsLatest(days, m); m
  }

  predicate StrictlyDescending(dates: seq<int>) {
    forall i, j | 0 <= i < j < |dates| :: dates[i] > dates[j]
  }

  /** The days in descending order: every day once, latest first. */
  function DatesDescending(days: set<int>): (dates: seq<int>)
    ensures StrictlyDescending(dates)
    ensures forall d :: d in dates <==> d in days
    ensures |dates| == |days|
    decreases |days|
  {
    if days == {} then []
    else
      var m := Latest(days);
      [m] + DatesDescending(days - {m})
  }

  /** A strictly descending sequence is fixed by its elements. */
  lemma {:induction false} DescendingUnique(xs: seq<int>, ys: seq<int>)
    requires StrictlyDescending(xs) && StrictlyDescending(ys)
    requires forall d :: d in xs <==> d in ys
    ensures xs == ys
    decreases |xs|
  {
    assert xs == [] <==> ys == [] by {
      if xs != [] { assert xs[0] in xs; }
      if ys != [] { assert ys[0] in ys; }
    }
    if xs != [] {
      assert xs[0] in ys && ys[0] in xs;
      forall d ensures d in xs[1..] <==> d in ys[1..] {
        if d in xs[1..] {
          var k :| 1 <= k < |xs| && xs[k] == d;
          assert xs[0] > d && d in ys;
          var m :| 0 <= m < |ys| && ys[m] == d;
          assert m != 0;
          assert ys[1..][m - 1] == d;
        }
        if d in ys[1..] {
          var k :| 1 <= k < |ys| && ys[k] == d;
          assert ys[0] > d && d in xs;
          var m :| 0 <= m < |xs| && xs[m] == d;
          assert m != 0;
          assert xs[1..][m - 1] == d;
        }
      }
      DescendingUnique(xs[1..], ys[1..]);
    }
  }

  /** A descending list of exactly these days is the one `DatesDescending` gives. */
  lemma SortedIsDatesDescending(dates: seq<int>, days: set<int>)
    requires StrictlyDescending(dates)
    requires forall d :: d in dates <==> d in days
    ensures dates == DatesDescending(days)
  {
    DescendingUnique(dates, DatesDescending(days));
  }

  /** Sorts the store's days in reverse order, as the loops walking them do. */
  method SortDescending(days: set<int>) returns (dates: seq<int>)
    ensures StrictlyDescending(dates)
    ensures forall d :: d in dates <==> d in days
    ensures |dates| == |days|
  {
    dates := DatesDescending(days);
  }
}
