/**
 * The weekly habit tracker: a list of user-defined habit names and, per
 * week number, the value recorded for each habit that week.
 */
module WeeklyTracker {
  import opened Dates

  ghost predicate NoDuplicates(names: seq<string>) {
    forall i, j | 0 <= i < j < |names| :: names[i] != names[j]
  }

  /** The position of the first occurrence of `name`. */
  function IndexOf(names: seq<string>, name: string): (i: nat)
    requires name in names
    ensures i < |names| && names[i] == name
    ensures forall j | 0 <= j < i :: names[j] != name
  {
    if names[0] == name then 0 else 1 + IndexOf(names[1..], name)
  }

  /** Python's list removal, for a name the list holds or not: drops its first occurrence. */
  function RemoveFirst(names: seq<string>, name: string): (rest: seq<string>)
    ensures name !in names ==> rest == names
    ensures name in names ==> |rest| == |names| - 1
    ensures forall n | n in rest :: n in names
  {
    if names == [] then []
    else if names[0] == name then names[1..]
    else [names[0]] + RemoveFirst(names[1..], name)
  }

  /** Removing a present name keeps the names before and after it, in order. */
  lemma {:induction false} RemoveFirstKeepsOrder(names: seq<string>, name: string)
    requires name in names
    ensures RemoveFirst(names, name)
      == names[..IndexOf(names, name)] + names[IndexOf(names, name) + 1..]
  {
    if names[0] != name {
      var tail := names[1..];
      RemoveFirstKeepsOrder(tail, name);
      var i := IndexOf(tail, name);
      assert IndexOf(names, name) == i + 1;
      SplitAfterHead(names, i);
    }
  }

  lemma SplitAfterHead(names: seq<string>, i: nat)
    requires i + 1 < |names|
    ensures names[..i + 1] + names[i + 2..] == [names[0]] + (names[1..][..i] + names[1..][i + 1..])
  {
    assert names[..i + 1] == [names[0]] + names[1..][..i];
    assert names[i + 2..] == names[1..][i + 1..];
  }

  /** Removing from a list without duplicates leaves none, and removes the name entirely. */
  lemma {:induction false} RemoveFirstNoDuplicates(names: seq<string>, name: string)
    requires NoDuplicates(names)
    ensures NoDuplicates(RemoveFirst(names, name))
    ensures name !in RemoveFirst(names, name)
    ensures forall n | n in names && n != name :: n in RemoveFirst(names, name)
  {
    if names != [] {
      var tail := names[1..];
      assert NoDuplicates(tail) by {
        forall i, j | 0 <= i < j < |tail| ensures tail[i] != tail[j] {
          assert tail[i] == names[i + 1] && tail[j] == names[j + 1];
        }
      }
      assert names[0] !in tail by {
        forall k | 0 <= k < |tail| ensures tail[k] != names[0] {
          assert tail[k] == names[k + 1];
        }
      }
      RemoveFirstNoDuplicates(tail, name);
      if names[0] != name {
        var rest := RemoveFirst(tail, name);
        var result := [names[0]] + rest;
        forall i, j | 0 <= i < j < |result| ensures result[i] != result[j] {
          if i == 0 {
            assert result[j] == rest[j - 1];
            assert rest[j - 1] in rest;
          } else {
            assert result[i] == rest[i - 1] && result[j] == rest[j - 1];
          }
        }
        forall n | n in names && n != name ensures n in result {
          if n != names[0] {
            assert n in tail;
          }
        }
      } else {
        forall n | n in names && n != name ensures n in tail {
          var k :| 0 <= k < |names| && names[k] == n;
          assert k != 0;
          assert tail[k - 1] == n;
        }
      }
    }
  }

  /** Every value recorded for any week lies in [0, 10]. */
  ghost predicate ValuesInRange(values: map<string, int>) {
    forall habit | habit in values :: 0 <= values[habit] <= 10
  }

  ghost predicate EntriesInRange(weeklyEntries: map<int, map<string, int>>) {
    forall week | week in weeklyEntries :: ValuesInRange(weeklyEntries[week])
  }

  /** `add_weekly_entry` keeps a pair only for a listed habit and a value in [0, 10]. */
  predicate Accepts(habitList: seq<string>, habit: string, value: int) {
    habit in habitList && 0 <= value <= 10
  }

  /** The week's values before the call: its dictionary, or a fresh empty one. */
  function StartOf(weeklyEntries: map<int, map<string, int>>, week: int): map<string, int> {
    if week in weeklyEntries then weeklyEntries[week] else map[]
  }

  /** The entry loop: each accepted pair, in turn, overwrites its habit's value. */
  function ApplyPairs(values: map<string, int>, pairs: seq<(string, int)>, habitList: seq<string>): (after: map<string, int>)
    ensures values.Keys <= after.Keys
    ensures forall habit | habit in after && (habit !in values || after[habit] != values[habit]) ::
      habit in habitList && 0 <= after[habit] <= 10
    decreases |pairs|
  {
    if pairs == [] then values
    else
      var (habit, value) := pairs[|pairs| - 1];
      var before := ApplyPairs(values, pairs[..|pairs| - 1], habitList);
      if Accepts(habitList, habit, value) then before[habit := value] else before
  }

  /** Accepted values are in range, so a week in range stays in range. */
  lemma {:induction false} ApplyInRange(values: map<string, int>, pairs: seq<(string, int)>, habitList: seq<string>)
    requires ValuesInRange(values)
    ensures ValuesInRange(ApplyPairs(values, pairs, habitList))
    decreases |pairs|
  {
    if pairs != [] {
      ApplyInRange(values, pairs[..|pairs| - 1], habitList);
    }
  }

  /**
   * The week then holds the habits it held before plus the accepted ones;
   * a habit with no accepted pair keeps its previous value.
   */
  lemma {:induction false} ApplyKeepsOthers(values: map<string, int>, pairs: seq<(string, int)>, habitList: seq<string>)
    ensures var after := ApplyPairs(values, pairs, habitList);
      && (forall habit :: habit in after <==>
            habit in values || exists k | 0 <= k < |pairs| :: pairs[k].0 == habit && Accepts(habitList, habit, pairs[k].1))
      && (forall habit | habit in values && (forall k | 0 <= k < |pairs| :: pairs[k].0 != habit || !Accepts(habitList, habit, pairs[k].1)) ::
            after[habit] == values[habit])
    decreases |pairs|
  {
    if pairs != [] {
      var init := pairs[..|pairs| - 1];
      ApplyKeepsOthers(values, init, habitList);
      forall k | 0 <= k < |init| ensures init[k] == pairs[k] {
      }
    }
  }

  /** The last accepted pair for a habit decides its stored value. */
  lemma {:induction false} ApplyLastAcceptedWins(values: map<string, int>, pairs: seq<(string, int)>, habitList: seq<string>, k: nat)
    requires k < |pairs| && Accepts(habitList, pairs[k].0, pairs[k].1)
    requires forall j | k < j < |pairs| :: pairs[j].0 != pairs[k].0 || !Accepts(habitList, pairs[j].0, pairs[j].1)
    ensures pairs[k].0 in ApplyPairs(values, pairs, habitList)
    ensures ApplyPairs(values, pairs, habitList)[pairs[k].0] == pairs[k].1
    decreases |pairs|
  {
    var init := pairs[..|pairs| - 1];
    if k < |pairs| - 1 {
      forall j | k < j < |init| ensures init[j].0 != init[k].0 || !Accepts(habitList, init[j].0, init[j].1) {
        assert init[j] == pairs[j];
      }
      ApplyLastAcceptedWins(values, init, habitList, k);
    }
  }

  /** When no pair is accepted, the week is left exactly as it was. */
  lemma {:induction false} ApplyAllRejected(values: map<string, int>, pairs: seq<(string, int)>, habitList: seq<string>)
    requires forall k | 0 <= k < |pairs| :: !Accepts(habitList, pairs[k].0, pairs[k].1)
    ensures ApplyPairs(values, pairs, habitList) == values
    decreases |pairs|
  {
    if pairs != [] {
      var init := pairs[..|pairs| - 1];
      forall k | 0 <= k < |init| ensures !Accepts(habitList, init[k].0, init[k].1) {
        assert init[k] == pairs[k];
      }
      ApplyAllRejected(values, init, habitList);
    }
  }

  /** Taking one habit out of a week leaves one value fewer. */
  lemma RemoveOne(values: map<string, int>, habit: string)
    requires habit in values
    ensures |values - {habit}| == |values| - 1
  {
    assert values.Keys == (values - {habit}).Keys + {habit};
  }

  /**
   * The sum of a week's values (specification only). A week of n values in
   * [0, 10] sums to between 0 and 10n.
   */
  ghost function SumValues(values: map<string, int>): (total: int)
    ensures ValuesInRange(values) ==> 0 <= total <= 10 * |values|
    decreases |values|
  {
    if values == map[] then 0
    else
      var habit := Pick(values.Keys);
      RemoveOne(values, habit);
      values[habit] + SumValues(values - {habit})
  }

  /** The sum does not depend on the order: any habit's value plus the sum of the others. */
  lemma {:induction false} SumValuesRemove(values: map<string, int>, habit: string)
    requires habit in values
    ensures SumValues(values) == values[habit] + SumValues(values - {habit})
    decreases |values|
  {
    var first := Pick(values.Keys);
    if first != habit {
      var rest := values - {first};
      var other := values - {habit};
      RemoveOne(values, first);
      RemoveOne(values, habit);
      SumValuesRemove(rest, habit);
      SumValuesRemove(other, first);
      assert rest - {habit} == other - {first};
    }
  }

  /** The result of `calculate_weekly_average`. */
  datatype WeekAverage =
    | NoData                 // no dictionary for the week: the source returns None
    | ZeroDivision           // an empty dictionary: the source's division by zero
    | Average(value: real)

  class HabitTrackerWeekly {
    /** Per week number, the value recorded for each habit. */
    var weeklyEntries: map<int, map<string, int>>
    /** The user's weekly habits, in the order they were added. */
    var habitList: seq<string>

    /** What the operations preserve: no habit listed twice, every stored value in [0, 10]. */
    ghost predicate Valid()
      reads this
    {
      NoDuplicates(habitList) && EntriesInRange(weeklyEntries)
    }

    constructor ()
      ensures weeklyEntries == map[] && habitList == []
      ensures Valid()
    {
      weeklyEntries := map[];
      habitList := [];
    }

    /** Appends a new habit name; a name already listed changes nothing. */
    method AddHabit(habitName: string)
      modifies this
      ensures habitName in old(habitList) ==> habitList == old(habitList)
      ensures habitName !in old(habitList) ==> habitList == old(habitList) + [habitName]
      ensures weeklyEntries == old(weeklyEntries)
      ensures old(Valid()) ==> Valid()
    {
      if habitName !in habitList {
        habitList := habitList + [habitName];
      }
    }

    /**
     * Removes a listed habit name; an unlisted one changes nothing. The
     * values already recorded for it stay in the weekly entries.
     */
    method RemoveHabit(habitName: string)
      modifies this
      ensures habitList == RemoveFirst(old(habitList), habitName)
      ensures weeklyEntries == old(weeklyEntries)
      ensures old(Valid()) ==> Valid() && habitName !in habitList
    {
      if old(Valid()) {
        RemoveFirstNoDuplicates(habitList, habitName);
      }
      if habitName in habitList {
        habitList := RemoveFirst(habitList, habitName);
      }
    }

    /**
     * Opens the week if it is new, then records each supplied (habit, value)
     * pair that names a listed habit and a value in [0, 10]; other pairs are
     * skipped. Only this week changes.
     */
    method AddWeeklyEntry(weekNumber: int, values: seq<(string, int)>)
      modifies this
      ensures weekNumber in weeklyEntries
      ensures weeklyEntries
        == old(weeklyEntries)[weekNumber := ApplyPairs(StartOf(old(weeklyEntries), weekNumber), values, habitList)]
      ensures habitList == old(habitList)
      ensures old(Valid()) ==> Valid()
    {
      ghost var start := StartOf(weeklyEntries, weekNumber);
      if weekNumber !in weeklyEntries {
        weeklyEntries := weeklyEntries[weekNumber := map[]];
      }
      var i := 0;
      while i < |values|
        invariant 0 <= i <= |values|
        invariant habitList == old(habitList)
        invariant weeklyEntries == old(weeklyEntries)[weekNumber := ApplyPairs(start, values[..i], habitList)]
      {
        var (habit, value) := values[i];
        assert values[..i + 1][..i] == values[..i];
        if habit !in habitList {
        } else if !(0 <= value <= 10) {
        } else {
          weeklyEntries := weeklyEntries[weekNumber := weeklyEntries[weekNumber][habit := value]];
        }
        i := i + 1;
      }
      assert values[..i] == values;
      if old(Valid()) {
        ApplyInRange(start, values, habitList);
      }
    }

    /**
     * The mean of the week's recorded values; NoData for a week never
     * opened, ZeroDivision for a week opened with nothing accepted.
     */
    ghost function CalculateWeeklyAverage(weekNumber: int): (r: WeekAverage)
      reads this
      ensures r.NoData? <==> weekNumber !in weeklyEntries
      ensures r.ZeroDivision? <==> weekNumber in weeklyEntries && weeklyEntries[weekNumber] == map[]
      ensures r.Average? ==>
        r.value * |weeklyEntries[weekNumber]| as real == SumValues(weeklyEntries[weekNumber]) as real
      ensures r.Average? && ValuesInRange(weeklyEntries[weekNumber]) ==> 0.0 <= r.value <= 10.0
    {
      if weekNumber !in weeklyEntries then NoData
      else
        var habits := weeklyEntries[weekNumber];
        if habits == map[] then ZeroDivision
        else
          AverageBounds(habits);
          Average(SumValues(habits) as real / |habits| as real)
    }
  }

  /** A non-empty week in range averages to between 0 and 10. */
  lemma AverageBounds(values: map<string, int>)
    requires values != map[]
    ensures ValuesInRange(values) ==>
      0.0 <= SumValues(values) as real / |values| as real <= 10.0
  {
    if ValuesInRange(values) {
      var n := |values| as real;
      assert n > 0.0 by {
        var habit := Pick(values.Keys);
      }
      QuotientInRange(SumValues(values) as real, n);
    }
  }

  lemma QuotientInRange(s: real, n: real)
    requires n > 0.0 && 0.0 <= s <= 10.0 * n
    ensures 0.0 <= s / n <= 10.0
  {
    assert s / n * n == s;
  }
}
