/**
 * The daily habit tracker: a store of one record per day, the rewards
 * granted so far, and the operations that validate and write records,
 * compute the streak, grant rewards and compute statistics.
 */
module DailyTracker {
  import opened Wrappers
  import opened Dates
  import opened Entries
  import opened Aggregates
  import opened Streak
  import opened Rewards
  import opened StatisticsEngine

  class HabitTrackerDaily {
    /** One record per day, keyed by day number. */
    var entries: map<int, Record>
    /** The rewards granted so far, in the order they were granted. */
    var previousSuccesses: seq<Success>
    /** The milestone table, fixed when the tracker is created. */
    const rewardMessages: seq<Milestone>

    /**
     * What the operations preserve: every stored score obeys the range rule
     * and no reward threshold is granted twice.
     */
    ghost predicate Valid()
      reads this
    {
      StoreInRange(entries) && UniqueStreaks(previousSuccesses) && rewardMessages == RewardTable
    }

    constructor ()
      ensures entries == map[] && previousSuccesses == [] && rewardMessages == RewardTable
      ensures Valid()
    {
      entries := map[];
      previousSuccesses := [];
      rewardMessages := RewardTable;
    }

    /**
     * Adds today's record. Fails, changing nothing, when today already has a
     * record or a score lies outside [0, 10], reporting every violated
     * condition at once; on success writes the record and checks rewards.
     */
    method AddEntry(today: int, food: int, sport: int, sleep: int, fun: int, rest: int)
      returns (errors: seq<EntryError>)
      modifies this
      ensures errors == Violations(DuplicateEntry, today in old(entries), Record(food, sport, sleep, fun, rest))
      ensures errors != [] ==> entries == old(entries) && previousSuccesses == old(previousSuccesses)
      ensures errors == [] ==> entries == old(entries)[today := Record(food, sport, sleep, fun, rest)]
      ensures errors == [] ==>
        previousSuccesses == AfterCheck(rewardMessages, old(previousSuccesses), CurrentStreak(entries, today), today)
      ensures old(Valid()) ==> Valid()
    {
      var record := Record(food, sport, sleep, fun, rest);
      errors := [];
      if today in entries {
        errors := errors + [DuplicateEntry];
      }
      if !InRange(record) {
        errors := errors + [OutOfRange];
      }
      if errors != [] {
        return;
      }
      entries := entries[today := record];
      CheckRewards(today);
    }

    /**
     * Replaces today's record. Fails, changing nothing, when today has no
     * record or a score lies outside [0, 10], reporting every violated
     * condition at once; on success only today's record changes.
     */
    method UpdateEntry(today: int, food: int, sport: int, sleep: int, fun: int, rest: int)
      returns (errors: seq<EntryError>)
      modifies this
      ensures errors == Violations(NoEntry, today !in old(entries), Record(food, sport, sleep, fun, rest))
      ensures errors != [] ==> entries == old(entries)
      ensures errors == [] ==> entries == old(entries)[today := Record(food, sport, sleep, fun, rest)]
      ensures errors == [] ==> entries.Keys == old(entries).Keys
      ensures previousSuccesses == old(previousSuccesses)
      ensures old(Valid()) ==> Valid()
    {
      var record := Record(food, sport, sleep, fun, rest);
      errors := [];
      if today !in entries {
        errors := errors + [NoEntry];
      }
      if !InRange(record) {
        errors := errors + [OutOfRange];
      }
      if errors != [] {
        return;
      }
      entries := entries[today := record];
    }

    /**
     * Writes a sample record for each of the 28 days ending `today`,
     * overwriting what those days held; the samples stand for the source's
     * random scores in [0, 10]. No reward check runs.
     */
    method AddDemoData(today: int, samples: seq<Record>)
      requires |samples| == 28 && forall k | 0 <= k < 28 :: InRange(samples[k])
      modifies this
      ensures forall d :: d in entries <==> d in old(entries) || today - 28 < d <= today
      ensures forall k | 0 <= k < 28 :: entries[today - k] == samples[k]
      ensures forall d | d in old(entries) && !(today - 28 < d <= today) :: entries[d] == old(entries)[d]
      ensures previousSuccesses == old(previousSuccesses)
      ensures old(Valid()) ==> Valid()
    {
      for i := 0 to 28
        invariant forall d :: d in entries <==> d in old(entries) || today - i < d <= today
        invariant forall k | 0 <= k < i :: entries[today - k] == samples[k]
        invariant forall d | d in old(entries) && !(today - i < d <= today) :: entries[d] == old(entries)[d]
        invariant previousSuccesses == old(previousSuccesses)
        invariant old(StoreInRange(entries)) ==> StoreInRange(entries)
      {
        entries := entries[today - i := samples[i]];
      }
    }

    /**
     * Walks the dates latest first and counts how many read today,
     * today - 1, …, stopping at the first that does not.
     */
    method CalculateStreak(today: int) returns (streak: nat)
      ensures streak == CurrentStreak(entries, today)
    {
      var sortedDates := SortDescending(entries.Keys);
      streak := 0;
      var i := 0;
      while i < |sortedDates|
        invariant 0 <= i <= |sortedDates|
        invariant streak == i
        invariant forall k | 0 <= k < i :: sortedDates[k] == today - k
      {
        if sortedDates[i] == today - i {
          streak := streak + 1;
        } else {
          break;
        }
        i := i + 1;
      }
      MatchedPrefixIs(sortedDates, today, streak);
      SortedIsDatesDescending(sortedDates, entries.Keys);
    }

    /** The day's self-care score, or None when the day has no record. */
    function CalculateSelfcare(date: int): (r: Option<real>)
      reads this
      ensures r.None? <==> date !in entries
      ensures r.Some? ==> 5.0 * r.value == Total(entries[date]) as real
      ensures r.Some? ==> Lowest(entries[date]) as real <= r.value <= Highest(entries[date]) as real
      ensures r.Some? && StoreInRange(entries) ==> 0.0 <= r.value <= 10.0
    {
      if date !in entries then None else Some(Selfcare(entries[date]))
    }

    /**
     * Grants, dated today, every table milestone the current streak reaches
     * whose threshold was not granted before.
     */
    method CheckRewards(today: int)
      modifies this
      ensures entries == old(entries)
      ensures previousSuccesses == AfterCheck(rewardMessages, old(previousSuccesses), CurrentStreak(entries, today), today)
      ensures old(UniqueStreaks(previousSuccesses)) ==> UniqueStreaks(previousSuccesses)
    {
      var streak := CalculateStreak(today);
      var milestones := Reached(rewardMessages, streak);
      var i := 0;
      while i < |milestones|
        invariant 0 <= i <= |milestones|
        invariant entries == old(entries)
        invariant Granted(previousSuccesses, milestones[i..], today)
          == Granted(old(previousSuccesses), milestones, today)
      {
        var milestone := milestones[i];
        GrantedStep(previousSuccesses, milestones, i, today);
        ghost var before := previousSuccesses;
        if milestone.threshold !in Thresholds(previousSuccesses) {
          previousSuccesses := previousSuccesses + [Success(milestone.threshold, milestone.message, today)];
        }
        assert previousSuccesses == Grant(before, milestone, today);
        i := i + 1;
      }
      if UniqueStreaks(old(previousSuccesses)) {
        GrantedUnique(old(previousSuccesses), milestones, today);
      }
    }

    /**
     * The average, best and worst of each habit and of the self-care score
     * over all days, or None for an empty store.
     */
    method CalculateStatistics() returns (stats: Option<Statistics>)
      ensures stats == StatisticsOf(entries)
    {
      if entries == map[] {
        return None;
      }
      var dates := SortDescending(entries.Keys);
      RecordedWhenContained(entries, dates);
      var allValues: map<Habit, seq<real>> := map h | h in Habits :: [];
      var allSelfcare: seq<real> := [];
      var i := 0;
      while i < |dates|
        invariant 0 <= i <= |dates|
        invariant Recorded(entries, dates[..i])
        invariant allValues == CollectedColumns(entries, dates[..i])
        invariant allSelfcare == SelfcareColumn(entries, dates[..i])
      {
        var date := dates[i];
        var habits := entries[date];
        CollectedStep(entries, dates, i);
        ghost var before := allValues;
        allValues := map h | h in allValues :: allValues[h] + [Score(habits, h) as real];
        allSelfcare := allSelfcare + [CalculateSelfcare(date).value];
        assert allValues == AppendScores(before, habits);
        i := i + 1;
      }
      assert dates[..i] == dates;
      StatisticsFromColumns(entries, dates);
      stats := Some(Tabulate(allValues, allSelfcare));
    }

    /**
     * Groups the days by their ISO week and maps each week to the mean
     * self-care score of its days.
     */
    method CalculateWeeklySelfcare(weekOf: int -> IsoWeek) returns (weeklyAverages: map<IsoWeek, real>)
      ensures weeklyAverages == WeeklyAverages(entries, weekOf)
    {
      var weeklySelfcare: map<IsoWeek, seq<real>> := map[];
      var dates := SortDescending(entries.Keys);
      RecordedWhenContained(entries, dates);
      var i := 0;
      while i < |dates|
        invariant 0 <= i <= |dates|
        invariant Recorded(entries, dates[..i])
        invariant weeklySelfcare == WeeklyGroups(entries, dates[..i], weekOf)
      {
        var date := dates[i];
        var weekKey := weekOf(date);
        WeeklyGroupsStep(entries, dates, i, weekOf);
        ghost var before := weeklySelfcare;
        if weekKey !in weeklySelfcare {
          weeklySelfcare := weeklySelfcare[weekKey := []];
        }
        weeklySelfcare := weeklySelfcare[weekKey := weeklySelfcare[weekKey] + [CalculateSelfcare(date).value]];
        assert weeklySelfcare == AddToGroup(before, weekKey, Selfcare(entries[date]));
        assert weeklySelfcare == WeeklyGroups(entries, dates[..i + 1], weekOf);
        i := i + 1;
      }
      assert dates[..i] == dates;
      WeeklyAveragesOfGroups(entries, weekOf, dates);
      weeklyAverages := map w | w in weeklySelfcare :: Mean(weeklySelfcare[w]);
    }
  }
}
