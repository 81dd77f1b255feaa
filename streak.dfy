/**
 * The current streak: how many of the store's dates, taken latest first,
 * are today, the day before, the day before that, and so on.
 */
module Streak {
  import opened Dates
  import opened Entries

  /**
   * The length of the longest prefix of `dates` that reads
   * today, today - 1, today - 2, …
   */
  function MatchedPrefix(dates: seq<int>, today: int): (n: nat)
    ensures n <= |dates|
    ensures forall k | 0 <= k < n :: dates[k] == today - k
    ensures n < |dates| ==> dates[n] != today - n
    decreases |dates|
  {
    if dates != [] && dates[0] == today then 1 + MatchedPrefix(dates[1..], today - 1) else 0
  }

  /** A matched prefix that ends at a mismatch or at the end is the longest one. */
  lemma MatchedPrefixIs(dates: seq<int>, today: int, n: nat)
    requires n <= |dates|
    requires forall k | 0 <= k < n :: dates[k] == today - k
    requires n < |dates| ==> dates[n] != today - n
    ensures MatchedPrefix(dates, today) == n
  {
  }

  /** The days of a matched prefix are the days today, today - 1, … it counts. */
  lemma PrefixDaysListed(dates: seq<int>, today: int)
    ensures forall d | today - MatchedPrefix(dates, today) < d <= today :: d in dates
  {
    var n := MatchedPrefix(dates, today);
    forall d | today - n < d <= today ensures d in dates {
      assert dates[today - d] == d;
    }
  }

  /**
   * What `calculate_streak` returns for this store on this day: at most one
   * per record, and every day it counts back from today has a record.
   */
  function CurrentStreak(entries: map<int, Record>, today: int): (streak: nat)
    ensures streak <= |entries|
    ensures forall d | today - streak < d <= today :: d in entries
  {
    var dates := DatesDescending(entries.Keys);
    PrefixDaysListed(dates, today);
    MatchedPrefix(dates, today)
  }

  /**
   * The streak as a walk back from today: count the days today, today - 1, …
   * that have a record, stopping at the first one without.
   */
  function ConsecutiveDays(days: set<int>, today: int): nat
    decreases |days|
  {
    if today in days then 1 + ConsecutiveDays(days - {today}, today - 1) else 0
  }

  /** Dropping the latest date of a descending list drops exactly that day from its set. */
  lemma TailDays(dates: seq<int>)
    requires dates != [] && StrictlyDescending(dates)
    ensures (set d | d in dates[1..]) == (set d | d in dates) - {dates[0]}
    ensures forall k | 0 <= k < |dates[1..]| :: dates[1..][k] < dates[0]
  {
    var rest := dates[1..];
    forall d | d in dates && d != dates[0] ensures d in rest {
      var k :| 0 <= k < |dates| && dates[k] == d;
      assert rest[k - 1] == d;
    }
    forall k | 0 <= k < |rest| ensures rest[k] < dates[0] {
      assert rest[k] == dates[k + 1];
    }
  }

  lemma {:induction false} PrefixIsConsecutiveDays(dates: seq<int>, today: int)
    requires StrictlyDescending(dates)
    requires forall k | 0 <= k < |dates| :: dates[k] <= today
    ensures MatchedPrefix(dates, today) == ConsecutiveDays((set d | d in dates), today)
    decreases |dates|
  {
    var days := set d | d in dates;
    if dates == [] {
      assert days == {};
    } else if dates[0] == today {
      var rest := dates[1..];
      TailDays(dates);
      assert StrictlyDescending(rest) by {
        forall i, j | 0 <= i < j < |rest| ensures rest[i] > rest[j] {
          assert rest[i] == dates[i + 1] && rest[j] == dates[j + 1];
        }
      }
      PrefixIsConsecutiveDays(rest, today - 1);
    } else {
      assert today !in days by {
        forall d | d in days ensures d < today {
          var k :| 0 <= k < |dates| && dates[k] == d;
          assert k == 0 || dates[0] > dates[k];
        }
      }
    }
  }

  /**
   * When no date lies after today, the streak is exactly the number of
   * consecutive recorded days ending today.
   */
  lemma StreakIsConsecutiveDays(entries: map<int, Record>, today: int)
    requires forall d | d in entries :: d <= today
    ensures CurrentStreak(entries, today) == ConsecutiveDays(entries.Keys, today)
  {
    var dates := DatesDescending(entries.Keys);
    assert (set d | d in dates) == entries.Keys;
    forall k | 0 <= k < |dates| ensures dates[k] <= today {
      assert dates[k] in entries;
    }
    PrefixIsConsecutiveDays(dates, today);
  }

  /** The streak never exceeds the number of records, and is 0 without a record for today. */
  lemma StreakBounds(entries: map<int, Record>, today: int)
    ensures CurrentStreak(entries, today) <= |entries|
    ensures today !in entries ==> CurrentStreak(entries, today) == 0
  {
    var dates := DatesDescending(entries.Keys);
    if CurrentStreak(entries, today) > 0 {
      assert dates[0] == today;
    }
  }

  lemma {:induction false} ConsecutiveRun(days: set<int>, today: int, n: nat)
    requires forall d | today - n < d <= today :: d in days
    requires today - n !in days
    ensures ConsecutiveDays(days, today) == n
    decreases n
  {
    if n > 0 {
      ConsecutiveRun(days - {today}, today - 1, n - 1);
    }
  }

  /**
   * Records for today and the n - 1 days before it, none for the day before
   * those and none after today: the streak is n.
   */
  lemma StreakOfRun(entries: map<int, Record>, today: int, n: nat)
    requires forall d | today - n < d <= today :: d in entries
    requires today - n !in entries
    requires forall d | d in entries :: d <= today
    ensures CurrentStreak(entries, today) == n
  {
    StreakIsConsecutiveDays(entries, today);
    ConsecutiveRun(entries.Keys, today, n);
  }

  /** Today and the four days before it recorded: a streak of 5. */
  lemma FiveDayStreak(entries: map<int, Record>, today: int)
    requires entries.Keys == {today, today - 1, today - 2, today - 3, today - 4}
    ensures CurrentStreak(entries, today) == 5
  {
    StreakOfRun(entries, today, 5);
  }

  /**
   * A record dated after today hides today's run: the sorted walk starts at
   * the later date, which is not today, so the streak is 0 although today is
   * recorded.
   */
  lemma LaterDateHidesStreak(today: int, r: Record)
    ensures CurrentStreak(map[today := r, today + 1 := r], today) == 0
    ensures ConsecutiveDays({today, today + 1}, today) == 1
  {
    var entries := map[today := r, today + 1 := r];
    var dates := DatesDescending(entries.Keys);
    assert today + 1 in dates;
    assert {today, today + 1} - {today} == {today + 1};
    assert ({today + 1} - {today - 1}) == {today + 1};
  }
}
