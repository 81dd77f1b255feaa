# Habit tracker, modelled in Dafny

This project models the two tracker classes of a small personal habit
tracker.

- **The daily tracker** (`HabitTrackerDaily`) keeps one record of five
  scores per day: food, sport, sleep, fun and rest, each in [0, 10].
  - It validates new and updated records and reports every violated
    condition at once.
  - It computes the current streak of consecutive recorded days ending
    today.
  - It grants each reward of a fixed milestone table once, when the streak
    reaches its threshold.
  - It computes each day's self-care score (the mean of the five scores),
    the average, best and worst of every habit and of the self-care score,
    and the mean self-care score of every ISO week.
- **The weekly tracker** (`HabitTrackerWeekly`) keeps a list of
  user-defined habit names without duplicates. Per week number it stores a
  value only for each supplied pair that names a listed habit and carries a
  value in [0, 10]. Values of a habit removed later stay stored. It averages
  a week's values.

Modules:

- `Wrappers`: `Option`.
- `Dates`: days as integer day numbers and the descending order of a
  store's days. ISO `YYYY-MM-DD` keys sort as text exactly as their dates
  sort in time, so sorting day numbers is the source's sort of keys.
- `Entries`: the record, the range rule, the error kinds and their texts,
  and the self-care score.
- `Aggregates`: sum, mean, largest and smallest value of a list of reals,
  and the average/best/worst triple.
- `Streak`: the streak as the source computes it (the matched prefix of
  the descending dates) and as a walk back from today.
- `Rewards`: the milestone table and the granting loop.
- `StatisticsEngine`: the statistics and the weekly self-care grouping, as
  reference functions with the lemmas about them.
- `DailyTracker`: the class `HabitTrackerDaily`. Its methods keep the
  source's loops, each proved against the reference functions.
- `WeeklyTracker`: the class `HabitTrackerWeekly`.

In two places the code does something other than what its own docstrings
and names suggest. The model follows the code.

- The docstring of `calculate_streak` (habit_tracker.py:85) speaks of
  consecutive days with entries. The code computes something else. The streak is the length of the longest prefix of the dates, sorted
  latest first, that reads today, today - 1, today - 2 and so on. A record
  dated after today therefore makes the streak 0, even when today and the
  days before it are recorded. A walk back from today would count those
  days. `Streak.LaterDateHidesStreak` shows the difference.
  `Streak.StreakIsConsecutiveDays` proves that the two agree when no date
  lies after today.
- `calculate_weekly_average` divides by zero for a week that exists but
  holds no value. Such a week arises from `add_weekly_entry` when every
  supplied pair is rejected. The model returns `ZeroDivision` for it.

## Model

| member | source | states |
|---|---|---|
| DailyTracker.HabitTrackerDaily.constructor | habit_tracker.py:27-40 | A new tracker has no entries and no rewards, and its reward table is the eight-milestone table. |
| Rewards.RewardTable | habit_tracker.py:30-39 | The eight milestones: thresholds 7, 14, 21, 30, 60, 90, 180 and 365 days, each with its own message. |
| Rewards.RewardTableAscending | habit_tracker.py:30-39 | The table's thresholds 7, 14, 21, 30, 60, 90, 180, 365 strictly increase in table order. |
| DailyTracker.HabitTrackerDaily.AddEntry | habit_tracker.py:42-61 | The errors are exactly the violated conditions: the duplicate day first, then the range rule. On any error nothing changes. Otherwise today's record is the given scores, every other day is unchanged, and the rewards are then checked. Store validity is preserved. |
| DailyTracker.HabitTrackerDaily.UpdateEntry | habit_tracker.py:63-81 | The errors are exactly the violated conditions: no record for today, then the range rule. On any error nothing changes. Otherwise only today's record is replaced, the key set is unchanged and no reward is granted. |
| Entries.Violations | habit_tracker.py:45-57 | The error list is empty iff the key condition holds and every score is in range. It holds the key error iff the key condition fails, and the range error iff some score is out of range. When both fail it lists the key error first. |
| Entries.Message | habit_tracker.py:49-74 | Each of the three error messages (lines 49, 53 and 70, repeated at 74) is non-empty and ends with a full stop. |
| Entries.ErrorText | habit_tracker.py:57 | The joined text is empty iff there is no error. A single error gives exactly its message. Otherwise the text starts with the first error's message. The update path joins the same way at line 78. |
| Entries.BothAddErrorsReported | habit_tracker.py:48-57 | A duplicate day with an out-of-range score raises both messages, the duplicate one first, joined by " \| ". |
| Entries.InRangeEveryHabit | habit_tracker.py:52 | The range rule holds iff every habit's score lies in [0, 10]. |
| Entries.Selfcare | habit_tracker.py:101-102 | Five times the self-care score is the sum of the five scores. The score lies between the lowest and the highest score, so it lies in [0, 10] for an in-range record. |
| Entries.SelfcareExample | unit_testing.py:51-55 | Scores 8, 9, 7, 6, 10 give a self-care score of 8.0. |
| DailyTracker.HabitTrackerDaily.CalculateSelfcare | habit_tracker.py:97-102 | None iff the day has no record. Otherwise five times the value is the record's total, the value lies between its lowest and highest score, and it lies in [0, 10] in a valid store. |
| DailyTracker.HabitTrackerDaily.AddDemoData | habit_tracker.py:156-167 | Each of the 28 days ending today gets its sample record, overwriting what it held. Every other day is unchanged, no reward is granted, and store validity is preserved. |
| Dates.DatesDescending | habit_tracker.py:86 | The result is strictly descending and holds every day of the set, once each. |
| Dates.DescendingUnique | habit_tracker.py:86 | Two strictly descending lists holding the same days are equal, so the sorted order is unique. |
| Dates.SortedIsDatesDescending | habit_tracker.py:86 | Any strictly descending list of exactly the store's days is the one the reference order gives. |
| Dates.SortDescending | habit_tracker.py:86 | The sorted days are strictly descending and hold every day of the store, once each. |
| Streak.MatchedPrefix | habit_tracker.py:89-95 | The result n is at most the number of dates. The first n dates are today, today - 1, … in order, and the next date, if any, breaks the run. |
| Streak.MatchedPrefixIs | habit_tracker.py:89-95 | A matched prefix that ends at a mismatch or at the end of the dates is the one the loop counts. |
| Streak.PrefixDaysListed | habit_tracker.py:89-95 | Every day in the matched run, from today back, is one of the dates. |
| Streak.CurrentStreak | habit_tracker.py:84-95 | The streak is at most the number of records, and every day of the run ending today has a record. |
| DailyTracker.HabitTrackerDaily.CalculateStreak | habit_tracker.py:84-95 | The loop returns the current streak: the length of the matched prefix of the descending dates. |
| Streak.PrefixIsConsecutiveDays | habit_tracker.py:86-95 | For descending dates none of which is after today, the matched prefix equals the number of consecutive days ending today that are in the set. |
| Streak.StreakIsConsecutiveDays | habit_tracker.py:84-95 | When no record lies after today, the streak is the number of consecutive recorded days ending today. |
| Streak.StreakBounds | habit_tracker.py:84-95 | The streak is at most the number of records, and it is 0 when today has no record. |
| Streak.ConsecutiveRun | habit_tracker.py:89-94 | A set holding today and the n - 1 days before it, but not the day before those, has a run of exactly n days. |
| Streak.StreakOfRun | habit_tracker.py:84-95 | Records for the n days ending today, none for the day before them and none after today, give a streak of n. |
| Streak.FiveDayStreak | unit_testing.py:38-49 | Records for today and the four days before it give a streak of 5. |
| Streak.LaterDateHidesStreak | habit_tracker.py:86-94 | A record dated tomorrow makes the streak 0 although today is recorded. A walk back from today would count 1. |
| Rewards.Reached | habit_tracker.py:130 | A milestone is reached iff it is in the table and its threshold is at most the streak. |
| Rewards.ReachedPrefix | habit_tracker.py:130 | In an ascending table the reached milestones are the table's first k entries, where k counts the thresholds up to the streak. |
| Rewards.Grant | habit_tracker.py:132-138 | One step only appends, and at most one record. It appends nothing iff the milestone's threshold was already granted. |
| Rewards.GrantThresholds | habit_tracker.py:132-138 | One step adds the milestone's threshold to the granted thresholds, and no other threshold. |
| Rewards.Granted | habit_tracker.py:131-138 | The granting loop only appends, at most one record per walked milestone. |
| Rewards.AfterCheck | habit_tracker.py:127-138 | The check only appends, and afterwards every table threshold up to the streak is granted. |
| Rewards.GrantedStep | habit_tracker.py:131-138 | Resuming the granting loop at position i grants milestone i, then continues with the rest. |
| Rewards.GrantedAppends | habit_tracker.py:131-138 | Granting only appends. Each new record carries a walked milestone's threshold and message, today's date, and a threshold not granted before. |
| Rewards.GrantedThresholds | habit_tracker.py:131-138 | After granting, the granted thresholds are the earlier ones plus every walked milestone's threshold. |
| Rewards.GrantedUnique | habit_tracker.py:132 | If no threshold was granted twice before, none is after. |
| Rewards.GrantedNothingNew | habit_tracker.py:132 | When every walked threshold was already granted, nothing is appended. |
| Rewards.GrantedIdempotent | habit_tracker.py:127-138 | Granting the same milestones again, on any later day, appends nothing. |
| Rewards.CheckGrantsReachedOnce | habit_tracker.py:127-138 | After the check, every table threshold up to the streak is granted, once only if none was granted twice before. Earlier records are an unchanged prefix. Each new record is a table milestone up to the streak, dated today. A second check with the same streak changes nothing. |
| DailyTracker.HabitTrackerDaily.CheckRewards | habit_tracker.py:127-139 | The loop leaves exactly the records the granting specification gives for the current streak and the entries unchanged, and it keeps thresholds unique. |
| Rewards.GrantedAllFresh | habit_tracker.py:131-138 | Milestones with distinct thresholds, none granted before, are all granted in order, each with today's date. |
| Rewards.FreshCheck | habit_tracker.py:127-138 | With no rewards yet, a streak reaching the first k thresholds of an ascending table grants exactly those k, in table order. |
| Rewards.OneWeekReward | habit_tracker.py:31 | A seven-day streak with no rewards yet grants exactly the one-week message, dated today. |
| Rewards.MonthGrantsFourRewards | habit_tracker.py:30-34 | A 30-day streak with no rewards yet grants the 7, 14, 21 and 30 day rewards, in that order. |
| Aggregates.SumBounds | habit_tracker.py:187 | A sum of n values in [lo, hi] lies in [n·lo, n·hi]. |
| Aggregates.MeanBounds | habit_tracker.py:187 | The mean of values in [lo, hi] lies in [lo, hi]. |
| Aggregates.Largest | habit_tracker.py:188 | The maximum occurs in the list and no value exceeds it. |
| Aggregates.Smallest | habit_tracker.py:189 | The minimum occurs in the list and no value is below it. |
| Aggregates.Summarize | habit_tracker.py:185-198 | Best and worst occur in the list and bound every value. The average lies between them and times the count is the sum. |
| StatisticsEngine.StatisticsOf | habit_tracker.py:172-173 | None iff the store is empty. |
| StatisticsEngine.Column | habit_tracker.py:179-181 | A habit's column holds one score per walked date. |
| StatisticsEngine.SelfcareColumn | habit_tracker.py:182 | The self-care column holds one score per walked date. |
| StatisticsEngine.Columns | habit_tracker.py:176-181 | Every habit has a column, with one score per walked date. |
| StatisticsEngine.ColumnSnoc | habit_tracker.py:179-181 | Walking one more date appends that day's score to the habit's column. |
| StatisticsEngine.SelfcareColumnSnoc | habit_tracker.py:182 | Walking one more date appends that day's self-care score to the self-care column. |
| StatisticsEngine.AllHabits | habit_tracker.py:176 | The statistics cover every one of the five habits. |
| StatisticsEngine.ColumnsSnoc | habit_tracker.py:179-181 | Walking one more date appends that day's score to every habit's column. |
| StatisticsEngine.ColumnsEmpty | habit_tracker.py:176 | Before the walk every habit has an empty column. |
| StatisticsEngine.CollectedStep | habit_tracker.py:179-182 | One step of the collecting loop appends the day's score to every habit's column and its self-care score to the self-care column. |
| StatisticsEngine.CollectedAreColumns | habit_tracker.py:176-182 | The collecting loop's columns are each habit's scores over the walked dates. |
| StatisticsEngine.Tabulate | habit_tracker.py:185-198 | Each habit's entry of the statistics summarizes that habit's column, and the self-care entry summarizes the self-care column. |
| StatisticsEngine.StatisticsFromColumns | habit_tracker.py:171-203 | For a non-empty store walked in descending order, every column is non-empty and the statistics are the summaries of the collected columns. |
| DailyTracker.HabitTrackerDaily.CalculateStatistics | habit_tracker.py:169-203 | The loop returns None for an empty store and otherwise the statistics of the store: one entry per habit plus self-care. |
| StatisticsEngine.HabitColumnBounds | habit_tracker.py:188-189 | A habit's best and worst bound that habit's score on every recorded day. |
| StatisticsEngine.HabitColumnWitnesses | habit_tracker.py:188-189 | A habit's best and worst are each the score of some recorded day. |
| StatisticsEngine.SelfcareColumnBounds | habit_tracker.py:194-198 | The self-care best and worst bound every day's self-care score. |
| StatisticsEngine.SelfcareColumnWitnesses | habit_tracker.py:194-198 | The self-care best and worst are each some recorded day's self-care score. |
| StatisticsEngine.HabitStatistics | habit_tracker.py:185-192 | For a non-empty store, each habit has worst ≤ average ≤ best. Best and worst bound every day's score and each occurs on some day. |
| StatisticsEngine.SelfcareStatistics | habit_tracker.py:194-198 | For a non-empty store, self-care has worst ≤ average ≤ best. Best and worst bound every day's self-care score and each occurs on some day. |
| StatisticsEngine.StatisticsInRange | habit_tracker.py:185-198 | On a store satisfying the range rule every best and worst lies in [0, 10]. |
| StatisticsEngine.WeekDates | habit_tracker.py:107-111 | A week's dates are exactly the walked dates that fall in that week. |
| StatisticsEngine.WeekDatesSnoc | habit_tracker.py:107-113 | Walking one more date adds it to its own week's dates only. |
| StatisticsEngine.WeekScores | habit_tracker.py:111-113 | A week that some walked date falls in has a non-empty group. |
| StatisticsEngine.WeekScoresSnoc | habit_tracker.py:111-113 | Walking one more date appends its self-care score to its own week's group only. |
| StatisticsEngine.WeekScoresAbsent | habit_tracker.py:111-112 | A week that no walked date falls in has no scores. |
| StatisticsEngine.GroupedEmpty | habit_tracker.py:106 | Before the walk there are no groups. |
| StatisticsEngine.WeeksOfSnoc | habit_tracker.py:107-112 | Walking one more date adds its week to the weeks seen. |
| StatisticsEngine.AddToGroupAppends | habit_tracker.py:111-113 | Opening a group if needed and appending extends that week's group by the score and leaves the others alone. |
| StatisticsEngine.WeeklyGroups | habit_tracker.py:106-113 | Every group the loop opens holds at least one score. |
| StatisticsEngine.WeeklyGroupsStep | habit_tracker.py:107-113 | One step of the grouping loop adds the day's self-care score to its week's group. |
| StatisticsEngine.GroupedSnoc | habit_tracker.py:107-113 | One more step of the grouping loop keeps the groups equal to the self-care scores of each week's walked dates. |
| StatisticsEngine.WeeklyGroupsGrouped | habit_tracker.py:106-113 | The grouping loop has one group per week seen, and each group holds the self-care scores of that week's dates. |
| StatisticsEngine.MeansOfGroups | habit_tracker.py:116 | Every group is non-empty, and the weekly means are the means of the groups. |
| StatisticsEngine.WeeksOfStore | habit_tracker.py:107-112 | The weeks the walk meets are exactly the weeks of the store's days. |
| StatisticsEngine.WeeklyAverages | habit_tracker.py:106-116 | The weeks with an average are exactly the weeks of the store's days. |
| StatisticsEngine.WeeklyAveragesOfGroups | habit_tracker.py:106-116 | Walking the store's dates latest first, every group is non-empty and the weekly averages are the means of the groups. |
| DailyTracker.HabitTrackerDaily.CalculateWeeklySelfcare | habit_tracker.py:104-116 | The loop returns the weekly averages of the store. |
| StatisticsEngine.WeekDatesDescending | habit_tracker.py:107-113 | A week's dates keep the descending order of the walk. |
| StatisticsEngine.WeekPresentIffRecorded | habit_tracker.py:106-116 | A week has an average iff some recorded day falls in it. |
| StatisticsEngine.WeekGroupIsItsDays | habit_tracker.py:107-113 | A week's dates in the walk are exactly that week's recorded days, latest first. |
| StatisticsEngine.WeekMeanOverItsDays | habit_tracker.py:106-116 | A week's average is the mean self-care score over exactly the recorded days of that week. |
| StatisticsEngine.WeekAverageValue | habit_tracker.py:116 | A week's average is the mean of its group of self-care scores. |
| StatisticsEngine.SelfcareColumnInRange | habit_tracker.py:113 | On a store satisfying the range rule, every self-care score lies in [0, 10]. |
| StatisticsEngine.EveryDayInOneWeek | habit_tracker.py:107-113 | Every recorded day lands in its own week's group and in no other. |
| StatisticsEngine.WeekScoresOfItsDates | habit_tracker.py:111-113 | A week the walk meets has a non-empty group: the self-care scores of its dates. |
| StatisticsEngine.WeekScoresInRange | habit_tracker.py:116 | On a store satisfying the range rule, the mean of a week's group lies in [0, 10]. |
| StatisticsEngine.WeekAverageInRange | habit_tracker.py:116 | On a store satisfying the range rule, a week's average lies in [0, 10]. |
| StatisticsEngine.WeeklyAveragesInRange | habit_tracker.py:116 | On a store satisfying the range rule, every weekly average lies in [0, 10]. |
| WeeklyTracker.HabitTrackerWeekly.constructor | optionals.py:15-19 | A new weekly tracker has no weeks and no habits. |
| WeeklyTracker.HabitTrackerWeekly.AddHabit | optionals.py:21-27 | A listed name leaves the list unchanged. A new name is appended at the end. The weeks are unchanged and the list stays free of duplicates. |
| WeeklyTracker.RemoveFirst | optionals.py:31-32 | An absent name leaves the list unchanged. A present one shortens it by one. Nothing new appears. |
| WeeklyTracker.IndexOf | optionals.py:32 | The position holds the name and no earlier position does. |
| WeeklyTracker.RemoveFirstKeepsOrder | optionals.py:31-32 | Removing a present name keeps the names before and after its first occurrence, in order. |
| WeeklyTracker.RemoveFirstNoDuplicates | optionals.py:29-35 | In a list without duplicates, removal leaves no duplicates, removes the name entirely and keeps every other name. |
| WeeklyTracker.HabitTrackerWeekly.RemoveHabit | optionals.py:29-35 | The list loses the name's first occurrence, if any. The weeks, including values recorded for the removed habit, are unchanged. A valid tracker stays valid and no longer lists the name. |
| WeeklyTracker.HabitTrackerWeekly.AddWeeklyEntry | optionals.py:37-48 | The week is a key afterwards, even when every pair was rejected. That week becomes its previous values with the accepted pairs applied in order. Other weeks and the list are unchanged, and stored values stay in [0, 10]. |
| WeeklyTracker.ApplyPairs | optionals.py:41-47 | Applying the pairs keeps every habit the week held. Every value it adds or changes belongs to a listed habit and lies in [0, 10]. |
| WeeklyTracker.ApplyInRange | optionals.py:41-47 | Only values in [0, 10] are stored, so a week in range stays in range. |
| WeeklyTracker.ApplyKeepsOthers | optionals.py:41-47 | The week then holds its earlier habits plus those with an accepted pair. A habit without an accepted pair, whether rejected or not supplied, keeps its previous value. |
| WeeklyTracker.ApplyLastAcceptedWins | optionals.py:41-47 | A habit's accepted value is stored unless a later accepted pair names the same habit. |
| WeeklyTracker.ApplyAllRejected | optionals.py:39-47 | When every pair is rejected the week's values stay as they were, so a new week stays empty. |
| WeeklyTracker.SumValues | optionals.py:74 | n values in [0, 10] sum to between 0 and 10n. |
| WeeklyTracker.SumValuesRemove | optionals.py:74 | The sum is any one habit's value plus the sum of the others, so it does not depend on the order the habits are taken in. |
| WeeklyTracker.HabitTrackerWeekly.CalculateWeeklyAverage | optionals.py:68-74 | NoData iff the week is absent. ZeroDivision iff the week exists but is empty. Otherwise the value times the count is the sum of the week's values, and it lies in [0, 10] when they do. |
| WeeklyTracker.AverageBounds | optionals.py:74 | The average of a non-empty week of values in [0, 10] lies in [0, 10]. |

## Left out

- File persistence: saving and loading both trackers is JSON file I/O, so it is not modelled. The two loads fail differently. The daily tracker's load resets to no entries and no rewards when the file is missing, empty, unreadable or not valid JSON (habit_tracker.py:237-251), which is the state its constructor gives. The weekly tracker's load catches only a missing file and then keeps its current state (optionals.py:94-95). A file that is not valid JSON raises an uncaught error (optionals.py:88-90).
- Display: plotting the self-care scores and the `show_*` methods only render or print. So does the message printed when a reward is granted. The weekly tracker's printed notices are dropped too.
- The pandas step of the weekly self-care method builds and sorts a data frame. It re-parses the week key with a Sunday-based week directive, which disagrees with the ISO week it was built from. The model returns the map of weekly averages instead.
- The clock and the calendar: today's date is the parameter `today`, dates are integer day numbers, and the ISO 8601 week of a day (section 4.1.4 of ISO 8601:2004) is the abstract parameter `weekOf`. The calendar conversion itself is not modelled.
- DailyTracker.HabitTrackerDaily.AddDemoData: the random scores are a parameter holding 28 in-range records, in place of the random number generator.
- Floating point: means are exact `real` values, not IEEE doubles, so rounding is not modelled.
- Dictionary insertion order: the statistics and the weekly grouping walk the days latest first, not in insertion order. Sums, maxima, minima and the set of weekly groups do not depend on that order, but the exact floating-point sum would.
- WeeklyTracker.HabitTrackerWeekly.CalculateWeeklyAverage: it is a ghost function, because summing the values of a map has no canonical order in Dafny. Its result is specified but not executable.
- DailyTracker.HabitTrackerDaily.AddEntry, DailyTracker.HabitTrackerDaily.UpdateEntry: the scores are integers. Non-integer scores that the source's range check accepts (habit_tracker.py:52, habit_tracker.py:73) are not modelled.
- WeeklyTracker.HabitTrackerWeekly.AddWeeklyEntry: keyword arguments become a sequence of (habit, value) pairs with integer values. Non-integer values are not modelled.
- statistics.py is a top-level script whose statistics function calls a method that does not exist. statistics.py is not part of this model.
- The unit tests and the stray test method in the daily tracker's file are not modelled. Their examples appear as lemmas.
