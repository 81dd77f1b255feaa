/**
 * Statistics over the daily store: per-habit and self-care average, best and
 * worst, and the self-care average of each calendar week.
 */
module StatisticsEngine {
  import opened Wrappers
  import opened Dates
  import opened Entries
  import opened Aggregates

  /** The result of `calculate_statistics`: one entry per habit plus `selfcare`. */
  datatype Statistics = Statistics(
    food: Aggregate, sport: Aggregate, sleep: Aggregate, fun: Aggregate, rest: Aggregate,
    selfcare: Aggregate)
  {
    function ForHabit(h: Habit): Aggregate {
      match h
      case Food => food
      case Sport => sport
      case Sleep => sleep
      case Fun => fun
      case Rest => rest
    }
  }

  ghost predicate Recorded(entries: map<int, Record>, dates: seq<int>) {
    forall k | 0 <= k < |dates| :: dates[k] in entries
  }

  lemma RecordedWhenContained(entries: map<int, Record>, dates: seq<int>)
    requires forall d | d in dates :: d in entries
    ensures Recorded(entries, dates)
  {
    forall k | 0 <= k < |dates| ensures dates[k] in entries {
      var d := dates[k];
      assert d in dates;
    }
  }

  /** One habit's scores over the given dates, in their order. */
  function Column(entries: map<int, Record>, dates: seq<int>, h: Habit): (c: seq<real>)
    requires Recorded(entries, dates)
    ensures |c| == |dates|
  {
    seq(|dates|, k requires 0 <= k < |dates| => Score(entries[dates[k]], h) as real)
  }

  /** The self-care scores over the given dates, in their order. */
  function SelfcareColumn(entries: map<int, Record>, dates: seq<int>): (c: seq<real>)
    requires Recorded(entries, dates)
    ensures |c| == |dates|
  {
    seq(|dates|, k requires 0 <= k < |dates| => Selfcare(entries[dates[k]]))
  }

  lemma ColumnSnoc(entries: map<int, Record>, dates: seq<int>, d: int, h: Habit)
    requires Recorded(entries, dates) && d in entries
    ensures Recorded(entries, dates + [d])
    ensures Column(entries, dates + [d], h) == Column(entries, dates, h) + [Score(entries[d], h) as real]
  {
  }

  lemma SelfcareColumnSnoc(entries: map<int, Record>, dates: seq<int>, d: int)
    requires Recorded(entries, dates) && d in entries
    ensures Recorded(entries, dates + [d])
    ensures SelfcareColumn(entries, dates + [d]) == SelfcareColumn(entries, dates) + [Selfcare(entries[d])]
  {
  }

  /** The habits the statistics cover. */
  const Habits: seq<Habit> := [Food, Sport, Sleep, Fun, Rest]

  /** The statistics cover every habit. */
  lemma AllHabits()
    ensures forall h: Habit :: h in Habits
  {
    forall h: Habit ensures h in Habits {
      match h
      case Food => assert Habits[0] == h;
      case Sport => assert Habits[1] == h;
      case Sleep => assert Habits[2] == h;
      case Fun => assert Habits[3] == h;
      case Rest => assert Habits[4] == h;
    }
  }

  /** Every habit's column over the given dates, keyed by habit. */
  function Columns(entries: map<int, Record>, dates: seq<int>): (r: map<Habit, seq<real>>)
    requires Recorded(entries, dates)
    ensures forall h: Habit :: h in r && |r[h]| == |dates|
  {
    AllHabits();
    map h | h in Habits :: Column(entries, dates, h)
  }

  /** One day of the collecting loop: every habit's column gets that day's score. */
  function AppendScores(values: map<Habit, seq<real>>, r: Record): map<Habit, seq<real>> {
    map h | h in values :: values[h] + [Score(r, h) as real]
  }

  /** Appending a date appends that day's score to every habit's column. */
  lemma ColumnsSnoc(entries: map<int, Record>, dates: seq<int>, d: int)
    requires Recorded(entries, dates) && d in entries
    ensures Recorded(entries, dates + [d])
    ensures Columns(entries, dates + [d]) == AppendScores(Columns(entries, dates), entries[d])
  {
    forall h | h in Habits {
      ColumnSnoc(entries, dates, d, h);
    }
  }

  lemma ColumnsEmpty(entries: map<int, Record>)
    ensures Recorded(entries, [])
    ensures Columns(entries, []) == map h | h in Habits :: []
  {
  }

  /** The collecting loop over `dates`, starting from an empty column per habit. */
  function CollectedColumns(entries: map<int, Record>, dates: seq<int>): map<Habit, seq<real>>
    requires Recorded(entries, dates)
    decreases |dates|
  {
    if dates == [] then map h | h in Habits :: []
    else AppendScores(CollectedColumns(entries, dates[..|dates| - 1]), entries[dates[|dates| - 1]])
  }

  /** One step of the collecting loop, on a prefix of the dates. */
  lemma CollectedStep(entries: map<int, Record>, dates: seq<int>, i: nat)
    requires Recorded(entries, dates) && i < |dates|
    ensures Recorded(entries, dates[..i]) && Recorded(entries, dates[..i + 1])
    ensures CollectedColumns(entries, dates[..i + 1])
      == AppendScores(CollectedColumns(entries, dates[..i]), entries[dates[i]])
    ensures SelfcareColumn(entries, dates[..i + 1])
      == SelfcareColumn(entries, dates[..i]) + [Selfcare(entries[dates[i]])]
  {
    assert dates[..i + 1][..i] == dates[..i];
    assert dates[..i + 1] == dates[..i] + [dates[i]];
    SelfcareColumnSnoc(entries, dates[..i], dates[i]);
  }

  /** The loop collects, for every habit, exactly that habit's column. */
  lemma {:induction false} CollectedAreColumns(entries: map<int, Record>, dates: seq<int>)
    requires Recorded(entries, dates)
    ensures CollectedColumns(entries, dates) == Columns(entries, dates)
    decreases |dates|
  {
    if dates == [] {
      ColumnsEmpty(entries);
    } else {
      var n := |dates| - 1;
      var init := dates[..n];
      assert init + [dates[n]] == dates;
      CollectedAreColumns(entries, init);
      ColumnsSnoc(entries, init, dates[n]);
    }
  }

  /** Summarizes each habit's column and the self-care column. */
  function Tabulate(values: map<Habit, seq<real>>, selfcare: seq<real>): (r: Statistics)
    requires forall h | h in Habits :: h in values && |values[h]| > 0
    requires |selfcare| > 0
    ensures forall h: Habit :: h in values && r.ForHabit(h) == Summarize(values[h])
    ensures r.selfcare == Summarize(selfcare)
  {
    AllHabits();
    Statistics(
      Summarize(values[Food]), Summarize(values[Sport]), Summarize(values[Sleep]),
      Summarize(values[Fun]), Summarize(values[Rest]), Summarize(selfcare))
  }

  /**
   * The statistics, or None for an empty store. The store's dates are walked
   * latest first; averages, maxima and minima do not depend on the order.
   */
  function StatisticsOf(entries: map<int, Record>): (r: Option<Statistics>)
    ensures r.None? <==> entries == map[]
  {
    if entries == map[] then None
    else
      var dates := DatesDescending(entries.Keys);
      assert entries.Keys != {};
      Some(Tabulate(Columns(entries, dates), SelfcareColumn(entries, dates)))
  }

  /** A non-empty store's statistics summarize the columns the loop collects. */
  lemma StatisticsFromColumns(entries: map<int, Record>, dates: seq<int>)
    requires entries != map[]
    requires StrictlyDescending(dates) && forall d :: d in dates <==> d in entries.Keys
    ensures Recorded(entries, dates)
    ensures forall h | h in Habits :: h in CollectedColumns(entries, dates) && |CollectedColumns(entries, dates)[h]| > 0
    ensures |SelfcareColumn(entries, dates)| > 0
    ensures StatisticsOf(entries) == Some(Tabulate(CollectedColumns(entries, dates), SelfcareColumn(entries, dates)))
  {
    SortedIsDatesDescending(dates, entries.Keys);
    RecordedWhenContained(entries, dates);
    CollectedAreColumns(entries, dates);
    assert entries.Keys != {};
  }

  /** Every day's score lies between its column's worst and best. */
  lemma HabitColumnBounds(entries: map<int, Record>, dates: seq<int>, h: Habit)
    requires dates != [] && Recorded(entries, dates)
    requires forall d | d in entries :: d in dates
    ensures var a := Summarize(Column(entries, dates, h));
      forall d | d in entries :: a.worst <= Score(entries[d], h) as real <= a.best
  {
    var xs := Column(entries, dates, h);
    var a := Summarize(xs);
    forall d | d in entries ensures a.worst <= Score(entries[d], h) as real <= a.best {
      var k :| 0 <= k < |dates| && dates[k] == d;
      assert xs[k] in xs;
    }
  }

  /** A column's best and worst are scores some day has. */
  lemma HabitColumnWitnesses(entries: map<int, Record>, dates: seq<int>, h: Habit)
    requires dates != [] && Recorded(entries, dates)
    ensures var a := Summarize(Column(entries, dates, h));
      && (exists d | d in entries :: Score(entries[d], h) as real == a.best)
      && (exists d | d in entries :: Score(entries[d], h) as real == a.worst)
  {
    var xs := Column(entries, dates, h);
    var a := Summarize(xs);
    var i :| 0 <= i < |xs| && xs[i] == a.best;
    var best := dates[i];
    assert best in entries && Score(entries[best], h) as real == a.best;
    var j :| 0 <= j < |xs| && xs[j] == a.worst;
    var worst := dates[j];
    assert worst in entries && Score(entries[worst], h) as real == a.worst;
  }

  lemma SelfcareColumnBounds(entries: map<int, Record>, dates: seq<int>)
    requires dates != [] && Recorded(entries, dates)
    requires forall d | d in entries :: d in dates
    ensures var a := Summarize(SelfcareColumn(entries, dates));
      forall d | d in entries :: a.worst <= Selfcare(entries[d]) <= a.best
  {
    var xs := SelfcareColumn(entries, dates);
    var a := Summarize(xs);
    forall d | d in entries ensures a.worst <= Selfcare(entries[d]) <= a.best {
      var k :| 0 <= k < |dates| && dates[k] == d;
      assert xs[k] in xs;
    }
  }

  lemma SelfcareColumnWitnesses(entries: map<int, Record>, dates: seq<int>)
    requires dates != [] && Recorded(entries, dates)
    ensures var a := Summarize(SelfcareColumn(entries, dates));
      && (exists d | d in entries :: Selfcare(entries[d]) == a.best)
      && (exists d | d in entries :: Selfcare(entries[d]) == a.worst)
  {
    var xs := SelfcareColumn(entries, dates);
    var a := Summarize(xs);
    var i :| 0 <= i < |xs| && xs[i] == a.best;
    var best := dates[i];
    assert best in entries && Selfcare(entries[best]) == a.best;
    var j :| 0 <= j < |xs| && xs[j] == a.worst;
    var worst := dates[j];
    assert worst in entries && Selfcare(entries[worst]) == a.worst;
  }

  /**
   * For each habit, the best and the worst are scores some day actually has,
   * every day's score lies between them, and so does the average.
   */
  lemma HabitStatistics(entries: map<int, Record>, h: Habit)
    requires entries != map[]
    ensures var a := StatisticsOf(entries).value.ForHabit(h);
      && a.worst <= a.average <= a.best
      && (forall d | d in entries :: a.worst <= Score(entries[d], h) as real <= a.best)
      && (exists d | d in entries :: Score(entries[d], h) as real == a.best)
      && (exists d | d in entries :: Score(entries[d], h) as real == a.worst)
  {
    var dates := DatesDescending(entries.Keys);
    assert entries.Keys != {};
    HabitColumnBounds(entries, dates, h);
    HabitColumnWitnesses(entries, dates, h);
  }

  /** The same for the daily self-care score. */
  lemma SelfcareStatistics(entries: map<int, Record>)
    requires entries != map[]
    ensures var a := StatisticsOf(entries).value.selfcare;
      && a.worst <= a.average <= a.best
      && (forall d | d in entries :: a.worst <= Selfcare(entries[d]) <= a.best)
      && (exists d | d in entries :: Selfcare(entries[d]) == a.best)
      && (exists d | d in entries :: Selfcare(entries[d]) == a.worst)
  {
    var dates := DatesDescending(entries.Keys);
    assert entries.Keys != {};
    SelfcareColumnBounds(entries, dates);
    SelfcareColumnWitnesses(entries, dates);
  }

  ghost predicate AggregateInRange(a: Aggregate) {
    0.0 <= a.worst && a.best <= 10.0
  }

  /** On a store that satisfies the range rule, every aggregate lies in [0, 10]. */
  lemma StatisticsInRange(entries: map<int, Record>)
    requires entries != map[]
    requires StoreInRange(entries)
    ensures forall h: Habit :: AggregateInRange(StatisticsOf(entries).value.ForHabit(h))
    ensures AggregateInRange(StatisticsOf(entries).value.selfcare)
  {
    var st := StatisticsOf(entries).value;
    forall h: Habit ensures AggregateInRange(st.ForHabit(h)) {
      HabitStatistics(entries, h);
      var d :| d in entries && Score(entries[d], h) as real == st.ForHabit(h).best;
      var e :| e in entries && Score(entries[e], h) as real == st.ForHabit(h).worst;
      InRangeEveryHabit(entries[d]);
      InRangeEveryHabit(entries[e]);
    }
    SelfcareStatistics(entries);
  }

  /** An ISO 8601 week date's (year, week) pair, as `isocalendar()` gives it. */
  datatype IsoWeek = IsoWeek(year: int, week: int)

  /** The dates among `dates` that fall in week `w`, in their order. */
  function WeekDates(dates: seq<int>, weekOf: int -> IsoWeek, w: IsoWeek): (ds: seq<int>)
    ensures forall d :: d in ds <==> d in dates && weekOf(d) == w
    ensures |ds| <= |dates|
    decreases |dates|
  {
    if dates == [] then []
    else
      var last := dates[|dates| - 1];
      assert forall d | d in dates :: d == last || d in dates[..|dates| - 1];
      WeekDates(dates[..|dates| - 1], weekOf, w) + (if weekOf(last) == w then [last] else [])
  }

  lemma WeekDatesSnoc(dates: seq<int>, d: int, weekOf: int -> IsoWeek, w: IsoWeek)
    ensures WeekDates(dates + [d], weekOf, w)
      == WeekDates(dates, weekOf, w) + (if weekOf(d) == w then [d] else [])
  {
    assert (dates + [d])[..|dates|] == dates;
  }

  /** The weeks some of the dates fall in. */
  function WeeksOf(dates: seq<int>, weekOf: int -> IsoWeek): set<IsoWeek> {
    set d | d in dates :: weekOf(d)
  }

  /** The self-care scores of week `w`'s dates: one group of the weekly grouping. */
  function WeekScores(entries: map<int, Record>, dates: seq<int>, weekOf: int -> IsoWeek, w: IsoWeek): (xs: seq<real>)
    requires Recorded(entries, dates)
    ensures w in WeeksOf(dates, weekOf) ==> |xs| > 0
  {
    WeekHasDate(dates, weekOf, w);
    RecordedWeek(entries, dates, weekOf, w);
    SelfcareColumn(entries, WeekDates(dates, weekOf, w))
  }

  lemma RecordedWeek(entries: map<int, Record>, dates: seq<int>, weekOf: int -> IsoWeek, w: IsoWeek)
    requires Recorded(entries, dates)
    ensures Recorded(entries, WeekDates(dates, weekOf, w))
  {
    forall d | d in WeekDates(dates, weekOf, w) ensures d in entries {
      var k :| 0 <= k < |dates| && dates[k] == d;
    }
    RecordedWhenContained(entries, WeekDates(dates, weekOf, w));
  }

  lemma WeekHasDate(dates: seq<int>, weekOf: int -> IsoWeek, w: IsoWeek)
    ensures w in WeeksOf(dates, weekOf) ==> |WeekDates(dates, weekOf, w)| > 0
  {
    if w in WeeksOf(dates, weekOf) {
      var d :| d in dates && weekOf(d) == w;
      assert d in WeekDates(dates, weekOf, w);
    }
  }

  lemma HeadIn<T>(s: seq<T>)
    ensures s == [] || s[0] in s
  {
  }

  /** Appending a date extends exactly its own week's group. */
  lemma WeekScoresSnoc(entries: map<int, Record>, dates: seq<int>, d: int, weekOf: int -> IsoWeek, w: IsoWeek)
    requires Recorded(entries, dates) && d in entries
    ensures Recorded(entries, dates + [d])
    ensures WeekScores(entries, dates + [d], weekOf, w)
      == WeekScores(entries, dates, weekOf, w) + (if weekOf(d) == w then [Selfcare(entries[d])] else [])
  {
    WeekDatesSnoc(dates, d, weekOf, w);
    RecordedWeek(entries, dates, weekOf, w);
    SelfcareColumnSnoc(entries, WeekDates(dates, weekOf, w), d);
  }

  /** A week none of the dates falls in has an empty group. */
  lemma WeekScoresAbsent(entries: map<int, Record>, dates: seq<int>, weekOf: int -> IsoWeek, w: IsoWeek)
    requires Recorded(entries, dates)
    requires w !in WeeksOf(dates, weekOf)
    ensures WeekScores(entries, dates, weekOf, w) == []
  {
    var ds := WeekDates(dates, weekOf, w);
    forall d | d in dates ensures weekOf(d) in WeeksOf(dates, weekOf) {
    }
    assert forall d :: d !in ds;
    HeadIn(ds);
  }

  /** The store's dates, latest first, all have records. */
  lemma StoreDatesRecorded(entries: map<int, Record>)
    ensures Recorded(entries, DatesDescending(entries.Keys))
  {
    RecordedWhenContained(entries, DatesDescending(entries.Keys));
  }

  /** The weeks of the store's dates are the weeks of its days. */
  /** The weeks that hold at least one recorded day. */
  ghost function StoreWeeks(entries: map<int, Record>, weekOf: int -> IsoWeek): set<IsoWeek> {
    set d | d in entries :: weekOf(d)
  }

  lemma WeeksOfStore(entries: map<int, Record>, weekOf: int -> IsoWeek)
    ensures WeeksOf(DatesDescending(entries.Keys), weekOf) == StoreWeeks(entries, weekOf)
  {
    var dates := DatesDescending(entries.Keys);
    forall w | w in StoreWeeks(entries, weekOf) ensures w in WeeksOf(dates, weekOf) {
      var d :| d in entries && weekOf(d) == w;
      assert d in dates;
    }
  }

  /** The weekly grouping: each week with a record, mapped to its mean self-care score. */
  function WeeklyAverages(entries: map<int, Record>, weekOf: int -> IsoWeek): (r: map<IsoWeek, real>)
    ensures r.Keys == StoreWeeks(entries, weekOf)
  {
    StoreDatesRecorded(entries);
    WeeksOfStore(entries, weekOf);
    WeeklyMeans(entries, DatesDescending(entries.Keys), weekOf)
  }

  /** Each week the dates fall in, mapped to the mean of its group. */
  function WeeklyMeans(entries: map<int, Record>, dates: seq<int>, weekOf: int -> IsoWeek): map<IsoWeek, real>
    requires Recorded(entries, dates)
  {
    map w | w in WeeksOf(dates, weekOf) :: Mean(WeekScores(entries, dates, weekOf, w))
  }

  /**
   * `groups` holds, for each week some of `dates` fall in, the self-care
   * scores of those dates in their order, and no other week.
   */
  ghost predicate Grouped(entries: map<int, Record>, dates: seq<int>, weekOf: int -> IsoWeek, groups: map<IsoWeek, seq<real>>) {
    && Recorded(entries, dates)
    && groups.Keys == WeeksOf(dates, weekOf)
    && forall w | w in groups :: groups[w] == WeekScores(entries, dates, weekOf, w)
  }

  lemma GroupedEmpty(entries: map<int, Record>, weekOf: int -> IsoWeek)
    ensures Grouped(entries, [], weekOf, map[])
  {
  }

  lemma WeeksOfSnoc(dates: seq<int>, d: int, weekOf: int -> IsoWeek)
    ensures WeeksOf(dates + [d], weekOf) == WeeksOf(dates, weekOf) + {weekOf(d)}
  {
    var ds := dates + [d];
    forall e | e in ds ensures e in dates || e == d {
    }
    assert d in ds;
  }

  /** The group a new day's score joins: its week's group so far, or a new empty one. */
  function GroupSoFar(groups: map<IsoWeek, seq<real>>, key: IsoWeek): seq<real> {
    if key in groups then groups[key] else []
  }

  /** Opens an empty group for `key` unless it has one, then appends `x` to it. */
  function AddToGroup(groups: map<IsoWeek, seq<real>>, key: IsoWeek, x: real): map<IsoWeek, seq<real>> {
    var withKey := if key !in groups then groups[key := []] else groups;
    withKey[key := withKey[key] + [x]]
  }

  lemma AddToGroupAppends(groups: map<IsoWeek, seq<real>>, key: IsoWeek, x: real)
    ensures AddToGroup(groups, key, x) == groups[key := GroupSoFar(groups, key) + [x]]
  {
  }

  lemma GroupedSnocValues(entries: map<int, Record>, dates: seq<int>, d: int, weekOf: int -> IsoWeek, groups: map<IsoWeek, seq<real>>)
    requires Grouped(entries, dates, weekOf, groups) && d in entries
    ensures Recorded(entries, dates + [d])
    ensures var next := groups[weekOf(d) := GroupSoFar(groups, weekOf(d)) + [Selfcare(entries[d])]];
      forall w | w in next :: next[w] == WeekScores(entries, dates + [d], weekOf, w)
  {
    var key := weekOf(d);
    var next := groups[key := GroupSoFar(groups, key) + [Selfcare(entries[d])]];
    forall w | w in next ensures next[w] == WeekScores(entries, dates + [d], weekOf, w) {
      WeekScoresSnoc(entries, dates, d, weekOf, w);
      if w == key && key !in groups {
        WeekScoresAbsent(entries, dates, weekOf, key);
      }
    }
  }

  /** Appending a day's score to its week's group (opened empty if new) extends the grouping by that day. */
  lemma GroupedSnoc(entries: map<int, Record>, dates: seq<int>, d: int, weekOf: int -> IsoWeek, groups: map<IsoWeek, seq<real>>)
    requires Grouped(entries, dates, weekOf, groups) && d in entries
    ensures Grouped(entries, dates + [d], weekOf, AddToGroup(groups, weekOf(d), Selfcare(entries[d])))
  {
    WeeksOfSnoc(dates, d, weekOf);
    GroupedSnocValues(entries, dates, d, weekOf, groups);
    AddToGroupAppends(groups, weekOf(d), Selfcare(entries[d]));
  }

  /**
   * The grouping loop: each date in turn appends its self-care score to its
   * week's group, opening the group when the week is new.
   */
  function WeeklyGroups(entries: map<int, Record>, dates: seq<int>, weekOf: int -> IsoWeek): (groups: map<IsoWeek, seq<real>>)
    requires Recorded(entries, dates)
    ensures forall w | w in groups :: |groups[w]| > 0
    decreases |dates|
  {
    if dates == [] then map[]
    else
      var d := dates[|dates| - 1];
      AddToGroup(WeeklyGroups(entries, dates[..|dates| - 1], weekOf), weekOf(d), Selfcare(entries[d]))
  }

  /** One more date of a recorded list: the grouping loop takes one more step. */
  lemma WeeklyGroupsStep(entries: map<int, Record>, dates: seq<int>, i: nat, weekOf: int -> IsoWeek)
    requires Recorded(entries, dates) && i < |dates|
    ensures Recorded(entries, dates[..i]) && Recorded(entries, dates[..i + 1])
    ensures WeeklyGroups(entries, dates[..i + 1], weekOf)
      == AddToGroup(WeeklyGroups(entries, dates[..i], weekOf), weekOf(dates[i]), Selfcare(entries[dates[i]]))
  {
    assert dates[..i + 1][..i] == dates[..i];
  }

  /** The loop builds the weekly grouping: one group per week, holding that week's scores in order. */
  lemma {:induction false} WeeklyGroupsGrouped(entries: map<int, Record>, dates: seq<int>, weekOf: int -> IsoWeek)
    requires Recorded(entries, dates)
    ensures Grouped(entries, dates, weekOf, WeeklyGroups(entries, dates, weekOf))
    decreases |dates|
  {
    if dates != [] {
      var n := |dates| - 1;
      var init := dates[..n];
      assert init + [dates[n]] == dates;
      WeeklyGroupsGrouped(entries, init, weekOf);
      GroupedSnoc(entries, init, dates[n], weekOf, WeeklyGroups(entries, init, weekOf));
    }
  }

  /** Averaging each week's group gives the weekly averages. */
  lemma WeeklyAveragesOfGroups(entries: map<int, Record>, weekOf: int -> IsoWeek, dates: seq<int>)
    requires StrictlyDescending(dates) && forall d :: d in dates <==> d in entries.Keys
    ensures Recorded(entries, dates)
    ensures var groups := WeeklyGroups(entries, dates, weekOf);
      && (forall w | w in groups :: |groups[w]| > 0)
      && WeeklyAverages(entries, weekOf) == map w | w in groups :: Mean(groups[w])
  {
    SortedIsDatesDescending(dates, entries.Keys);
    RecordedWhenContained(entries, dates);
    WeeklyGroupsGrouped(entries, dates, weekOf);
    MeansOfGroups(entries, dates, weekOf, WeeklyGroups(entries, dates, weekOf));
  }

  lemma MeansOfGroups(entries: map<int, Record>, dates: seq<int>, weekOf: int -> IsoWeek, groups: map<IsoWeek, seq<real>>)
    requires Grouped(entries, dates, weekOf, groups)
    ensures forall w | w in groups :: |groups[w]| > 0
    ensures WeeklyMeans(entries, dates, weekOf) == map w | w in groups :: Mean(groups[w])
  {
  }

  /** The days of the store that fall in week `w`. */
  ghost function DaysOfWeek(entries: map<int, Record>, weekOf: int -> IsoWeek, w: IsoWeek): set<int> {
    set d | d in entries && weekOf(d) == w
  }

  lemma {:induction false} WeekDatesDescending(dates: seq<int>, weekOf: int -> IsoWeek, w: IsoWeek)
    requires StrictlyDescending(dates)
    ensures StrictlyDescending(WeekDates(dates, weekOf, w))
    decreases |dates|
  {
    if dates != [] {
      var init := dates[..|dates| - 1];
      var last := dates[|dates| - 1];
      WeekDatesDescending(init, weekOf, w);
      var before := WeekDates(init, weekOf, w);
      forall d | d in before ensures d > last {
        var k :| 0 <= k < |init| && init[k] == d;
        assert dates[k] == d;
      }
      var ds := WeekDates(dates, weekOf, w);
      assert ds == before + (if weekOf(last) == w then [last] else []);
      forall i, j | 0 <= i < j < |ds| ensures ds[i] > ds[j] {
        assert ds[i] == before[i] && before[i] in before;
        if j < |before| {
          assert ds[j] == before[j];
        }
      }
    }
  }

  /** The weeks present are exactly those with a recorded day. */
  lemma WeekPresentIffRecorded(entries: map<int, Record>, weekOf: int -> IsoWeek, w: IsoWeek)
    ensures w in WeeklyAverages(entries, weekOf) <==> DaysOfWeek(entries, weekOf, w) != {}
  {
    var dates := DatesDescending(entries.Keys);
    var days := DaysOfWeek(entries, weekOf, w);
    assert WeeklyAverages(entries, weekOf).Keys == WeeksOf(dates, weekOf);
    if w in WeeksOf(dates, weekOf) {
      var d :| d in dates && weekOf(d) == w;
      assert d in days;
    }
    if days != {} {
      var d := Pick(days);
      assert d in dates;
    }
  }

  /** Each week's value is the mean self-care score over exactly the store's days in that week. */
  lemma WeekMeanOverItsDays(entries: map<int, Record>, weekOf: int -> IsoWeek, w: IsoWeek)
    requires w in WeeklyAverages(entries, weekOf)
    ensures var days := DatesDescending(DaysOfWeek(entries, weekOf, w));
      Recorded(entries, days) && |days| > 0
      && WeeklyAverages(entries, weekOf)[w] == Mean(SelfcareColumn(entries, days))
  {
    StoreDatesRecorded(entries);
    WeekAverageValue(entries, weekOf, w);
    WeekScoresOfItsDates(entries, DatesDescending(entries.Keys), weekOf, w);
    WeekGroupIsItsDays(entries, weekOf, w);
  }

  lemma WeekScoresOfItsDates(entries: map<int, Record>, dates: seq<int>, weekOf: int -> IsoWeek, w: IsoWeek)
    requires Recorded(entries, dates)
    requires w in WeeksOf(dates, weekOf)
    ensures var ds := WeekDates(dates, weekOf, w);
      Recorded(entries, ds) && |ds| > 0
      && WeekScores(entries, dates, weekOf, w) == SelfcareColumn(entries, ds)
  {
    WeekHasDate(dates, weekOf, w);
    RecordedWeek(entries, dates, weekOf, w);
  }

  /** A week's group holds the store's days of that week, each once, latest first. */
  lemma WeekGroupIsItsDays(entries: map<int, Record>, weekOf: int -> IsoWeek, w: IsoWeek)
    ensures WeekDates(DatesDescending(entries.Keys), weekOf, w)
      == DatesDescending(DaysOfWeek(entries, weekOf, w))
  {
    var dates := DatesDescending(entries.Keys);
    WeekDatesDescending(dates, weekOf, w);
    DescendingUnique(WeekDates(dates, weekOf, w), DatesDescending(DaysOfWeek(entries, weekOf, w)));
  }

  lemma WeekAverageValue(entries: map<int, Record>, weekOf: int -> IsoWeek, w: IsoWeek)
    requires w in WeeklyAverages(entries, weekOf)
    ensures var dates := DatesDescending(entries.Keys);
      && w in WeeksOf(dates, weekOf)
      && WeeklyAverages(entries, weekOf)[w] == Mean(WeekScores(entries, dates, weekOf, w))
  {
  }

  /** Self-care scores of records that satisfy the range rule lie in [0, 10]. */
  lemma SelfcareColumnInRange(entries: map<int, Record>, dates: seq<int>)
    requires StoreInRange(entries) && Recorded(entries, dates)
    ensures Within(SelfcareColumn(entries, dates), 0.0, 10.0)
  {
    var xs := SelfcareColumn(entries, dates);
    forall x | x in xs ensures 0.0 <= x <= 10.0 {
      var k :| 0 <= k < |xs| && xs[k] == x;
      var d := dates[k];
      assert d in entries;
    }
  }

  /** Every recorded day lands in its own week's group and in no other. */
  lemma EveryDayInOneWeek(entries: map<int, Record>, weekOf: int -> IsoWeek, d: int)
    requires d in entries
    ensures weekOf(d) in WeeklyAverages(entries, weekOf)
    ensures forall w :: d in DaysOfWeek(entries, weekOf, w) <==> w == weekOf(d)
  {
    var dates := DatesDescending(entries.Keys);
    assert d in dates;
  }

  lemma WeekAverageInRange(entries: map<int, Record>, weekOf: int -> IsoWeek, w: IsoWeek)
    requires StoreInRange(entries)
    requires w in WeeklyAverages(entries, weekOf)
    ensures 0.0 <= WeeklyAverages(entries, weekOf)[w] <= 10.0
  {
    StoreDatesRecorded(entries);
    WeekAverageValue(entries, weekOf, w);
    WeekScoresInRange(entries, DatesDescending(entries.Keys), weekOf, w);
  }

  lemma WeekScoresInRange(entries: map<int, Record>, dates: seq<int>, weekOf: int -> IsoWeek, w: IsoWeek)
    requires StoreInRange(entries) && Recorded(entries, dates)
    requires w in WeeksOf(dates, weekOf)
    ensures 0.0 <= Mean(WeekScores(entries, dates, weekOf, w)) <= 10.0
  {
    RecordedWeek(entries, dates, weekOf, w);
    SelfcareColumnInRange(entries, WeekDates(dates, weekOf, w));
    MeanBounds(WeekScores(entries, dates, weekOf, w), 0.0, 10.0);
  }

  /** On a store that satisfies the range rule, every weekly average lies in [0, 10]. */
  lemma WeeklyAveragesInRange(entries: map<int, Record>, weekOf: int -> IsoWeek)
    requires StoreInRange(entries)
    ensures forall w | w in WeeklyAverages(entries, weekOf) :: 0.0 <= WeeklyAverages(entries, weekOf)[w] <= 10.0
  {
    forall w | w in WeeklyAverages(entries, weekOf)
      ensures 0.0 <= WeeklyAverages(entries, weekOf)[w] <= 10.0
    {
      WeekAverageInRange(entries, weekOf, w);
    }
  }
}
