/**
 * Milestone rewards: a fixed table of streak thresholds and messages, and the
 * list of rewards already granted, each threshold at most once.
 */
module Rewards {

  /** One entry of `REWARD_MESSAGES`: a streak length and its message. */
  datatype Milestone = Milestone(threshold: int, message: string)

  /** One granted reward: its streak threshold, its message and the day it was granted. */
  datatype Success = Success(streak: int, message: string, date: int)

  /** The reward table, in the order the source's dictionary lists it. */
  const RewardTable: seq<Milestone> := [
    Milestone(7, OneWeek), Milestone(14, TwoWeeks), Milestone(21, ThreeWeeks), Milestone(30, OneMonth),
    Milestone(60, TwoMonths), Milestone(90, ThreeMonths), Milestone(180, SixMonths), Milestone(365, OneYear)
  ]

  const OneWeek := "Congrats! You've tracked your habits for one week! Keep the momentum going! 🎉"
  const TwoWeeks := "Amazing! Two weeks of consistent tracking! You're building a great habit! 🌟"
  const ThreeWeeks := "Three weeks strong! Your determination is inspiring! 💪"
  const OneMonth := "One month! You're unstoppable! Keep thriving! 🏆"
  const TwoMonths := "Two months! Your consistency is phenomenal! ✨"
  const ThreeMonths := "Three months of success! You're mastering your habits! 🚀"
  const SixMonths := "Six months! This is a lifestyle now. Incredible! 🌈"
  const OneYear := "One year of daily tracking! You're a self-care champion! 🎉🎊"

  /** The table's thresholds strictly increase, so each names one message. */
  lemma RewardTableAscending()
    ensures forall i, j | 0 <= i < j < |RewardTable| :: RewardTable[i].threshold < RewardTable[j].threshold
  {
  }

  /** The thresholds already granted. */
  function Thresholds(granted: seq<Success>): set<int> {
    set s | s in granted :: s.streak
  }

  /** No threshold is granted twice. */
  ghost predicate UniqueStreaks(granted: seq<Success>) {
    forall i, j | 0 <= i < j < |granted| :: granted[i].streak != granted[j].streak
  }

  /** The milestones the streak has reached, in table order. */
  function Reached(table: seq<Milestone>, streak: int): (ms: seq<Milestone>)
    ensures forall m :: m in ms <==> m in table && m.threshold <= streak
    ensures |ms| <= |table|
  {
    if table == [] then []
    else (if table[0].threshold <= streak then [table[0]] else []) + Reached(table[1..], streak)
  }

  /** One step of the granting loop. */
  function Grant(granted: seq<Success>, m: Milestone, today: int): (after: seq<Success>)
    ensures granted <= after && |after| <= |granted| + 1
    ensures m.threshold in Thresholds(granted) <==> after == granted
  {
    if m.threshold in Thresholds(granted) then granted
    else granted + [Success(m.threshold, m.message, today)]
  }

  /** The granting loop over the reached milestones, first to last. */
  function Granted(granted: seq<Success>, ms: seq<Milestone>, today: int): (after: seq<Success>)
    ensures granted <= after && |after| <= |granted| + |ms|
    decreases |ms|
  {
    if ms == [] then granted else Granted(Grant(granted, ms[0], today), ms[1..], today)
  }

  /** The granting loop, resumed at position i, takes one more step. */
  lemma GrantedStep(granted: seq<Success>, ms: seq<Milestone>, i: nat, today: int)
    requires i < |ms|
    ensures Granted(granted, ms[i..], today) == Granted(Grant(granted, ms[i], today), ms[i + 1..], today)
  {
    assert ms[i..][1..] == ms[i + 1..];
  }

  /**
   * Granting only appends: the earlier records are an unchanged prefix, and
   * every new record carries a reached milestone's threshold and message,
   * today's date, and a threshold not granted before.
   */
  lemma {:induction false} GrantedAppends(granted: seq<Success>, ms: seq<Milestone>, today: int)
    ensures |granted| <= |Granted(granted, ms, today)|
    ensures Granted(granted, ms, today)[..|granted|] == granted
    ensures forall i | |granted| <= i < |Granted(granted, ms, today)| ::
      var s := Granted(granted, ms, today)[i];
      s.date == today && Milestone(s.streak, s.message) in ms && s.streak !in Thresholds(granted)
    decreases |ms|
  {
    if ms != [] {
      var next := Grant(granted, ms[0], today);
      GrantedAppends(next, ms[1..], today);
      var r := Granted(granted, ms, today);
      assert r == Granted(next, ms[1..], today);
      assert next[..|granted|] == granted;
      assert r[..|granted|] == r[..|next|][..|granted|];
      assert Thresholds(granted) <= Thresholds(next) by {
        forall t | t in Thresholds(granted) ensures t in Thresholds(next) {
          var s :| s in granted && s.streak == t;
          assert s in next;
        }
      }
      forall i | |granted| <= i < |r|
        ensures r[i].date == today && Milestone(r[i].streak, r[i].message) in ms
        ensures r[i].streak !in Thresholds(granted)
      {
        if i < |next| {
          assert i == |granted| && next == granted + [Success(ms[0].threshold, ms[0].message, today)];
          assert r[i] == r[..|next|][i] == next[i];
        } else {
          assert Milestone(r[i].streak, r[i].message) in ms[1..];
        }
      }
    }
  }

  /** One grant adds the milestone's threshold to the granted ones, and no other. */
  lemma GrantThresholds(granted: seq<Success>, m: Milestone, today: int)
    ensures Thresholds(Grant(granted, m, today)) == Thresholds(granted) + {m.threshold}
  {
    if m.threshold !in Thresholds(granted) {
      var s := Success(m.threshold, m.message, today);
      var next := granted + [s];
      forall t | t in Thresholds(next) ensures t in Thresholds(granted) + {m.threshold} {
        var u :| u in next && u.streak == t;
        assert u in granted || u == s;
      }
      forall t | t in Thresholds(granted) ensures t in Thresholds(next) {
        var u :| u in granted && u.streak == t;
        assert u in next;
      }
      assert s in next;
    }
  }

  lemma MilestoneThresholdsCons(ms: seq<Milestone>)
    requires ms != []
    ensures (set m | m in ms :: m.threshold) == {ms[0].threshold} + set m | m in ms[1..] :: m.threshold
  {
    assert forall m | m in ms :: m == ms[0] || m in ms[1..];
    assert ms[0] in ms;
    assert forall m | m in ms[1..] :: m in ms;
  }

  /** After granting, exactly the earlier thresholds and the reached ones are present. */
  lemma {:induction false} GrantedThresholds(granted: seq<Success>, ms: seq<Milestone>, today: int)
    ensures Thresholds(Granted(granted, ms, today))
      == Thresholds(granted) + set m | m in ms :: m.threshold
    decreases |ms|
  {
    if ms != [] {
      var next := Grant(granted, ms[0], today);
      GrantedThresholds(next, ms[1..], today);
      GrantThresholds(granted, ms[0], today);
      MilestoneThresholdsCons(ms);
    }
  }

  /** Granting keeps every threshold granted at most once. */
  lemma {:induction false} GrantedUnique(granted: seq<Success>, ms: seq<Milestone>, today: int)
    requires UniqueStreaks(granted)
    ensures UniqueStreaks(Granted(granted, ms, today))
    decreases |ms|
  {
    if ms != [] {
      var next := Grant(granted, ms[0], today);
      assert UniqueStreaks(next) by {
        if ms[0].threshold !in Thresholds(granted) {
          forall i | 0 <= i < |granted| ensures granted[i].streak != ms[0].threshold {
            assert granted[i] in granted;
          }
        }
      }
      GrantedUnique(next, ms[1..], today);
    }
  }

  /** Milestones whose thresholds are all granted already add nothing. */
  lemma {:induction false} GrantedNothingNew(granted: seq<Success>, ms: seq<Milestone>, today: int)
    requires forall m | m in ms :: m.threshold in Thresholds(granted)
    ensures Granted(granted, ms, today) == granted
    decreases |ms|
  {
    if ms != [] {
      assert ms[0] in ms;
      assert forall m | m in ms[1..] :: m in ms;
      GrantedNothingNew(granted, ms[1..], today);
    }
  }

  /** A second pass over the same milestones, on any day, grants nothing. */
  lemma GrantedIdempotent(granted: seq<Success>, ms: seq<Milestone>, today: int, later: int)
    ensures Granted(Granted(granted, ms, today), ms, later) == Granted(granted, ms, today)
  {
    GrantedThresholds(granted, ms, today);
    GrantedNothingNew(Granted(granted, ms, today), ms, later);
  }

  /** The records `check_rewards` leaves for a reward table, a streak and a day. */
  function AfterCheck(table: seq<Milestone>, granted: seq<Success>, streak: int, today: int): (after: seq<Success>)
    ensures granted <= after
    ensures forall m | m in table && m.threshold <= streak :: m.threshold in Thresholds(after)
  {
    GrantedThresholds(granted, Reached(table, streak), today);
    Granted(granted, Reached(table, streak), today)
  }

  /**
   * After the check every table threshold up to the streak is granted, and
   * once only if no threshold was granted twice before; earlier records are
   * kept as a prefix; each new record is a table milestone up to the streak,
   * dated today; and checking again with the same streak adds nothing.
   */
  lemma CheckGrantsReachedOnce(table: seq<Milestone>, granted: seq<Success>, streak: int, today: int)
    ensures var r := AfterCheck(table, granted, streak, today);
      && (forall m | m in table && m.threshold <= streak :: m.threshold in Thresholds(r))
      && (UniqueStreaks(granted) ==> UniqueStreaks(r))
      && |granted| <= |r| && r[..|granted|] == granted
      && (forall i | |granted| <= i < |r| ::
            && r[i].date == today && r[i].streak <= streak
            && Milestone(r[i].streak, r[i].message) in table)
      && AfterCheck(table, r, streak, today) == r
  {
    var ms := Reached(table, streak);
    var r := AfterCheck(table, granted, streak, today);
    GrantedThresholds(granted, ms, today);
    assert forall m | m in table && m.threshold <= streak :: m in ms;
    if UniqueStreaks(granted) {
      GrantedUnique(granted, ms, today);
    }
    GrantedAppends(granted, ms, today);
    GrantedIdempotent(granted, ms, today, today);
  }

  /**
   * In a table with ascending thresholds, the reached milestones are the
   * table's first k entries, where k counts the thresholds up to the streak.
   */
  lemma {:induction false} ReachedPrefix(table: seq<Milestone>, streak: int, k: nat)
    requires k <= |table|
    requires forall i | 0 <= i < k :: table[i].threshold <= streak
    requires forall i | k <= i < |table| :: table[i].threshold > streak
    ensures Reached(table, streak) == table[..k]
    decreases |table|
  {
    if k == 0 {
      ReachedNone(table, streak);
    } else {
      var tail := table[1..];
      forall i | 0 <= i < k - 1 ensures tail[i].threshold <= streak {
        assert tail[i] == table[i + 1];
      }
      forall i | k - 1 <= i < |tail| ensures tail[i].threshold > streak {
        assert tail[i] == table[i + 1];
      }
      ReachedPrefix(tail, streak, k - 1);
      ReachedCons(table, streak);
      PrefixCons(table, k);
    }
  }

  lemma PrefixCons(table: seq<Milestone>, k: nat)
    requires 0 < k <= |table|
    ensures table[..k] == [table[0]] + table[1..][..k - 1]
  {
    assert table[..k] == [table[0]] + table[1..][..k - 1];
  }

  lemma ReachedNone(table: seq<Milestone>, streak: int)
    requires forall i | 0 <= i < |table| :: table[i].threshold > streak
    ensures Reached(table, streak) == []
  {
  }

  lemma ReachedCons(table: seq<Milestone>, streak: int)
    requires table != []
    ensures Reached(table, streak)
      == (if table[0].threshold <= streak then [table[0]] else []) + Reached(table[1..], streak)
  {
  }

  /** Seven consecutive days on a fresh tracker grant the one-week reward, once. */
  lemma OneWeekReward(today: int)
    ensures AfterCheck(RewardTable, [], 7, today)
      == [Success(7, "Congrats! You've tracked your habits for one week! Keep the momentum going! 🎉", today)]
  {
    ReachedPrefix(RewardTable, 7, 1);
    var once := Grant([], RewardTable[0], today);
    assert Granted([], [RewardTable[0]], today) == Granted(once, [], today);
  }

  /** One record per milestone, each dated today, in milestone order. */
  function NewRecords(ms: seq<Milestone>, today: int): seq<Success> {
    seq(|ms|, i requires 0 <= i < |ms| => Success(ms[i].threshold, ms[i].message, today))
  }

  ghost predicate DistinctThresholds(ms: seq<Milestone>) {
    forall i, j | 0 <= i < j < |ms| :: ms[i].threshold != ms[j].threshold
  }

  lemma NewRecordsCons(ms: seq<Milestone>, today: int)
    requires ms != []
    ensures NewRecords(ms, today)
      == [Success(ms[0].threshold, ms[0].message, today)] + NewRecords(ms[1..], today)
  {
    assert NewRecords(ms, today)[1..] == NewRecords(ms[1..], today);
  }

  /** Granting the first fresh milestone leaves the others fresh and distinct. */
  lemma FreshTail(granted: seq<Success>, ms: seq<Milestone>, today: int)
    requires ms != [] && DistinctThresholds(ms)
    requires forall m | m in ms :: m.threshold !in Thresholds(granted)
    ensures DistinctThresholds(ms[1..])
    ensures var next := granted + [Success(ms[0].threshold, ms[0].message, today)];
      forall m | m in ms[1..] :: m.threshold !in Thresholds(next)
  {
    var tail := ms[1..];
    forall i, j | 0 <= i < j < |tail| ensures tail[i].threshold != tail[j].threshold {
      assert tail[i] == ms[i + 1] && tail[j] == ms[j + 1];
    }
    var next := granted + [Success(ms[0].threshold, ms[0].message, today)];
    forall m | m in tail ensures m.threshold !in Thresholds(next) {
      var k :| 0 <= k < |tail| && tail[k] == m;
      assert ms[k + 1] == m;
      assert m in ms;
    }
  }

  /**
   * Milestones none of which was granted before are all granted in the same
   * call, in order, each with today's date.
   */
  lemma {:induction false} GrantedAllFresh(granted: seq<Success>, ms: seq<Milestone>, today: int)
    requires DistinctThresholds(ms)
    requires forall m | m in ms :: m.threshold !in Thresholds(granted)
    ensures Granted(granted, ms, today) == granted + NewRecords(ms, today)
    decreases |ms|
  {
    if ms != [] {
      var s := Success(ms[0].threshold, ms[0].message, today);
      var next := granted + [s];
      assert ms[0] in ms;
      assert Grant(granted, ms[0], today) == next;
      FreshTail(granted, ms, today);
      GrantedAllFresh(next, ms[1..], today);
      NewRecordsCons(ms, today);
      assert next + NewRecords(ms[1..], today) == granted + NewRecords(ms, today);
    }
  }

  ghost predicate Ascending(table: seq<Milestone>) {
    forall i, j | 0 <= i < j < |table| :: table[i].threshold < table[j].threshold
  }

  /**
   * On a tracker with no rewards yet, a check whose streak reaches the first
   * k thresholds of an ascending table grants exactly those k, in table order.
   */
  lemma FreshCheck(table: seq<Milestone>, streak: int, k: nat, today: int)
    requires Ascending(table)
    requires k <= |table|
    requires forall i | 0 <= i < k :: table[i].threshold <= streak
    requires forall i | k <= i < |table| :: table[i].threshold > streak
    ensures Granted([], Reached(table, streak), today) == NewRecords(table[..k], today)
  {
    ReachedPrefix(table, streak, k);
    GrantedAllFresh([], table[..k], today);
  }

  /** A streak reaching 30 at once grants 7, 14, 21 and 30 in one check. */
  lemma MonthGrantsFourRewards(today: int)
    ensures var r := AfterCheck(RewardTable, [], 30, today);
      |r| == 4 && r[0].streak == 7 && r[1].streak == 14 && r[2].streak == 21 && r[3].streak == 30
  {
    RewardTableAscending();
    FreshCheck(RewardTable, 30, 4, today);
  }
}
