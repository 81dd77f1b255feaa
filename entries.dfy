/**
 * One day's record of the five self-reported habit scores, the range rule
 * the tracker enforces on them, the error kinds its validation reports, and
 * the day's self-care score.
 */
module Entries {

  datatype Habit = Food | Sport | Sleep | Fun | Rest

  /** A day's record: one score per habit. */
  datatype Record = Record(food: int, sport: int, sleep: int, fun: int, rest: int)

  function Score(r: Record, h: Habit): int {
    match h
    case Food => r.food
    case Sport => r.sport
    case Sleep => r.sleep
    case Fun => r.fun
    case Rest => r.rest
  }

  predicate ScoreInRange(v: int) {
    0 <= v <= 10
  }

  /** The range rule: each of the five scores lies in [0, 10]. */
  predicate InRange(r: Record) {
    ScoreInRange(r.food) && ScoreInRange(r.sport) && ScoreInRange(r.sleep)
      && ScoreInRange(r.fun) && ScoreInRange(r.rest)
  }

  lemma InRangeEveryHabit(r: Record)
    ensures InRange(r) <==> forall h: Habit :: ScoreInRange(Score(r, h))
  {
    if forall h: Habit :: ScoreInRange(Score(r, h)) {
      assert ScoreInRange(Score(r, Food)) && ScoreInRange(Score(r, Sport))
        && ScoreInRange(Score(r, Sleep)) && ScoreInRange(Score(r, Fun))
        && ScoreInRange(Score(r, Rest));
    }
  }

  /** A store whose every record satisfies the range rule. */
  ghost predicate StoreInRange(entries: map<int, Record>) {
    forall d | d in entries :: InRange(entries[d])
  }

  function Total(r: Record): int {
    r.food + r.sport + r.sleep + r.fun + r.rest
  }

  function Lowest(r: Record): int {
    var a := if r.food <= r.sport then r.food else r.sport;
    var b := if a <= r.sleep then a else r.sleep;
    var c := if b <= r.fun then b else r.fun;
    if c <= r.rest then c else r.rest
  }

  function Highest(r: Record): int {
    var a := if r.food >= r.sport then r.food else r.sport;
    var b := if a >= r.sleep then a else r.sleep;
    var c := if b >= r.fun then b else r.fun;
    if c >= r.rest then c else r.rest
  }

  /**
   * The self-care score of a day: the mean of its five scores. It is never
   * below the lowest nor above the highest of them, so it lies in [0, 10]
   * for a record that passed validation.
   */
  function Selfcare(r: Record): (m: real)
    ensures 5.0 * m == Total(r) as real
    ensures Lowest(r) as real <= m <= Highest(r) as real
    ensures InRange(r) ==> 0.0 <= m <= 10.0
  {
    Total(r) as real / 5.0
  }

  lemma SelfcareExample()
    ensures Selfcare(Record(8, 9, 7, 6, 10)) == 8.0
  {
  }

  /** The conditions `add_entry` and `update_entry` report. */
  datatype EntryError = DuplicateEntry | NoEntry | OutOfRange

  function Message(e: EntryError): (m: string)
    ensures |m| > 0 && m[|m| - 1] == '.'
  {
    match e
    case DuplicateEntry => "Entry for today already exists. Use update_entry to modify."
    case NoEntry => "No entry for today exists. Use add_entry to create one."
    case OutOfRange => "All values must be in the range 0-10."
  }

  /** The text of the raised `ValueError`: the messages joined by " | ". */
  function ErrorText(errors: seq<EntryError>): (text: string)
    ensures text == "" <==> errors == []
    ensures errors != [] ==> Message(errors[0]) <= text
    ensures |errors| == 1 ==> text == Message(errors[0])
  {
    if errors == [] then ""
    else if |errors| == 1 then Message(errors[0])
    else Message(errors[0]) + " | " + ErrorText(errors[1..])
  }

  /**
   * Every violated condition, in the order the source checks them: first
   * the condition on today's key (`keyError` when `keyProblem` holds), then
   * the range rule. The entry is written exactly when the list is empty.
   */
  function Violations(keyError: EntryError, keyProblem: bool, r: Record): (errors: seq<EntryError>)
    requires keyError != OutOfRange
    ensures errors == [] <==> !keyProblem && InRange(r)
    ensures keyError in errors <==> keyProblem
    ensures OutOfRange in errors <==> !InRange(r)
    ensures forall e | e in errors :: e == keyError || e == OutOfRange
    ensures |errors| <= 2
    ensures keyProblem && !InRange(r) ==> errors == [keyError, OutOfRange]
  {
    (if keyProblem then [keyError] else []) + (if InRange(r) then [] else [OutOfRange])
  }

  lemma BothAddErrorsReported(r: Record)
    requires !InRange(r)
    ensures ErrorText(Violations(DuplicateEntry, true, r))
      == Message(DuplicateEntry) + " | " + Message(OutOfRange)
  {
    var errors := Violations(DuplicateEntry, true, r);
    assert errors == [DuplicateEntry, OutOfRange];
    assert errors[1..] == [OutOfRange];
  }
}
