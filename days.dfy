/**
 * The five school days. Backend and frontend share the enumeration `Day` whose values are the
 * upper-case names 'MONDAY' … 'FRIDAY'; the solver, the validator and the CSV code all use those
 * names as dictionary keys.
 */
module Days {
  import opened Wrappers

  datatype Day = MONDAY | TUESDAY | WEDNESDAY | THURSDAY | FRIDAY

  /** The weekdays in calendar order. */
  const Weekdays: seq<Day> := [MONDAY, TUESDAY, WEDNESDAY, THURSDAY, FRIDAY]

  /** The position of a day in `Weekdays`. */
  function DayIndex(d: Day): (i: nat)
    ensures i < |Weekdays| && Weekdays[i] == d
  {
    match d
    case MONDAY => 0
    case TUESDAY => 1
    case WEDNESDAY => 2
    case THURSDAY => 3
    case FRIDAY => 4
  }

  lemma DayIndexOfWeekday(i: nat)
    requires i < |Weekdays|
    ensures DayIndex(Weekdays[i]) == i
  {
    assert i == 0 || i == 1 || i == 2 || i == 3 || i == 4;
  }

  /** The enumeration value of a day, its string value in TypeScript and in the JSON exchanged
      with the Python scripts. */
  function Name(d: Day): string {
    match d
    case MONDAY => "MONDAY"
    case TUESDAY => "TUESDAY"
    case WEDNESDAY => "WEDNESDAY"
    case THURSDAY => "THURSDAY"
    case FRIDAY => "FRIDAY"
  }

  /** The day whose enumeration value is `s`, if any. */
  function FromName(s: string): (r: Option<Day>) {
    if s == "MONDAY" then Some(MONDAY)
    else if s == "TUESDAY" then Some(TUESDAY)
    else if s == "WEDNESDAY" then Some(WEDNESDAY)
    else if s == "THURSDAY" then Some(THURSDAY)
    else if s == "FRIDAY" then Some(FRIDAY)
    else None
  }

  /** A name is non-empty, holds no `_` or `-` (the separators of the text keys built from it)
      and reads back as its day. */
  lemma NameFacts(d: Day)
    ensures Name(d) != [] && '_' !in Name(d) && '-' !in Name(d)
    ensures FromName(Name(d)) == Some(d)
  {
  }

  /** Distinct days have distinct names. */
  lemma NameInjective(d1: Day, d2: Day)
    ensures Name(d1) == Name(d2) ==> d1 == d2
  {
    if Name(d1) == Name(d2) {
      NameFacts(d1);
      NameFacts(d2);
      assert FromName(Name(d1)) == FromName(Name(d2));
    }
  }
}
