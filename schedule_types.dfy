/**
 * The frontend's two spellings of a school day: the enumeration `Day` ('MONDAY' … 'FRIDAY') and
 * the display type `DayOfWeek` ('Monday' … 'Friday'), with the two lookup tables of `convertDay`
 * between them.
 */
module ScheduleTypes {
  import opened Days

  datatype DayOfWeek = Monday | Tuesday | Wednesday | Thursday | Friday

  /** The display days in the order of the `DayOfWeek` union. */
  const DaysOfWeek: seq<DayOfWeek> := [Monday, Tuesday, Wednesday, Thursday, Friday]

  /** The string value of a display day. */
  function DayOfWeekName(d: DayOfWeek): string {
    match d
    case Monday => "Monday"
    case Tuesday => "Tuesday"
    case Wednesday => "Wednesday"
    case Thursday => "Thursday"
    case Friday => "Friday"
  }

  /** `convertDay.toString`: the table from enumeration values to display days. */
  function ToDayOfWeek(e: Day): (d: DayOfWeek)
    ensures exists i :: 0 <= i < 5 && Weekdays[i] == e && DaysOfWeek[i] == d
  {
    match e
    case MONDAY => assert Weekdays[0] == e; Monday
    case TUESDAY => assert Weekdays[1] == e; Tuesday
    case WEDNESDAY => assert Weekdays[2] == e; Wednesday
    case THURSDAY => assert Weekdays[3] == e; Thursday
    case FRIDAY => assert Weekdays[4] == e; Friday
  }

  /** `convertDay.toEnum`: the table from display days to enumeration values; it undoes
      `toString`. */
  function ToEnum(d: DayOfWeek): (e: Day)
    ensures ToDayOfWeek(e) == d
  {
    match d
    case Monday => MONDAY
    case Tuesday => TUESDAY
    case Wednesday => WEDNESDAY
    case Thursday => THURSDAY
    case Friday => FRIDAY
  }

  /** `toString` undoes `toEnum` as well, so the two tables are inverse bijections. */
  lemma ToEnumOfToDayOfWeek(e: Day)
    ensures ToEnum(ToDayOfWeek(e)) == e
  {
    match e
    case MONDAY =>
    case TUESDAY =>
    case WEDNESDAY =>
    case THURSDAY =>
    case FRIDAY =>
  }

  /** Distinct days have distinct images under both tables. */
  lemma ConvertInjective(d1: DayOfWeek, d2: DayOfWeek, e1: Day, e2: Day)
    ensures ToEnum(d1) == ToEnum(d2) ==> d1 == d2
    ensures ToDayOfWeek(e1) == ToDayOfWeek(e2) ==> e1 == e2
  {
    ToEnumOfToDayOfWeek(e1);
    ToEnumOfToDayOfWeek(e2);
  }

  /** The tables pair the i-th weekday of each spelling, and the names agree up to case. */
  lemma ConvertPositional(i: nat)
    requires i < 5
    ensures ToEnum(DaysOfWeek[i]) == Weekdays[i]
    ensures ToDayOfWeek(Weekdays[i]) == DaysOfWeek[i]
    ensures |DayOfWeekName(DaysOfWeek[i])| == |Name(Weekdays[i])|
    ensures DayOfWeekName(DaysOfWeek[i])[0] == Name(Weekdays[i])[0]
  {
  }

  /** A scheduled class as the frontend receives it. The code compares `day` both with
      enumeration values and with display names, so it is kept as the string it holds. */
  datatype Assignment = Assignment(classId: string, day: string, period: int, week: int)

  /** `Schedule`; each `Period` is kept as its `id`. */
  datatype Schedule = Schedule(id: string, startDate: string, endDate: string, rotationWeeks: int,
                               assignments: seq<Assignment>, periods: seq<int>)

  /** The `type` field of a frontend conflict. */
  datatype ConflictType = Teacher | Class | Time

  function TypeName(t: ConflictType): string {
    match t
    case Teacher => "teacher"
    case Class => "class"
    case Time => "time"
  }

  datatype Conflict = Conflict(classId: string, day: string, period: int, kind: ConflictType, message: string)
}
