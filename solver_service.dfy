/**
 * The data reshaping of the backend solver service: the conflicts of the classes and the teacher's
 * blocked periods become the day-keyed records the constraint solver and the validator read, the
 * solver's answer becomes assignment records, and stored assignments are projected back to the
 * validator's input. Running the Python scripts is not modelled; the script's answer is a
 * parameter.
 */
module SolverService {
  import opened Wrappers
  import opened Days
  import SV = SolutionValidator

  // ---------------------------------------------------------------- records of the service

  /** A stored conflict of a class: the periods it cannot take on one day. */
  datatype BaseConflict = BaseConflict(day: Day, periods: seq<int>)

  /** `ClassWithConflicts`: a class and its stored conflicts, in storage order. */
  datatype ClassWithConflicts = ClassWithConflicts(id: string, name: string, gradeLevel: int, conflicts: seq<BaseConflict>)

  /** A teacher availability record; `dayIndex` is `new Date(date).getDay()`, 0 for Sunday. */
  datatype TeacherAvailability = TeacherAvailability(dayIndex: int, blockedPeriods: seq<int>)

  /** An assignment as the service stores it, without its id and timestamps. */
  datatype NewAssignment = NewAssignment(classId: string, day: Day, period: int, week: int, scheduleId: string)

  /** One placement in the solver's answer. */
  datatype SolverAssignment = SolverAssignment(classId: string, day: Day, period: int, week: int)

  datatype SolverStatus = SolverSuccess | Infeasible

  /** The parts of the solver's answer the service reads. */
  datatype SolverResult = SolverResult(status: SolverStatus, message: Option<string>, solution: Option<seq<SolverAssignment>>)

  // ---------------------------------------------------------------- conflicts

  /** The day record `conflicts[cls.id]` after the conflicts `cs` were written in order. */
  function DayRecord(cs: seq<BaseConflict>): map<Day, seq<int>> {
    if cs == [] then map[]
    else DayRecord(cs[..|cs| - 1])[cs[|cs| - 1].day := cs[|cs| - 1].periods]
  }

  /** The record `_formatConflicts(classes)` returns. */
  function FormattedConflicts(classes: seq<ClassWithConflicts>): SV.ClassConflicts {
    if classes == [] then map[]
    else
      var last := classes[|classes| - 1];
      FormattedConflicts(classes[..|classes| - 1])[last.id := DayRecord(last.conflicts)]
  }

  /** `_formatConflicts`: each class's entry is reset to `{}` and then filled day by day. */
  method FormatConflicts(classes: seq<ClassWithConflicts>) returns (conflicts: SV.ClassConflicts)
    ensures conflicts == FormattedConflicts(classes)
  {
    conflicts := map[];
    for i := 0 to |classes|
      invariant conflicts == FormattedConflicts(classes[..i])
    {
      var cls := classes[i];
      conflicts := conflicts[cls.id := map[]];
      for j := 0 to |cls.conflicts|
        invariant cls.id in conflicts
        invariant conflicts == FormattedConflicts(classes[..i])[cls.id := DayRecord(cls.conflicts[..j])]
      {
        var conflict := cls.conflicts[j];
        conflicts := conflicts[cls.id := conflicts[cls.id][conflict.day := conflict.periods]];
        assert cls.conflicts[..j + 1][..j] == cls.conflicts[..j];
      }
      assert cls.conflicts[..|cls.conflicts|] == cls.conflicts;
      assert classes[..i + 1][..i] == classes[..i];
    }
    assert classes[..|classes|] == classes;
  }

  /** A day has an entry exactly when some conflict names it, and the entry holds the periods of
      the last such conflict: a later conflict for the same day overwrites an earlier one. */
  lemma {:induction false} DayRecordFacts(cs: seq<BaseConflict>, d: Day)
    ensures d in DayRecord(cs) <==> exists i :: 0 <= i < |cs| && cs[i].day == d
    ensures forall i :: 0 <= i < |cs| && cs[i].day == d && (forall j :: i < j < |cs| ==> cs[j].day != d) ==>
      d in DayRecord(cs) && DayRecord(cs)[d] == cs[i].periods
  {
    if cs != [] {
      var front := cs[..|cs| - 1];
      DayRecordFacts(front, d);
      assert forall i :: 0 <= i < |front| ==> front[i] == cs[i];
    }
  }

  /** Every class id gets an entry, even a class without conflicts. */
  lemma {:induction false} FormattedConflictsKeys(classes: seq<ClassWithConflicts>, id: string)
    ensures id in FormattedConflicts(classes) <==> exists i :: 0 <= i < |classes| && classes[i].id == id
  {
    if classes != [] {
      var front := classes[..|classes| - 1];
      FormattedConflictsKeys(front, id);
      assert forall i :: 0 <= i < |front| ==> front[i] == classes[i];
    }
  }

  /** The entry of a class id is the day record of the last class carrying that id. */
  lemma {:induction false} FormattedConflictsLast(classes: seq<ClassWithConflicts>, i: nat)
    requires i < |classes| && forall j :: i < j < |classes| ==> classes[j].id != classes[i].id
    ensures classes[i].id in FormattedConflicts(classes)
    ensures FormattedConflicts(classes)[classes[i].id] == DayRecord(classes[i].conflicts)
  {
    var n := |classes| - 1;
    if i < n {
      var front := classes[..n];
      assert front[i] == classes[i];
      assert forall j :: i < j < |front| ==> front[j] == classes[j];
      FormattedConflictsLast(front, i);
    }
  }

  // ---------------------------------------------------------------- teacher availability

  /** `[null, MONDAY, …, FRIDAY][dayIndex]`: Sunday, Saturday and any other index give no day. */
  function WeekdayOfIndex(dayIndex: int): (d: Option<Day>)
    ensures d.Some? <==> 1 <= dayIndex <= 5
    ensures d.Some? ==> DayIndex(d.value) == dayIndex - 1
  {
    if 1 <= dayIndex <= 5 then
      DayIndexOfWeekday(dayIndex - 1);
      Some(Weekdays[dayIndex - 1])
    else None
  }

  /** The record `_formatTeacherAvailability(availability)` returns. */
  function FormattedAvailability(av: seq<TeacherAvailability>): SV.BlockedPeriods {
    if av == [] then map[]
    else
      var m := FormattedAvailability(av[..|av| - 1]);
      var rec := av[|av| - 1];
      match WeekdayOfIndex(rec.dayIndex)
      case None => m
      case Some(d) => m[d := EntryOf(m, d) + rec.blockedPeriods]
  }

  /** `formattedAvailability[day]`, an absent day read as `[]`. */
  function EntryOf(m: SV.BlockedPeriods, d: Day): seq<int> {
    if d in m then m[d] else []
  }

  /** `_formatTeacherAvailability`. */
  method FormatTeacherAvailability(availability: seq<TeacherAvailability>) returns (formatted: SV.BlockedPeriods)
    ensures formatted == FormattedAvailability(availability)
  {
    formatted := map[];
    for i := 0 to |availability|
      invariant formatted == FormattedAvailability(availability[..i])
    {
      var avail := availability[i];
      var dayIndex := avail.dayIndex;
      assert availability[..i + 1][..i] == availability[..i];
      if dayIndex == 0 || dayIndex == 6 {
        continue;
      }
      var day := WeekdayOfIndex(dayIndex);
      if day.Some? {
        if day.value !in formatted {
          formatted := formatted[day.value := []];
        }
        formatted := formatted[day.value := formatted[day.value] + avail.blockedPeriods];
      }
    }
    assert availability[..|availability|] == availability;
  }

  /** The periods blocked on weekday `d`, read front to back: the blocked periods of every record
      falling on `d`, in record order. */
  function BlockedOn(av: seq<TeacherAvailability>, d: Day): seq<int> {
    if av == [] then [] else OwnBlocked(av[0], d) + BlockedOn(av[1..], d)
  }

  /** The blocked periods of one record if it falls on weekday `d`. */
  function OwnBlocked(rec: TeacherAvailability, d: Day): seq<int> {
    if WeekdayOfIndex(rec.dayIndex) == Some(d) then rec.blockedPeriods else []
  }

  /** Records on the same weekday concatenate, whatever their week. */
  lemma {:induction false} BlockedOnAppend(a: seq<TeacherAvailability>, b: seq<TeacherAvailability>, d: Day)
    ensures BlockedOn(a + b, d) == BlockedOn(a, d) + BlockedOn(b, d)
  {
    if a == [] {
      assert a + b == b;
    } else {
      assert (a + b)[1..] == a[1..] + b;
      BlockedOnAppend(a[1..], b, d);
      var own := OwnBlocked(a[0], d);
      assert BlockedOn(a + b, d) == own + (BlockedOn(a[1..], d) + BlockedOn(b, d));
      assert own + (BlockedOn(a[1..], d) + BlockedOn(b, d)) == (own + BlockedOn(a[1..], d)) + BlockedOn(b, d);
    }
  }

  /** A weekday has an entry exactly when some record falls on it; Sunday and Saturday records
      never make one. */
  lemma {:induction false} FormattedAvailabilityKeys(av: seq<TeacherAvailability>, d: Day)
    ensures d in FormattedAvailability(av) <==> exists i :: 0 <= i < |av| && WeekdayOfIndex(av[i].dayIndex) == Some(d)
  {
    if av != [] {
      var front := av[..|av| - 1];
      FormattedAvailabilityKeys(front, d);
      assert forall i :: 0 <= i < |front| ==> front[i] == av[i];
    }
  }

  /** The entry of a weekday is the concatenation, in input order, of the blocked periods of the
      records falling on it. */
  lemma {:induction false} FormattedAvailabilityValues(av: seq<TeacherAvailability>, d: Day)
    ensures EntryOf(FormattedAvailability(av), d) == BlockedOn(av, d)
  {
    if av != [] {
      var front := av[..|av| - 1];
      var rec := av[|av| - 1];
      FormattedAvailabilityValues(front, d);
      assert av == front + [rec];
      BlockedOnAppend(front, [rec], d);
      var own := if WeekdayOfIndex(rec.dayIndex) == Some(d) then rec.blockedPeriods else [];
      assert BlockedOn([rec], d) == own + BlockedOn([], d);
      assert EntryOf(FormattedAvailability(av), d) == EntryOf(FormattedAvailability(front), d) + own;
    }
  }

  /** A record falling on a weekend never changes the formatted availability. */
  lemma WeekendDropped(av: seq<TeacherAvailability>, rec: TeacherAvailability)
    requires rec.dayIndex == 0 || rec.dayIndex == 6
    ensures FormattedAvailability(av + [rec]) == FormattedAvailability(av)
  {
    assert (av + [rec])[..|av|] == av;
  }

  // ---------------------------------------------------------------- solver and validator data

  /** The assignments `generateSchedule` returns for the solver's answer, or the message it throws. */
  function ScheduleFromResult(result: SolverResult): (r: Result<seq<NewAssignment>, string>)
    ensures r.Success? <==> result.status == SolverSuccess && result.solution.Some?
    ensures r.Success? ==> |r.value| == |result.solution.value|
    ensures r.Success? ==> forall i :: 0 <= i < |r.value| ==> r.value[i].scheduleId == ""
    ensures r.Failure? && result.message.Some? && result.message.value != "" ==> r.error == result.message.value
    ensures r.Failure? && (result.message.None? || result.message.value == "") ==> r.error == "No solution found"
  {
    if result.status == SolverSuccess && result.solution.Some? then
      var sol := result.solution.value;
      Success(seq(|sol|, i requires 0 <= i < |sol| =>
        NewAssignment(sol[i].classId, sol[i].day, sol[i].period, sol[i].week, "")))
    else if result.message.Some? && result.message.value != "" then
      Failure(result.message.value)
    else
      Failure("No solution found")
  }

  /** `{ classId, day, period, week }` of a stored assignment, as the validator receives it. */
  function ToValidatorAssignment(a: NewAssignment): SV.Assignment {
    SV.Assignment(a.classId, a.day, a.period, Some(a.week))
  }

  /** `assignments.map(a => ({ classId, day, period, week }))`. */
  function ValidatorAssignments(assignments: seq<NewAssignment>): (r: seq<SV.Assignment>)
    ensures |r| == |assignments|
    ensures forall i :: 0 <= i < |r| ==>
      && r[i].classId == assignments[i].classId && r[i].day == assignments[i].day
      && r[i].period == assignments[i].period && SV.WeekOf(r[i]) == assignments[i].week
  {
    seq(|assignments|, i requires 0 <= i < |assignments| => ToValidatorAssignment(assignments[i]))
  }

  /** `classes.map(c => ({ id, name, gradeLevel }))`. */
  function ClassInfos(classes: seq<ClassWithConflicts>): (r: seq<SV.ClassInfo>)
    ensures |r| == |classes|
    ensures forall i :: 0 <= i < |r| ==>
      r[i].id == classes[i].id && r[i].name == classes[i].name && r[i].gradeLevel == classes[i].gradeLevel
  {
    seq(|classes|, i requires 0 <= i < |classes| => SV.ClassInfo(classes[i].id, classes[i].name, classes[i].gradeLevel))
  }

  /** The validator does not see which schedule an assignment belongs to: assignment lists that
      differ only in their schedule ids give the same validator assignments, and a class's
      conflicts do not change its class record. */
  lemma ValidatorIgnoresScheduleIds(a1: seq<NewAssignment>, a2: seq<NewAssignment>)
    requires |a1| == |a2|
    requires forall i :: 0 <= i < |a1| ==> a1[i].(scheduleId := "") == a2[i].(scheduleId := "")
    ensures ValidatorAssignments(a1) == ValidatorAssignments(a2)
  {
    var r1, r2 := ValidatorAssignments(a1), ValidatorAssignments(a2);
    forall i | 0 <= i < |r1| ensures r1[i] == r2[i] {
      assert a1[i].(scheduleId := "").classId == a2[i].(scheduleId := "").classId;
    }
  }

  /** The input `validateSchedule` sends to the validator. */
  function ValidatorInput(assignments: seq<NewAssignment>, classes: seq<ClassWithConflicts>,
                          availability: seq<TeacherAvailability>, constraints: SV.Constraints): SV.ValidationInput {
    SV.ValidationInput(ValidatorAssignments(assignments), ClassInfos(classes),
      FormattedConflicts(classes), FormattedAvailability(availability), constraints)
  }

  /** A solver placement as the validator would read it. */
  function SolverPlacement(s: SolverAssignment): SV.Assignment {
    SV.Assignment(s.classId, s.day, s.period, Some(s.week))
  }

  /** Storing a successful answer and sending it back to the validator gives the validator
      exactly the solver's placements, in the solver's order. */
  lemma StoredSolutionValidates(result: SolverResult)
    requires ScheduleFromResult(result).Success?
    ensures ValidatorAssignments(ScheduleFromResult(result).value)
      == seq(|result.solution.value|, i requires 0 <= i < |result.solution.value| => SolverPlacement(result.solution.value[i]))
  {
  }

  /** The validator counts as many classes and assignments as the service was given. */
  lemma ValidatorInputSizes(assignments: seq<NewAssignment>, classes: seq<ClassWithConflicts>,
                            availability: seq<TeacherAvailability>, constraints: SV.Constraints)
    ensures var input := ValidatorInput(assignments, classes, availability, constraints);
      |input.assignments| == |assignments| && |input.classes| == |classes|
      && forall i :: 0 <= i < |classes| ==> input.classes[i].id == classes[i].id && classes[i].id in input.conflicts
  {
    forall i | 0 <= i < |classes|
      ensures classes[i].id in FormattedConflicts(classes)
    {
      FormattedConflictsKeys(classes, classes[i].id);
    }
  }
}
