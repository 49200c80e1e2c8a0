/**
 * The schedule validator of the Python solver package (`ScheduleValidator`). It receives the
 * assignments a solver produced (class, day, period, optional week), the classes, the per-class
 * blackout periods, the teacher's blocked periods and the numeric constraints, and reports every
 * rule a schedule breaks. Each rule check walks the assignments once, grouping them in
 * dictionaries whose key order is insertion order; the methods below do the same and are proved
 * equal to recursive specification functions, whose properties are proved in `ValidatorFacts`.
 */
module SolutionValidator {
  import opened Wrappers
  import opened Seqs
  import opened JsText
  import opened Days

  // ---------------------------------------------------------------- input and output

  /** One placement of a class; `week` is absent in single-week schedules. */
  datatype Assignment = Assignment(classId: string, day: Day, period: int, week: Option<int>)

  /** `assignment.get('week', 1)`. */
  function WeekOf(a: Assignment): int {
    a.week.GetOr(1)
  }

  datatype ClassInfo = ClassInfo(id: string, name: string, gradeLevel: int)

  /** Class id ↦ day ↦ the periods the class cannot take. */
  type ClassConflicts = map<string, map<Day, seq<int>>>

  /** Day ↦ the periods the teacher is unavailable (the same in every week). */
  type BlockedPeriods = map<Day, seq<int>>

  /** The constraint keys the validator reads; an absent key takes its default. */
  datatype Constraints = Constraints(
    maxClassesPerDay: Option<int>,
    maxClassesPerWeek: Option<int>,
    maxConsecutiveClasses: Option<int>,
    requireBreakAfterClass: Option<bool>)

  const DEFAULT_MAX_CLASSES_PER_DAY: int := 4
  const DEFAULT_MAX_CLASSES_PER_WEEK: int := 16
  const DEFAULT_MAX_CONSECUTIVE_CLASSES: int := 2

  function MaxPerDay(c: Constraints): int { c.maxClassesPerDay.GetOr(DEFAULT_MAX_CLASSES_PER_DAY) }
  function MaxPerWeek(c: Constraints): int { c.maxClassesPerWeek.GetOr(DEFAULT_MAX_CLASSES_PER_WEEK) }
  function MaxConsecutive(c: Constraints): int { c.maxConsecutiveClasses.GetOr(DEFAULT_MAX_CONSECUTIVE_CLASSES) }
  function BreakRequired(c: Constraints): bool { c.requireBreakAfterClass.GetOr(false) }

  datatype ValidationInput = ValidationInput(
    assignments: seq<Assignment>,
    classes: seq<ClassInfo>,
    conflicts: ClassConflicts,
    teacherAvailability: BlockedPeriods,
    constraints: Constraints)

  /** One reported rule break. `day` and `week` of the grouped checks are the two halves of the
      group's text key, as the validator recovers them with `day_key.split('_')`. */
  datatype Violation =
    | ClassConflict(assignment: Assignment)
    | TeacherUnavailable(assignment: Assignment)
    | MultipleClassesPerSlot(first: Assignment, second: Assignment)
    | ClassNotScheduled(classId: string)
    | ClassScheduledMultipleTimes(classId: string, count: nat)
    | MaxClassesPerDayExceeded(day: string, week: string, count: nat, max: int)
    | MaxClassesPerWeekExceeded(weekNumber: int, count: nat, max: int)
    | MaxConsecutiveClassesExceeded(day: string, week: string, periods: seq<int>, max: int)
    | NoBreakAfterClass(day: string, week: string, period: int)

  datatype ValidationResult = ValidationResult(
    valid: bool, violations: seq<Violation>, numAssignments: nat, numClasses: nat)

  // ---------------------------------------------------------------- dictionary keys

  /** The (week, day) group of an assignment; its text form `f"{week}_{day}"` is the key. */
  datatype DayKey = DayKey(week: int, day: Day)

  /** The (week, day, period) slot of an assignment; its text form is `f"{week}_{day}_{period}"`. */
  datatype SlotKey = SlotKey(week: int, day: Day, period: int)

  function DayKeyOf(a: Assignment): DayKey { DayKey(WeekOf(a), a.day) }
  function SlotOf(a: Assignment): SlotKey { SlotKey(WeekOf(a), a.day, a.period) }

  function DayKeyText(k: DayKey): string {
    IntToString(k.week) + "_" + Name(k.day)
  }

  function SlotKeyText(k: SlotKey): string {
    IntToString(k.week) + "_" + Name(k.day) + "_" + IntToString(k.period)
  }

  /** `week, day = day_key.split('_')`: the text of the week and the day name, which are the two
      pieces of the text key (`DayKeySplits`). */
  function SplitDayKey(k: DayKey): (string, string) {
    (IntToString(k.week), Name(k.day))
  }

  lemma NoUnderscoreInNumber(n: int)
    ensures '_' !in IntToString(n)
  {
    IntToStringFacts(n);
    var s := IntToString(n);
    if n < 0 {
      assert s == [s[0]] + s[1..];
    }
  }

  /** The text key of a group splits into exactly the week text and the day name. */
  lemma DayKeySplits(k: DayKey)
    ensures Split(DayKeyText(k), '_') == [IntToString(k.week), Name(k.day)]
  {
    var parts := [IntToString(k.week), Name(k.day)];
    NoUnderscoreInNumber(k.week);
    NameFacts(k.day);
    assert Join(parts, "_") == DayKeyText(k);
    SplitJoin(parts, '_');
  }

  /** The text key of a slot splits into the week text, the day name and the period text. */
  lemma SlotKeySplits(k: SlotKey)
    ensures Split(SlotKeyText(k), '_') == [IntToString(k.week), Name(k.day), IntToString(k.period)]
  {
    var parts := [IntToString(k.week), Name(k.day), IntToString(k.period)];
    NoUnderscoreInNumber(k.week);
    NoUnderscoreInNumber(k.period);
    NameFacts(k.day);
    assert parts[1..] == [Name(k.day), IntToString(k.period)];
    assert parts[1..][1..] == [IntToString(k.period)];
    assert Join(parts[1..], "_") == Name(k.day) + "_" + IntToString(k.period);
    assert Join(parts, "_") == SlotKeyText(k);
    SplitJoin(parts, '_');
  }

  lemma IntToStringInjective(a: int, b: int)
    requires IntToString(a) == IntToString(b)
    ensures a == b
  {
    ParseIntToString(a);
    ParseIntToString(b);
  }

  /** Distinct groups have distinct text keys, so the Python dictionaries keyed by text group the
      assignments exactly by (week, day). */
  lemma DayKeyTextInjective(k1: DayKey, k2: DayKey)
    requires DayKeyText(k1) == DayKeyText(k2)
    ensures k1 == k2
  {
    DayKeySplits(k1);
    DayKeySplits(k2);
    IntToStringInjective(k1.week, k2.week);
    NameInjective(k1.day, k2.day);
  }

  /** Distinct slots have distinct text keys. */
  lemma SlotKeyTextInjective(k1: SlotKey, k2: SlotKey)
    requires SlotKeyText(k1) == SlotKeyText(k2)
    ensures k1 == k2
  {
    SlotKeySplits(k1);
    SlotKeySplits(k2);
    IntToStringInjective(k1.week, k2.week);
    IntToStringInjective(k1.period, k2.period);
    NameInjective(k1.day, k2.day);
  }

  /** The group keys of the assignments, in order. */
  function DayKeys(asg: seq<Assignment>): (ks: seq<DayKey>)
    ensures |ks| == |asg|
  {
    if asg == [] then [] else DayKeys(asg[..|asg| - 1]) + [DayKeyOf(asg[|asg| - 1])]
  }

  lemma DayKeysSnoc(asg: seq<Assignment>, i: nat)
    requires i < |asg|
    ensures DayKeys(asg[..i + 1]) == DayKeys(asg[..i]) + [DayKeyOf(asg[i])]
    ensures multiset(DayKeys(asg[..i + 1])) == multiset(DayKeys(asg[..i])) + multiset{DayKeyOf(asg[i])}
  {
    assert asg[..i + 1][..i] == asg[..i];
  }

  /** The weeks of the assignments, in order. */
  function Weeks(asg: seq<Assignment>): (ws: seq<int>)
    ensures |ws| == |asg|
  {
    if asg == [] then [] else Weeks(asg[..|asg| - 1]) + [WeekOf(asg[|asg| - 1])]
  }

  /** The class ids of the assignments, in order. */
  function AssignedIds(asg: seq<Assignment>): (ids: seq<string>)
    ensures |ids| == |asg|
  {
    if asg == [] then [] else AssignedIds(asg[..|asg| - 1]) + [asg[|asg| - 1].classId]
  }

  /** The ids of the classes, in order. */
  function ClassIds(classes: seq<ClassInfo>): (ids: seq<string>)
    ensures |ids| == |classes|
  {
    if classes == [] then [] else ClassIds(classes[..|classes| - 1]) + [classes[|classes| - 1].id]
  }

  /** The periods of the assignments in group `k`, in input order. */
  function PeriodsOn(asg: seq<Assignment>, k: DayKey): (ps: seq<int>)
    ensures |ps| <= |asg|
  {
    if asg == [] then []
    else PeriodsOn(asg[..|asg| - 1], k) + (if DayKeyOf(asg[|asg| - 1]) == k then [asg[|asg| - 1].period] else [])
  }

  lemma {:induction false} PeriodsOnAbsent(asg: seq<Assignment>, k: DayKey)
    requires k !in DayKeys(asg)
    ensures PeriodsOn(asg, k) == []
  {
    if asg != [] {
      PeriodsOnAbsent(asg[..|asg| - 1], k);
    }
  }

  // ---------------------------------------------------------------- blackout checks

  predicate InClassConflict(a: Assignment, conflicts: ClassConflicts) {
    a.classId in conflicts && a.day in conflicts[a.classId] && a.period in conflicts[a.classId][a.day]
  }

  predicate TeacherBlocked(a: Assignment, blocked: BlockedPeriods) {
    a.day in blocked && a.period in blocked[a.day]
  }

  /** One `class_conflict` per assignment whose period is a blackout period of its class on its
      day, in input order; the week plays no part. */
  function ClassConflictViolations(asg: seq<Assignment>, conflicts: ClassConflicts): (vs: seq<Violation>)
    ensures |vs| <= |asg|
    ensures forall i :: 0 <= i < |vs| ==> vs[i].ClassConflict?
  {
    if asg == [] then []
    else
      var a := asg[|asg| - 1];
      ClassConflictViolations(asg[..|asg| - 1], conflicts) + (if InClassConflict(a, conflicts) then [ClassConflict(a)] else [])
  }

  /** One `teacher_unavailable` per assignment whose period is blocked on its weekday, whatever
      its week or class. */
  function TeacherViolations(asg: seq<Assignment>, blocked: BlockedPeriods): (vs: seq<Violation>)
    ensures |vs| <= |asg|
    ensures forall i :: 0 <= i < |vs| ==> vs[i].TeacherUnavailable?
  {
    if asg == [] then []
    else
      var a := asg[|asg| - 1];
      TeacherViolations(asg[..|asg| - 1], blocked) + (if TeacherBlocked(a, blocked) then [TeacherUnavailable(a)] else [])
  }

  method ValidateClassConflicts(inp: ValidationInput) returns (vs: seq<Violation>)
    ensures vs == ClassConflictViolations(inp.assignments, inp.conflicts)
  {
    var asg := inp.assignments;
    vs := [];
    for i := 0 to |asg|
      invariant vs == ClassConflictViolations(asg[..i], inp.conflicts)
    {
      assert asg[..i + 1][..i] == asg[..i];
      var a := asg[i];
      if a.classId in inp.conflicts && a.day in inp.conflicts[a.classId] {
        if a.period in inp.conflicts[a.classId][a.day] {
          vs := vs + [ClassConflict(a)];
        }
      }
    }
    assert asg[..|asg|] == asg;
  }

  method ValidateTeacherAvailability(inp: ValidationInput) returns (vs: seq<Violation>)
    ensures vs == TeacherViolations(inp.assignments, inp.teacherAvailability)
  {
    var asg := inp.assignments;
    vs := [];
    for i := 0 to |asg|
      invariant vs == TeacherViolations(asg[..i], inp.teacherAvailability)
    {
      assert asg[..i + 1][..i] == asg[..i];
      var a := asg[i];
      if a.day in inp.teacherAvailability && a.period in inp.teacherAvailability[a.day] {
        vs := vs + [TeacherUnavailable(a)];
      }
    }
    assert asg[..|asg|] == asg;
  }

  // ---------------------------------------------------------------- one class per slot

  /** The test "is in slot `k`", as a function value for counting. */
  function InSlot(k: SlotKey): Assignment -> bool {
    a => SlotOf(a) == k
  }

  /** The first assignment of `asg` in slot `k`. */
  function FirstInSlot(asg: seq<Assignment>, k: SlotKey): (r: Option<Assignment>)
    ensures r.Some? ==> SlotOf(r.value) == k
  {
    if asg == [] then None
    else
      var f := FirstInSlot(asg[..|asg| - 1], k);
      if f.Some? then f
      else if SlotOf(asg[|asg| - 1]) == k then Some(asg[|asg| - 1])
      else None
  }

  /** Every assignment to an already occupied slot is reported together with the slot's first
      assignment. */
  function SlotViolations(asg: seq<Assignment>): (vs: seq<Violation>)
    ensures |vs| <= |asg|
    ensures forall i :: 0 <= i < |vs| ==> vs[i].MultipleClassesPerSlot?
  {
    if asg == [] then []
    else
      var pre, a := asg[..|asg| - 1], asg[|asg| - 1];
      SlotViolations(pre) +
        match FirstInSlot(pre, SlotOf(a))
        case Some(f) => [MultipleClassesPerSlot(f, a)]
        case None => []
  }

  method ValidateOneClassPerSlot(inp: ValidationInput) returns (vs: seq<Violation>)
    ensures vs == SlotViolations(inp.assignments)
  {
    var asg := inp.assignments;
    var slots: map<SlotKey, Assignment> := map[];
    vs := [];
    for i := 0 to |asg|
      invariant vs == SlotViolations(asg[..i])
      invariant forall k :: k in slots <==> FirstInSlot(asg[..i], k).Some?
      invariant forall k :: k in slots ==> FirstInSlot(asg[..i], k) == Some(slots[k])
    {
      assert asg[..i + 1][..i] == asg[..i];
      var a := asg[i];
      var k := SlotOf(a);
      if k in slots {
        vs := vs + [MultipleClassesPerSlot(slots[k], a)];
      } else {
        slots := slots[k := a];
      }
    }
    assert asg[..|asg|] == asg;
  }

  // ---------------------------------------------------------------- each class exactly once

  predicate AboutClass(v: Violation, id: string) {
    (v.ClassNotScheduled? || v.ClassScheduledMultipleTimes?) && v.classId == id
  }

  /** For each id of `keys` in order: `class_not_scheduled` if it has no assignment,
      `class_scheduled_multiple_times` with the count if it has more than one. */
  function EachOnceFor(keys: seq<string>, counts: multiset<string>): (vs: seq<Violation>)
    ensures |vs| <= |keys|
    ensures forall i :: 0 <= i < |vs| ==> vs[i].ClassNotScheduled? || vs[i].ClassScheduledMultipleTimes?
  {
    if keys == [] then []
    else
      var id := keys[|keys| - 1];
      EachOnceFor(keys[..|keys| - 1], counts) +
        if counts[id] == 0 then [ClassNotScheduled(id)]
        else if counts[id] > 1 then [ClassScheduledMultipleTimes(id, counts[id])]
        else []
  }

  /** The class ids in dictionary order, each checked against its number of assignments;
      assignments to ids that are not classes are not counted. */
  function EachClassOnceViolations(classes: seq<ClassInfo>, asg: seq<Assignment>): seq<Violation> {
    EachOnceFor(Distinct(ClassIds(classes)), multiset(AssignedIds(asg)))
  }

  /** `class_counts` after the dictionary comprehension and the counting loop: one key per class
      id in order of first appearance, counting only assignments to those ids. */
  method CountClasses(classes: seq<ClassInfo>, asg: seq<Assignment>) returns (keys: seq<string>, counts: map<string, nat>)
    ensures keys == Distinct(ClassIds(classes)) && SameKeys(keys, counts)
    ensures forall k :: k in counts ==> counts[k] == multiset(AssignedIds(asg))[k]
  {
    keys, counts := ZeroCounts(classes);
    for i := 0 to |asg|
      invariant SameKeys(keys, counts)
      invariant forall k :: k in counts ==> counts[k] == multiset(AssignedIds(asg[..i]))[k]
    {
      var id := asg[i].classId;
      ghost var counts0 := counts;
      if id in counts {
        counts := counts[id := counts[id] + 1];
      }
      CountStep(asg, i, keys, counts0, counts);
    }
    assert asg[..|asg|] == asg;
  }

  lemma CountStep(asg: seq<Assignment>, i: nat, keys: seq<string>, counts0: map<string, nat>, counts: map<string, nat>)
    requires i < |asg|
    requires SameKeys(keys, counts0)
    requires forall k :: k in counts0 ==> counts0[k] == multiset(AssignedIds(asg[..i]))[k]
    requires counts == var id := asg[i].classId; if id in counts0 then counts0[id := counts0[id] + 1] else counts0
    ensures SameKeys(keys, counts)
    ensures forall k :: k in counts ==> counts[k] == multiset(AssignedIds(asg[..i + 1]))[k]
  {
    assert asg[..i + 1][..i] == asg[..i];
    assert multiset(AssignedIds(asg[..i + 1])) == multiset(AssignedIds(asg[..i])) + multiset{asg[i].classId};
  }

  /** `{class_obj['id']: 0 for class_obj in self.classes}`. */
  method ZeroCounts(classes: seq<ClassInfo>) returns (keys: seq<string>, counts: map<string, nat>)
    ensures keys == Distinct(ClassIds(classes)) && SameKeys(keys, counts)
    ensures forall k :: k in counts ==> counts[k] == 0
  {
    keys, counts := [], map[];
    for i := 0 to |classes|
      invariant keys == Distinct(ClassIds(classes[..i]))
      invariant SameKeys(keys, counts)
      invariant forall k :: k in counts ==> counts[k] == 0
    {
      var id := classes[i].id;
      ghost var keys0, counts0 := keys, counts;
      if id !in counts {
        keys := keys + [id];
      }
      counts := counts[id := 0];
      ZeroStep(classes, i, keys0, counts0, keys, counts);
    }
    assert classes[..|classes|] == classes;
  }

  lemma ZeroStep(classes: seq<ClassInfo>, i: nat, keys0: seq<string>, counts0: map<string, nat>,
                 keys: seq<string>, counts: map<string, nat>)
    requires i < |classes|
    requires keys0 == Distinct(ClassIds(classes[..i])) && SameKeys(keys0, counts0)
    requires forall k :: k in counts0 ==> counts0[k] == 0
    requires keys == if classes[i].id in counts0 then keys0 else keys0 + [classes[i].id]
    requires counts == counts0[classes[i].id := 0]
    ensures keys == Distinct(ClassIds(classes[..i + 1])) && SameKeys(keys, counts)
    ensures forall k :: k in counts ==> counts[k] == 0
  {
    var id := classes[i].id;
    assert classes[..i + 1][..i] == classes[..i];
    assert ClassIds(classes[..i + 1]) == ClassIds(classes[..i]) + [id];
    DistinctSnoc(ClassIds(classes[..i]), id);
    assert id in counts0 <==> id in keys0;
    assert SameKeys(keys, counts);
  }

  method ValidateEachClassOnce(inp: ValidationInput) returns (vs: seq<Violation>)
    ensures vs == EachClassOnceViolations(inp.classes, inp.assignments)
  {
    var keys, counts := CountClasses(inp.classes, inp.assignments);
    ghost var ms := multiset(AssignedIds(inp.assignments));
    vs := [];
    for j := 0 to |keys|
      invariant vs == EachOnceFor(keys[..j], ms)
    {
      var id := keys[j];
      var count := counts[id];
      ghost var vs0 := vs;
      if count == 0 {
        vs := vs + [ClassNotScheduled(id)];
      } else if count > 1 {
        vs := vs + [ClassScheduledMultipleTimes(id, count)];
      }
      EachOnceStep(keys, j, ms, vs0, vs);
    }
    assert keys[..|keys|] == keys;
  }

  lemma EachOnceStep(keys: seq<string>, j: nat, ms: multiset<string>, vs0: seq<Violation>, vs: seq<Violation>)
    requires j < |keys| && vs0 == EachOnceFor(keys[..j], ms)
    requires var id := keys[j];
      vs == vs0 + if ms[id] == 0 then [ClassNotScheduled(id)]
                  else if ms[id] > 1 then [ClassScheduledMultipleTimes(id, ms[id])]
                  else []
    ensures vs == EachOnceFor(keys[..j + 1], ms)
  {
    assert keys[..j + 1][..j] == keys[..j];
  }

  // ---------------------------------------------------------------- daily and weekly caps

  /** One `max_classes_per_day_exceeded` per group of `keys` holding more than `max` assignments,
      all classes together. */
  function PerDayFor(keys: seq<DayKey>, counts: multiset<DayKey>, max: int): (vs: seq<Violation>)
    ensures |vs| <= |keys|
    ensures forall i :: 0 <= i < |vs| ==> vs[i].MaxClassesPerDayExceeded? && vs[i].max == max && vs[i].count > max
  {
    if keys == [] then []
    else
      var k := keys[|keys| - 1];
      var (week, day) := SplitDayKey(k);
      PerDayFor(keys[..|keys| - 1], counts, max) +
        if counts[k] > max then [MaxClassesPerDayExceeded(day, week, counts[k], max)] else []
  }

  function MaxPerDayViolations(asg: seq<Assignment>, max: int): seq<Violation> {
    PerDayFor(Distinct(DayKeys(asg)), multiset(DayKeys(asg)), max)
  }

  /** One `max_classes_per_week_exceeded` per week of `keys` holding more than `max` assignments. */
  function PerWeekFor(keys: seq<int>, counts: multiset<int>, max: int): (vs: seq<Violation>)
    ensures |vs| <= |keys|
    ensures forall i :: 0 <= i < |vs| ==> vs[i].MaxClassesPerWeekExceeded? && vs[i].max == max && vs[i].count > max
  {
    if keys == [] then []
    else
      var w := keys[|keys| - 1];
      PerWeekFor(keys[..|keys| - 1], counts, max) +
        if counts[w] > max then [MaxClassesPerWeekExceeded(w, counts[w], max)] else []
  }

  function MaxPerWeekViolations(asg: seq<Assignment>, max: int): seq<Violation> {
    PerWeekFor(Distinct(Weeks(asg)), multiset(Weeks(asg)), max)
  }

  lemma PerDayForSnoc(keys: seq<DayKey>, j: nat, counts: multiset<DayKey>, max: int)
    requires j < |keys|
    ensures var k := keys[j];
      PerDayFor(keys[..j + 1], counts, max) == PerDayFor(keys[..j], counts, max) +
        if counts[k] > max then [MaxClassesPerDayExceeded(SplitDayKey(k).1, SplitDayKey(k).0, counts[k], max)] else []
  {
    assert keys[..j + 1][..j] == keys[..j];
  }

  lemma PerWeekForSnoc(keys: seq<int>, j: nat, counts: multiset<int>, max: int)
    requires j < |keys|
    ensures var w := keys[j];
      PerWeekFor(keys[..j + 1], counts, max) == PerWeekFor(keys[..j], counts, max) +
        if counts[w] > max then [MaxClassesPerWeekExceeded(w, counts[w], max)] else []
  {
    assert keys[..j + 1][..j] == keys[..j];
  }

  /** The `day_counts` dictionary: the groups in order of first appearance and their sizes. */
  method CountByDay(asg: seq<Assignment>) returns (keys: seq<DayKey>, counts: map<DayKey, nat>)
    ensures IsTally(DayKeys(asg), keys, counts)
  {
    keys, counts := Tally(DayKeys(asg));
  }

  method ValidateMaxClassesPerDay(inp: ValidationInput) returns (vs: seq<Violation>)
    ensures vs == MaxPerDayViolations(inp.assignments, MaxPerDay(inp.constraints))
  {
    var max := MaxPerDay(inp.constraints);
    var keys, counts := CountByDay(inp.assignments);
    ghost var ms := multiset(DayKeys(inp.assignments));
    vs := [];
    for j := 0 to |keys|
      invariant vs == PerDayFor(keys[..j], ms, max)
    {
      TallyAt(DayKeys(inp.assignments), keys, counts, j);
      PerDayForSnoc(keys, j, ms, max);
      var k := keys[j];
      var count := counts[k];
      if count > max {
        var (week, day) := SplitDayKey(k);
        vs := vs + [MaxClassesPerDayExceeded(day, week, count, max)];
      }
    }
    assert keys[..|keys|] == keys;
  }

  /** The `week_counts` dictionary: the weeks in order of first appearance and their sizes. */
  method CountByWeek(asg: seq<Assignment>) returns (keys: seq<int>, counts: map<int, nat>)
    ensures IsTally(Weeks(asg), keys, counts)
  {
    keys, counts := Tally(Weeks(asg));
  }

  method ValidateMaxClassesPerWeek(inp: ValidationInput) returns (vs: seq<Violation>)
    ensures vs == MaxPerWeekViolations(inp.assignments, MaxPerWeek(inp.constraints))
  {
    var max := MaxPerWeek(inp.constraints);
    var keys, counts := CountByWeek(inp.assignments);
    ghost var ms := multiset(Weeks(inp.assignments));
    vs := [];
    for j := 0 to |keys|
      invariant vs == PerWeekFor(keys[..j], ms, max)
    {
      TallyAt(Weeks(inp.assignments), keys, counts, j);
      PerWeekForSnoc(keys, j, ms, max);
      var w := keys[j];
      if counts[w] > max {
        vs := vs + [MaxClassesPerWeekExceeded(w, counts[w], max)];
      }
    }
    assert keys[..|keys|] == keys;
  }

  // ---------------------------------------------------------------- consecutive periods

  /** The length of the run of +1 steps of `p` that ends at index `i`. */
  function RunLen(p: seq<int>, i: nat): (n: nat)
    requires i < |p|
    ensures 1 <= n <= i + 1
  {
    if i == 0 then 1 else if p[i] == p[i - 1] + 1 then RunLen(p, i - 1) + 1 else 1
  }

  /** The first index `i` below `n` at which a +1 step makes the current run longer than `max`:
      where the validator's scan with its `consecutive_count` stops. */
  function FirstOverflow(p: seq<int>, max: int, n: nat): (r: Option<nat>)
    requires n <= |p|
    ensures r.Some? ==> 1 <= r.value < n
  {
    if n <= 1 then None
    else
      var o := FirstOverflow(p, max, n - 1);
      if o.Some? then o
      else if p[n - 1] == p[n - 2] + 1 && RunLen(p, n - 1) > max then Some(n - 1)
      else None
  }

  /** The `periods` reported for a sorted group: the run that overflowed, if any. */
  function OverflowRun(p: seq<int>, max: int): Option<seq<int>> {
    match FirstOverflow(p, max, |p|)
    case None => None
    case Some(i) => Some(p[i - RunLen(p, i) + 1..i + 1])
  }

  /** Where the scan stops, a +1 step has made the run longer than `max`. */
  lemma {:induction false} FirstOverflowFound(p: seq<int>, max: int, n: nat)
    requires n <= |p| && FirstOverflow(p, max, n).Some?
    ensures var i := FirstOverflow(p, max, n).value; p[i] == p[i - 1] + 1 && RunLen(p, i) > max
  {
    if FirstOverflow(p, max, n - 1).Some? {
      FirstOverflowFound(p, max, n - 1);
    }
  }

  lemma {:induction false} FirstOverflowStable(p: seq<int>, max: int, n: nat, m: nat)
    requires n <= m <= |p| && FirstOverflow(p, max, n).Some?
    ensures FirstOverflow(p, max, m) == FirstOverflow(p, max, n)
    decreases m
  {
    if m > n {
      FirstOverflowStable(p, max, n, m - 1);
    }
  }

  /** One step of the consecutive scan at index `i`, while no run has overflowed yet. */
  lemma ScanStep(p: seq<int>, max: int, i: nat)
    requires 1 <= i < |p| && FirstOverflow(p, max, i) == None
    ensures RunLen(p, i) == if p[i] == p[i - 1] + 1 then RunLen(p, i - 1) + 1 else 1
    ensures FirstOverflow(p, max, i + 1) == if p[i] == p[i - 1] + 1 && RunLen(p, i) > max then Some(i) else None
  {
  }

  /** A run found at index `i` is the one reported. */
  lemma ScanFound(p: seq<int>, max: int, i: nat)
    requires i < |p| && FirstOverflow(p, max, i + 1) == Some(i)
    ensures OverflowRun(p, max) == Some(p[i - RunLen(p, i) + 1..i + 1])
  {
    FirstOverflowStable(p, max, i + 1, |p|);
  }

  /** The inner loop of the consecutive check over one sorted period list: count the run of +1
      steps and stop at the first run that exceeds `max`. */
  method ScanConsecutive(p: seq<int>, max: int) returns (run: Option<seq<int>>)
    ensures run == OverflowRun(p, max)
  {
    if |p| == 0 {
      return None;
    }
    run := None;
    var count := 1;
    var i := 1;
    while i < |p|
      invariant 1 <= i <= |p|
      invariant count == RunLen(p, i - 1) && FirstOverflow(p, max, i) == None
    {
      ScanStep(p, max, i);
      if p[i] == p[i - 1] + 1 {
        count := count + 1;
        if count > max {
          ScanFound(p, max, i);
          run := Some(p[i - count + 1..i + 1]);
          return;
        }
      } else {
        count := 1;
      }
      i := i + 1;
    }
  }

  /** The report for one group with sorted periods `sorted`: at most one violation. */
  function ConsecutiveOfGroup(k: DayKey, sorted: seq<int>, max: int): (vs: seq<Violation>)
    ensures |vs| <= 1
    ensures vs != [] <==> OverflowRun(sorted, max).Some?
    ensures vs != [] ==>
      && vs[0].MaxConsecutiveClassesExceeded? && vs[0].max == max
      && (vs[0].week, vs[0].day) == SplitDayKey(k) && Some(vs[0].periods) == OverflowRun(sorted, max)
  {
    var (week, day) := SplitDayKey(k);
    match OverflowRun(sorted, max)
    case Some(run) => [MaxConsecutiveClassesExceeded(day, week, run, max)]
    case None => []
  }

  /** For each group of `keys` in order, at most one `max_consecutive_classes_exceeded`. */
  function ConsecutiveFor(keys: seq<DayKey>, asg: seq<Assignment>, max: int): (vs: seq<Violation>)
    ensures |vs| <= |keys|
    ensures forall i :: 0 <= i < |vs| ==> vs[i].MaxConsecutiveClassesExceeded? && vs[i].max == max
  {
    if keys == [] then []
    else
      var k := keys[|keys| - 1];
      ConsecutiveFor(keys[..|keys| - 1], asg, max) + ConsecutiveOfGroup(k, SortInts(PeriodsOn(asg, k)), max)
  }

  function ConsecutiveViolations(asg: seq<Assignment>, max: int): seq<Violation> {
    ConsecutiveFor(Distinct(DayKeys(asg)), asg, max)
  }

  /** `keys`/`groups` is the `day_assignments` dictionary of `asg`: the groups in order of first
      appearance and each group's periods in input order. */
  ghost predicate IsGrouping(asg: seq<Assignment>, keys: seq<DayKey>, groups: map<DayKey, seq<int>>) {
    && keys == Distinct(DayKeys(asg))
    && SameKeys(keys, groups)
    && forall k :: k in groups ==> groups[k] == PeriodsOn(asg, k)
  }

  /** One step of `if day_key not in day_assignments: day_assignments[day_key] = []` followed by
      `day_assignments[day_key].append(period)`, from `keys0`/`groups0` to `keys`/`groups`. */
  lemma GroupStep(asg: seq<Assignment>, i: nat, keys0: seq<DayKey>, groups0: map<DayKey, seq<int>>,
                  keys: seq<DayKey>, groups: map<DayKey, seq<int>>)
    requires i < |asg| && IsGrouping(asg[..i], keys0, groups0)
    requires keys == if DayKeyOf(asg[i]) in groups0 then keys0 else keys0 + [DayKeyOf(asg[i])]
    requires groups == var k := DayKeyOf(asg[i]);
      var g := if k in groups0 then groups0 else groups0[k := []]; g[k := g[k] + [asg[i].period]]
    ensures IsGrouping(asg[..i + 1], keys, groups)
  {
    var k := DayKeyOf(asg[i]);
    if k in groups0 {
      assert groups == groups0[k := groups0[k] + [asg[i].period]];
      GroupStepKnown(asg, i, keys0, groups0);
    } else {
      assert groups0[k := []][k] + [asg[i].period] == [asg[i].period];
      assert groups == groups0[k := [asg[i].period]];
      GroupStepNew(asg, i, keys0, groups0);
    }
  }

  lemma PeriodsOnSnoc(asg: seq<Assignment>, i: nat, k: DayKey)
    requires i < |asg|
    ensures PeriodsOn(asg[..i + 1], k)
      == PeriodsOn(asg[..i], k) + if DayKeyOf(asg[i]) == k then [asg[i].period] else []
  {
    assert asg[..i + 1][..i] == asg[..i];
  }

  lemma GroupStepKnown(asg: seq<Assignment>, i: nat, keys: seq<DayKey>, groups: map<DayKey, seq<int>>)
    requires i < |asg| && IsGrouping(asg[..i], keys, groups) && DayKeyOf(asg[i]) in groups
    ensures var k := DayKeyOf(asg[i]);
      IsGrouping(asg[..i + 1], keys, groups[k := groups[k] + [asg[i].period]])
  {
    var k := DayKeyOf(asg[i]);
    DayKeysSnoc(asg, i);
    DistinctSnoc(DayKeys(asg[..i]), k);
    assert k in keys;
    var g := groups[k := groups[k] + [asg[i].period]];
    assert SameKeys(keys, g);
    forall k' | k' in g ensures g[k'] == PeriodsOn(asg[..i + 1], k') {
      PeriodsOnSnoc(asg, i, k');
      if k' != k {
        assert k' in groups;
      }
    }
  }

  lemma GroupStepNew(asg: seq<Assignment>, i: nat, keys: seq<DayKey>, groups: map<DayKey, seq<int>>)
    requires i < |asg| && IsGrouping(asg[..i], keys, groups) && DayKeyOf(asg[i]) !in groups
    ensures var k := DayKeyOf(asg[i]);
      IsGrouping(asg[..i + 1], keys + [k], groups[k := [asg[i].period]])
  {
    var k := DayKeyOf(asg[i]);
    DayKeysSnoc(asg, i);
    DistinctSnoc(DayKeys(asg[..i]), k);
    assert k !in keys && k !in DayKeys(asg[..i]);
    PeriodsOnAbsent(asg[..i], k);
    var g := groups[k := [asg[i].period]];
    assert SameKeys(keys + [k], g);
    forall k' | k' in g ensures g[k'] == PeriodsOn(asg[..i + 1], k') {
      PeriodsOnSnoc(asg, i, k');
      if k' != k {
        assert k' in groups;
      }
    }
  }

  method GroupPeriodsByDay(asg: seq<Assignment>) returns (keys: seq<DayKey>, groups: map<DayKey, seq<int>>)
    ensures IsGrouping(asg, keys, groups)
  {
    keys, groups := [], map[];
    for i := 0 to |asg|
      invariant IsGrouping(asg[..i], keys, groups)
    {
      var a := asg[i];
      var k := DayKeyOf(a);
      ghost var keys0, groups0 := keys, groups;
      if k !in groups {
        groups := groups[k := []];
        keys := keys + [k];
      }
      groups := groups[k := groups[k] + [a.period]];
      GroupStep(asg, i, keys0, groups0, keys, groups);
    }
    assert asg[..|asg|] == asg;
  }

  /** The group at position `j` of a grouping holds that group's periods. */
  lemma GroupAt(asg: seq<Assignment>, keys: seq<DayKey>, groups: map<DayKey, seq<int>>, j: nat)
    requires IsGrouping(asg, keys, groups) && j < |keys|
    ensures keys[j] in groups && groups[keys[j]] == PeriodsOn(asg, keys[j])
  {
  }

  method ValidateConsecutiveClasses(inp: ValidationInput) returns (vs: seq<Violation>)
    ensures vs == ConsecutiveViolations(inp.assignments, MaxConsecutive(inp.constraints))
  {
    var max := MaxConsecutive(inp.constraints);
    var keys, groups := GroupPeriodsByDay(inp.assignments);
    vs := [];
    for j := 0 to |keys|
      invariant vs == ConsecutiveFor(keys[..j], inp.assignments, max)
    {
      ConsecutiveForStep(keys, j, inp.assignments, max);
      GroupAt(inp.assignments, keys, groups, j);
      var k := keys[j];
      var more := CheckConsecutiveGroup(k, SortInts(groups[k]), max);
      vs := vs + more;
    }
    assert keys[..|keys|] == keys;
  }

  lemma ConsecutiveForStep(keys: seq<DayKey>, j: nat, asg: seq<Assignment>, max: int)
    requires j < |keys|
    ensures ConsecutiveFor(keys[..j + 1], asg, max)
      == ConsecutiveFor(keys[..j], asg, max) + ConsecutiveOfGroup(keys[j], SortInts(PeriodsOn(asg, keys[j])), max)
  {
    assert keys[..j + 1][..j] == keys[..j];
  }

  method CheckConsecutiveGroup(k: DayKey, periods: seq<int>, max: int) returns (vs: seq<Violation>)
    ensures vs == ConsecutiveOfGroup(k, periods, max)
  {
    var run := ScanConsecutive(periods, max);
    vs := [];
    if run.Some? {
      var (week, day) := SplitDayKey(k);
      vs := [MaxConsecutiveClassesExceeded(day, week, run.value, max)];
    }
  }

  // ---------------------------------------------------------------- break after class

  /** The earlier period of every adjacent pair of `p` that differs by exactly 1, in order. */
  function StepStarts(p: seq<int>): (r: seq<int>)
    ensures |r| <= |p|
  {
    if |p| <= 1 then []
    else
      var q := p[..|p| - 1];
      StepStarts(q) + if p[|p| - 1] == p[|p| - 2] + 1 then [p[|p| - 2]] else []
  }

  /** The inner loop of the break check over one sorted period list. */
  method ScanBreaks(p: seq<int>) returns (starts: seq<int>)
    ensures starts == StepStarts(p)
  {
    starts := [];
    var i := 0;
    while i + 1 < |p|
      invariant 0 <= i && (0 < |p| ==> i < |p|)
      invariant 0 < |p| ==> starts == StepStarts(p[..i + 1])
      invariant |p| == 0 ==> starts == []
    {
      assert p[..i + 2][..i + 1] == p[..i + 1];
      if p[i + 1] == p[i] + 1 {
        starts := starts + [p[i]];
      }
      i := i + 1;
    }
    if 0 < |p| {
      assert p[..i + 1] == p;
    }
  }

  function NoBreaks(day: string, week: string, starts: seq<int>): (vs: seq<Violation>)
    ensures |vs| == |starts|
    ensures forall i :: 0 <= i < |vs| ==> vs[i] == NoBreakAfterClass(day, week, starts[i])
  {
    if starts == [] then []
    else NoBreaks(day, week, starts[..|starts| - 1]) + [NoBreakAfterClass(day, week, starts[|starts| - 1])]
  }

  /** The report for one group with sorted periods `sorted`. */
  function BreakOfGroup(k: DayKey, sorted: seq<int>): (vs: seq<Violation>)
    ensures |vs| == |StepStarts(sorted)|
    ensures forall i :: 0 <= i < |vs| ==> vs[i].NoBreakAfterClass?
  {
    var (week, day) := SplitDayKey(k);
    NoBreaks(day, week, StepStarts(sorted))
  }

  /** For each group of `keys` in order, one `no_break_after_class` per adjacent pair of its
      sorted periods that differs by 1. */
  function BreakFor(keys: seq<DayKey>, asg: seq<Assignment>): (vs: seq<Violation>)
    ensures forall i :: 0 <= i < |vs| ==> vs[i].NoBreakAfterClass?
  {
    if keys == [] then []
    else
      var k := keys[|keys| - 1];
      BreakFor(keys[..|keys| - 1], asg) + BreakOfGroup(k, SortInts(PeriodsOn(asg, k)))
  }

  function BreakViolations(asg: seq<Assignment>): seq<Violation> {
    BreakFor(Distinct(DayKeys(asg)), asg)
  }

  method ValidateBreakAfterClass(inp: ValidationInput) returns (vs: seq<Violation>)
    ensures vs == BreakViolations(inp.assignments)
  {
    var keys, groups := GroupPeriodsByDay(inp.assignments);
    vs := [];
    for j := 0 to |keys|
      invariant vs == BreakFor(keys[..j], inp.assignments)
    {
      BreakForStep(keys, j, inp.assignments);
      GroupAt(inp.assignments, keys, groups, j);
      var k := keys[j];
      var more := CheckBreakGroup(k, SortInts(groups[k]));
      vs := vs + more;
    }
    assert keys[..|keys|] == keys;
  }

  lemma BreakForStep(keys: seq<DayKey>, j: nat, asg: seq<Assignment>)
    requires j < |keys|
    ensures BreakFor(keys[..j + 1], asg)
      == BreakFor(keys[..j], asg) + BreakOfGroup(keys[j], SortInts(PeriodsOn(asg, keys[j])))
  {
    assert keys[..j + 1][..j] == keys[..j];
  }

  method CheckBreakGroup(k: DayKey, periods: seq<int>) returns (vs: seq<Violation>)
    ensures vs == BreakOfGroup(k, periods)
  {
    var (week, day) := SplitDayKey(k);
    var starts := ScanBreaks(periods);
    vs := [];
    for t := 0 to |starts|
      invariant vs == NoBreaks(day, week, starts[..t])
    {
      assert starts[..t + 1][..t] == starts[..t];
      vs := vs + [NoBreakAfterClass(day, week, starts[t])];
    }
    assert starts[..|starts|] == starts;
  }

  // ---------------------------------------------------------------- the whole validation

  /** The seven checks in fixed order, then the break check when it is required. */
  function AllViolations(inp: ValidationInput): seq<Violation> {
    var asg := inp.assignments;
    ClassConflictViolations(asg, inp.conflicts)
      + TeacherViolations(asg, inp.teacherAvailability)
      + SlotViolations(asg)
      + EachClassOnceViolations(inp.classes, asg)
      + MaxPerDayViolations(asg, MaxPerDay(inp.constraints))
      + MaxPerWeekViolations(asg, MaxPerWeek(inp.constraints))
      + ConsecutiveViolations(asg, MaxConsecutive(inp.constraints))
      + (if BreakRequired(inp.constraints) then BreakViolations(asg) else [])
  }

  method Validate(inp: ValidationInput) returns (r: ValidationResult)
    ensures r.violations == AllViolations(inp)
    ensures r.valid <==> r.violations == []
    ensures r.numAssignments == |inp.assignments| && r.numClasses == |inp.classes|
  {
    var v1 := ValidateClassConflicts(inp);
    var v2 := ValidateTeacherAvailability(inp);
    var v3 := ValidateOneClassPerSlot(inp);
    var v4 := ValidateEachClassOnce(inp);
    var v5 := ValidateMaxClassesPerDay(inp);
    var v6 := ValidateMaxClassesPerWeek(inp);
    var v7 := ValidateConsecutiveClasses(inp);
    var v8: seq<Violation> := [];
    if BreakRequired(inp.constraints) {
      v8 := ValidateBreakAfterClass(inp);
    }
    var violations := v1 + v2 + v3 + v4 + v5 + v6 + v7 + v8;
    r := ValidationResult(|violations| == 0, violations, |inp.assignments|, |inp.classes|);
  }
}
