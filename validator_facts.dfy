/**
 * What the schedule validator's reports mean. The validator's methods are proved equal to the
 * specification functions of `SolutionValidator`; the lemmas here relate those functions to
 * independent descriptions of the rules: how many reports a slot, a class, a group or a week
 * receives, when a run of consecutive periods is reported, and how the optional break check
 * relates to the others.
 */
module ValidatorFacts {
  import opened Wrappers
  import opened Seqs
  import opened JsText
  import opened Days
  import opened SolutionValidator

  // ---------------------------------------------------------------- which report is about what

  function ReportsSlot(k: SlotKey): Violation -> bool {
    (v: Violation) => v.MultipleClassesPerSlot? && SlotOf(v.second) == k
  }

  function ReportsClass(id: string): Violation -> bool {
    v => AboutClass(v, id)
  }

  function ReportsDay(k: DayKey): Violation -> bool {
    (v: Violation) => v.MaxClassesPerDayExceeded? && (v.week, v.day) == SplitDayKey(k)
  }

  function ReportsWeek(w: int): Violation -> bool {
    (v: Violation) => v.MaxClassesPerWeekExceeded? && v.weekNumber == w
  }

  function ReportsConsecutive(k: DayKey): Violation -> bool {
    (v: Violation) => v.MaxConsecutiveClassesExceeded? && (v.week, v.day) == SplitDayKey(k)
  }

  function ReportsBreak(k: DayKey): Violation -> bool {
    (v: Violation) => v.NoBreakAfterClass? && (v.week, v.day) == SplitDayKey(k)
  }

  predicate IsBreakReport(v: Violation) {
    v.NoBreakAfterClass?
  }

  /** The `week`/`day` fields of a grouped report identify its group. */
  lemma SplitDayKeyInjective(k1: DayKey, k2: DayKey)
    requires SplitDayKey(k1) == SplitDayKey(k2)
    ensures k1 == k2
  {
    IntToStringInjective(k1.week, k2.week);
    NameInjective(k1.day, k2.day);
  }

  // ---------------------------------------------------------------- the whole validation

  /** The break check contributes the only `no_break_after_class` reports, and it contributes
      them exactly when breaks are required. */
  lemma BreakReportsOnlyWhenRequired(inp: ValidationInput)
    ensures Filter(AllViolations(inp), IsBreakReport)
      == if BreakRequired(inp.constraints) then BreakViolations(inp.assignments) else []
  {
    var asg := inp.assignments;
    var v1 := ClassConflictViolations(asg, inp.conflicts);
    var v2 := TeacherViolations(asg, inp.teacherAvailability);
    var v3 := SlotViolations(asg);
    var v4 := EachClassOnceViolations(inp.classes, asg);
    var v5 := MaxPerDayViolations(asg, MaxPerDay(inp.constraints));
    var v6 := MaxPerWeekViolations(asg, MaxPerWeek(inp.constraints));
    var v7 := ConsecutiveViolations(asg, MaxConsecutive(inp.constraints));
    var v8 := if BreakRequired(inp.constraints) then BreakViolations(asg) else [];
    FilterNone(v1, IsBreakReport);
    FilterNone(v2, IsBreakReport);
    FilterNone(v3, IsBreakReport);
    FilterNone(v4, IsBreakReport);
    FilterNone(v5, IsBreakReport);
    FilterNone(v6, IsBreakReport);
    FilterNone(v7, IsBreakReport);
    FilterAll(v8, IsBreakReport);
    FilterAppend(v1, v2, IsBreakReport);
    FilterAppend(v1 + v2, v3, IsBreakReport);
    FilterAppend(v1 + v2 + v3, v4, IsBreakReport);
    FilterAppend(v1 + v2 + v3 + v4, v5, IsBreakReport);
    FilterAppend(v1 + v2 + v3 + v4 + v5, v6, IsBreakReport);
    FilterAppend(v1 + v2 + v3 + v4 + v5 + v6, v7, IsBreakReport);
    FilterAppend(v1 + v2 + v3 + v4 + v5 + v6 + v7, v8, IsBreakReport);
  }

  // ---------------------------------------------------------------- one class per slot

  /** The first assignment of a slot is one of the assignments, and there is one exactly when the
      slot is occupied. */
  lemma {:induction false} FirstInSlotFacts(asg: seq<Assignment>, k: SlotKey)
    ensures FirstInSlot(asg, k).Some? ==> FirstInSlot(asg, k).value in asg
    ensures FirstInSlot(asg, k).None? <==> Count(asg, InSlot(k)) == 0
  {
    if asg != [] {
      FirstInSlotFacts(asg[..|asg| - 1], k);
    }
  }

  /** A slot holding n assignments is reported n - 1 times (none when it is empty): every
      assignment after the first is paired with the first. */
  lemma {:induction false} SlotViolationCount(asg: seq<Assignment>, k: SlotKey)
    ensures var n := Count(asg, InSlot(k));
      Count(SlotViolations(asg), ReportsSlot(k)) == if n == 0 then 0 else n - 1
  {
    if asg != [] {
      var pre, a := asg[..|asg| - 1], asg[|asg| - 1];
      SlotViolationCount(pre, k);
      FirstInSlotFacts(pre, k);
      var extra: seq<Violation> := match FirstInSlot(pre, SlotOf(a))
        case Some(f) => [MultipleClassesPerSlot(f, a)]
        case None => [];
      assert SlotViolations(asg) == SlotViolations(pre) + extra;
      CountAppendSmall(SlotViolations(pre), extra, ReportsSlot(k));
    }
  }

  /** A one-class-per-slot report pairs two assignments of the same slot, the first of them being
      the slot's first assignment. */
  lemma {:induction false} SlotReportsPairFirst(asg: seq<Assignment>, v: Violation)
    requires v in SlotViolations(asg)
    ensures v.MultipleClassesPerSlot?
    ensures FirstInSlot(asg, SlotOf(v.second)) == Some(v.first)
    ensures v.first in asg && v.second in asg
    ensures SlotOf(v.first) == SlotOf(v.second)
  {
    var pre, a := asg[..|asg| - 1], asg[|asg| - 1];
    var extra: seq<Violation> := match FirstInSlot(pre, SlotOf(a))
      case Some(f) => [MultipleClassesPerSlot(f, a)]
      case None => [];
    assert SlotViolations(asg) == SlotViolations(pre) + extra;
    if v in SlotViolations(pre) {
      SlotReportsPairFirst(pre, v);
      assert pre <= asg;
    } else {
      FirstInSlotFacts(pre, SlotOf(a));
      assert v == MultipleClassesPerSlot(FirstInSlot(pre, SlotOf(a)).value, a);
    }
  }

  // ---------------------------------------------------------------- each class exactly once

  lemma {:induction false} EachOnceForCount(keys: seq<string>, counts: multiset<string>, id: string)
    requires NoDup(keys)
    ensures Count(EachOnceFor(keys, counts), ReportsClass(id)) == if id in keys && counts[id] != 1 then 1 else 0
  {
    if keys != [] {
      var pre, last := keys[..|keys| - 1], keys[|keys| - 1];
      NoDupInit(keys, id);
      EachOnceForCount(pre, counts, id);
      var extra: seq<Violation> :=
        if counts[last] == 0 then [ClassNotScheduled(last)]
        else if counts[last] > 1 then [ClassScheduledMultipleTimes(last, counts[last])]
        else [];
      CountAppendSmall(EachOnceFor(pre, counts), extra, ReportsClass(id));
      if id != last && extra != [] {
        assert extra[0].classId == last;
      }
    }
  }

  /** Every each-once report is about a listed id: `class_not_scheduled` when it has no count,
      `class_scheduled_multiple_times` with its count when that is more than one. */
  lemma {:induction false} EachOnceKinds(keys: seq<string>, counts: multiset<string>, v: Violation)
    requires v in EachOnceFor(keys, counts)
    ensures v.ClassNotScheduled? ==> v.classId in keys && counts[v.classId] == 0
    ensures v.ClassScheduledMultipleTimes? ==>
      v.classId in keys && counts[v.classId] > 1 && v.count == counts[v.classId]
  {
    var pre, last := keys[..|keys| - 1], keys[|keys| - 1];
    var extra: seq<Violation> :=
      if counts[last] == 0 then [ClassNotScheduled(last)]
      else if counts[last] > 1 then [ClassScheduledMultipleTimes(last, counts[last])]
      else [];
    assert EachOnceFor(keys, counts) == EachOnceFor(pre, counts) + extra;
    if v in EachOnceFor(pre, counts) {
      EachOnceKinds(pre, counts, v);
      assert pre <= keys;
    }
  }

  /** A listed id with no count, or with more than one, is reported with that kind and count. */
  lemma {:induction false} EachOnceReportsId(keys: seq<string>, counts: multiset<string>, id: string)
    requires id in keys
    ensures counts[id] == 0 ==> ClassNotScheduled(id) in EachOnceFor(keys, counts)
    ensures counts[id] > 1 ==> ClassScheduledMultipleTimes(id, counts[id]) in EachOnceFor(keys, counts)
  {
    var pre, last := keys[..|keys| - 1], keys[|keys| - 1];
    var extra: seq<Violation> :=
      if counts[last] == 0 then [ClassNotScheduled(last)]
      else if counts[last] > 1 then [ClassScheduledMultipleTimes(last, counts[last])]
      else [];
    assert EachOnceFor(keys, counts) == EachOnceFor(pre, counts) + extra;
    if id != last {
      assert id in pre;
      EachOnceReportsId(pre, counts, id);
    }
  }

  /** Each class receives at most one each-once report: exactly one when it has no assignment
      or more than one, none when it has exactly one. The report is `class_not_scheduled` for no
      assignment and `class_scheduled_multiple_times` with the count for more than one, and every
      report names a class with that many assignments. */
  lemma EachClassOnceReports(classes: seq<ClassInfo>, asg: seq<Assignment>, id: string)
    ensures var n := Count(EachClassOnceViolations(classes, asg), ReportsClass(id));
      && n <= 1
      && (n == 1 <==> id in ClassIds(classes) && multiset(AssignedIds(asg))[id] != 1)
    ensures var c := multiset(AssignedIds(asg));
      && (id in ClassIds(classes) && c[id] == 0 ==> ClassNotScheduled(id) in EachClassOnceViolations(classes, asg))
      && (id in ClassIds(classes) && c[id] > 1 ==>
            ClassScheduledMultipleTimes(id, c[id]) in EachClassOnceViolations(classes, asg))
    ensures forall v :: v in EachClassOnceViolations(classes, asg) ==>
      v.classId in ClassIds(classes)
      && (v.ClassNotScheduled? ==> multiset(AssignedIds(asg))[v.classId] == 0)
      && (v.ClassScheduledMultipleTimes? ==>
            multiset(AssignedIds(asg))[v.classId] > 1 && v.count == multiset(AssignedIds(asg))[v.classId])
  {
    var keys, c := Distinct(ClassIds(classes)), multiset(AssignedIds(asg));
    EachOnceForCount(keys, c, id);
    if id in ClassIds(classes) {
      EachOnceReportsId(keys, c, id);
    }
    forall v | v in EachClassOnceViolations(classes, asg)
      ensures v.classId in ClassIds(classes)
      ensures v.ClassNotScheduled? ==> c[v.classId] == 0
      ensures v.ClassScheduledMultipleTimes? ==> c[v.classId] > 1 && v.count == c[v.classId]
    {
      EachOnceKinds(keys, c, v);
    }
  }

  lemma {:induction false} EachOnceForFrame(keys: seq<string>, c1: multiset<string>, c2: multiset<string>)
    requires forall k :: k in keys ==> c1[k] == c2[k]
    ensures EachOnceFor(keys, c1) == EachOnceFor(keys, c2)
  {
    if keys != [] {
      EachOnceForFrame(keys[..|keys| - 1], c1, c2);
    }
  }

  /** The each-once reports depend only on the counts of the listed classes' ids: assignments to
      ids that are not classes make no difference. */
  lemma EachClassOnceOnlyKnownIds(classes: seq<ClassInfo>, asg1: seq<Assignment>, asg2: seq<Assignment>)
    requires forall id :: id in ClassIds(classes) ==>
      multiset(AssignedIds(asg1))[id] == multiset(AssignedIds(asg2))[id]
    ensures EachClassOnceViolations(classes, asg1) == EachClassOnceViolations(classes, asg2)
  {
    EachOnceForFrame(Distinct(ClassIds(classes)), multiset(AssignedIds(asg1)), multiset(AssignedIds(asg2)));
  }

  lemma UnknownClassIgnored(classes: seq<ClassInfo>, asg: seq<Assignment>, a: Assignment)
    requires a.classId !in ClassIds(classes)
    ensures EachClassOnceViolations(classes, asg + [a]) == EachClassOnceViolations(classes, asg)
  {
    assert (asg + [a])[..|asg|] == asg;
    assert multiset(AssignedIds(asg + [a])) == multiset(AssignedIds(asg)) + multiset{a.classId};
    EachClassOnceOnlyKnownIds(classes, asg + [a], asg);
  }

  // ---------------------------------------------------------------- daily and weekly caps

  lemma {:induction false} PerDayForCount(keys: seq<DayKey>, counts: multiset<DayKey>, max: int, k: DayKey)
    requires NoDup(keys)
    ensures Count(PerDayFor(keys, counts, max), ReportsDay(k)) == if k in keys && counts[k] > max then 1 else 0
  {
    if keys != [] {
      var pre, last := keys[..|keys| - 1], keys[|keys| - 1];
      NoDupInit(keys, k);
      PerDayForCount(pre, counts, max, k);
      var (week, day) := SplitDayKey(last);
      var extra: seq<Violation> := if counts[last] > max then [MaxClassesPerDayExceeded(day, week, counts[last], max)] else [];
      CountAppendSmall(PerDayFor(pre, counts, max), extra, ReportsDay(k));
      if extra != [] && ReportsDay(k)(extra[0]) {
        SplitDayKeyInjective(k, last);
      }
    }
  }

  /** A (week, day) group is reported once when its assignments, all classes together, number
      more than the daily cap, and otherwise not at all. */
  lemma MaxPerDayReports(asg: seq<Assignment>, max: int, k: DayKey)
    ensures Count(MaxPerDayViolations(asg, max), ReportsDay(k))
      == if k in DayKeys(asg) && multiset(DayKeys(asg))[k] > max then 1 else 0
  {
    PerDayForCount(Distinct(DayKeys(asg)), multiset(DayKeys(asg)), max, k);
  }

  lemma {:induction false} PerDayForMonotone(keys: seq<DayKey>, counts: multiset<DayKey>, m1: int, m2: int)
    requires m1 <= m2
    ensures |PerDayFor(keys, counts, m2)| <= |PerDayFor(keys, counts, m1)|
  {
    if keys != [] {
      PerDayForMonotone(keys[..|keys| - 1], counts, m1, m2);
    }
  }

  /** Raising the daily cap never adds a report: no group gains one and there are no more in
      total. */
  lemma MaxPerDayMonotone(asg: seq<Assignment>, m1: int, m2: int)
    requires m1 <= m2
    ensures |MaxPerDayViolations(asg, m2)| <= |MaxPerDayViolations(asg, m1)|
    ensures forall k :: Count(MaxPerDayViolations(asg, m2), ReportsDay(k)) <= Count(MaxPerDayViolations(asg, m1), ReportsDay(k))
  {
    PerDayForMonotone(Distinct(DayKeys(asg)), multiset(DayKeys(asg)), m1, m2);
    forall k ensures Count(MaxPerDayViolations(asg, m2), ReportsDay(k)) <= Count(MaxPerDayViolations(asg, m1), ReportsDay(k)) {
      MaxPerDayReports(asg, m1, k);
      MaxPerDayReports(asg, m2, k);
    }
  }

  lemma {:induction false} PerWeekForCount(keys: seq<int>, counts: multiset<int>, max: int, w: int)
    requires NoDup(keys)
    ensures Count(PerWeekFor(keys, counts, max), ReportsWeek(w)) == if w in keys && counts[w] > max then 1 else 0
  {
    if keys != [] {
      var pre, last := keys[..|keys| - 1], keys[|keys| - 1];
      NoDupInit(keys, w);
      PerWeekForCount(pre, counts, max, w);
      var extra: seq<Violation> := if counts[last] > max then [MaxClassesPerWeekExceeded(last, counts[last], max)] else [];
      CountAppendSmall(PerWeekFor(pre, counts, max), extra, ReportsWeek(w));
    }
  }

  /** A week is reported once when its assignments number more than the weekly cap. */
  lemma MaxPerWeekReports(asg: seq<Assignment>, max: int, w: int)
    ensures Count(MaxPerWeekViolations(asg, max), ReportsWeek(w))
      == if w in Weeks(asg) && multiset(Weeks(asg))[w] > max then 1 else 0
  {
    PerWeekForCount(Distinct(Weeks(asg)), multiset(Weeks(asg)), max, w);
  }

  lemma {:induction false} PerWeekForMonotone(keys: seq<int>, counts: multiset<int>, m1: int, m2: int)
    requires m1 <= m2
    ensures |PerWeekFor(keys, counts, m2)| <= |PerWeekFor(keys, counts, m1)|
  {
    if keys != [] {
      PerWeekForMonotone(keys[..|keys| - 1], counts, m1, m2);
    }
  }

  /** Raising the weekly cap never adds a report. */
  lemma MaxPerWeekMonotone(asg: seq<Assignment>, m1: int, m2: int)
    requires m1 <= m2
    ensures |MaxPerWeekViolations(asg, m2)| <= |MaxPerWeekViolations(asg, m1)|
    ensures forall w :: Count(MaxPerWeekViolations(asg, m2), ReportsWeek(w)) <= Count(MaxPerWeekViolations(asg, m1), ReportsWeek(w))
  {
    PerWeekForMonotone(Distinct(Weeks(asg)), multiset(Weeks(asg)), m1, m2);
    forall w ensures Count(MaxPerWeekViolations(asg, m2), ReportsWeek(w)) <= Count(MaxPerWeekViolations(asg, m1), ReportsWeek(w)) {
      MaxPerWeekReports(asg, m1, w);
      MaxPerWeekReports(asg, m2, w);
    }
  }

  // ---------------------------------------------------------------- runs of consecutive periods

  /** The value at index `t` of `p` is one more than the value before it. */
  predicate StepAt(p: seq<int>, t: int) {
    1 <= t < |p| && p[t] == p[t - 1] + 1
  }

  /** `p[i..j+1]` is a run of at least two values, each one more than the one before. */
  ghost predicate IsStepRun(p: seq<int>, i: int, j: int) {
    0 <= i < j < |p| && forall t :: i < t <= j ==> StepAt(p, t)
  }

  /** `p[e+1-len..e+1]` is such a run, of length `len`, ending at index `e`. */
  ghost predicate RunEndsAt(p: seq<int>, len: int, e: int) {
    len <= e + 1 && IsStepRun(p, e + 1 - len, e)
  }

  /** `p` holds a run of consecutive values of length at least 2 and greater than `max`. */
  ghost predicate HasLongRun(p: seq<int>, max: int) {
    exists i, j :: IsStepRun(p, i, j) && j - i + 1 > max
  }

  /** The run counted by `RunLen` is a run of +1 steps. */
  lemma {:induction false} RunLenSteps(p: seq<int>, i: nat)
    requires i < |p|
    ensures forall t :: i - RunLen(p, i) + 1 < t <= i ==> StepAt(p, t)
  {
    if i > 0 && p[i] == p[i - 1] + 1 {
      RunLenSteps(p, i - 1);
    }
  }

  /** `RunLen` sees at least every run that ends at `j`. */
  lemma {:induction false} RunLenAtLeast(p: seq<int>, i: int, j: nat)
    requires 0 <= i <= j < |p|
    requires forall t :: i < t <= j ==> StepAt(p, t)
    ensures RunLen(p, j) >= j - i + 1
  {
    if j > i {
      RunLenAtLeast(p, i, j - 1);
      assert StepAt(p, j);
    }
  }

  lemma {:induction false} FirstOverflowNone(p: seq<int>, max: int, n: nat)
    requires n <= |p| && FirstOverflow(p, max, n) == None
    ensures forall t :: 1 <= t < n ==> !(StepAt(p, t) && RunLen(p, t) > max)
  {
    if n > 1 {
      FirstOverflowNone(p, max, n - 1);
    }
  }

  lemma {:induction false} FirstOverflowIsFirst(p: seq<int>, max: int, n: nat)
    requires n <= |p| && FirstOverflow(p, max, n).Some?
    ensures FirstOverflow(p, max, FirstOverflow(p, max, n).value) == None
  {
    if FirstOverflow(p, max, n - 1).Some? {
      FirstOverflowIsFirst(p, max, n - 1);
    }
  }

  /** The consecutive scan reports a run exactly when there is a run longer than the cap
      (and, because the count starts at 1, at least two long). */
  lemma OverflowRunIff(p: seq<int>, max: int)
    ensures OverflowRun(p, max).Some? <==> HasLongRun(p, max)
  {
    match FirstOverflow(p, max, |p|)
    case Some(i) =>
      FirstOverflowFound(p, max, |p|);
      RunLenSteps(p, i);
      assert IsStepRun(p, i - RunLen(p, i) + 1, i);
    case None =>
      FirstOverflowNone(p, max, |p|);
      if HasLongRun(p, max) {
        var i, j :| IsStepRun(p, i, j) && j - i + 1 > max;
        RunLenAtLeast(p, i, j);
      }
  }

  /** The reported periods: `max + 1` consecutive values (two when `max < 1`), the slice of `p`
      that ends at index `j`, the first index at which such a run is complete. */
  lemma OverflowRunShape(p: seq<int>, max: int) returns (j: nat)
    requires OverflowRun(p, max).Some?
    ensures var r := OverflowRun(p, max).value;
      && |r| == (if max >= 1 then max + 1 else 2)
      && |r| <= j + 1 <= |p|
      && r == p[j + 1 - |r|..j + 1]
      && RunEndsAt(p, |r|, j)
      && forall e :: 0 <= e < j ==> !RunEndsAt(p, |r|, e)
  {
    j := FirstOverflow(p, max, |p|).value;
    OverflowLength(p, max, j);
    RunLenSteps(p, j);
    NoEarlierRun(p, max, j);
  }

  /** At the first overflow the run has just grown past `max`, so it is `max + 1` long, or 2
      when `max < 1`. */
  lemma OverflowLength(p: seq<int>, max: int, j: nat)
    requires FirstOverflow(p, max, |p|) == Some(j)
    ensures RunLen(p, j) == if max >= 1 then max + 1 else 2
  {
    FirstOverflowFound(p, max, |p|);
    FirstOverflowIsFirst(p, max, |p|);
    FirstOverflowNone(p, max, j);
    assert RunLen(p, j) == RunLen(p, j - 1) + 1;
    if j - 1 >= 1 && p[j - 1] == p[j - 2] + 1 {
      assert RunLen(p, j - 1) <= max;
    } else {
      assert RunLen(p, j - 1) == 1;
    }
  }

  /** No run of that length ends before the first overflow. */
  lemma NoEarlierRun(p: seq<int>, max: int, j: nat)
    requires FirstOverflow(p, max, |p|) == Some(j)
    ensures forall e :: 0 <= e < j ==> !RunEndsAt(p, RunLen(p, j), e)
  {
    FirstOverflowFound(p, max, |p|);
    FirstOverflowIsFirst(p, max, |p|);
    FirstOverflowNone(p, max, j);
    var n := RunLen(p, j);
    forall e | 0 <= e < j ensures !RunEndsAt(p, n, e) {
      if RunEndsAt(p, n, e) {
        RunLenAtLeast(p, e + 1 - n, e);
      }
    }
  }

  lemma {:induction false} ConsecutiveForCount(keys: seq<DayKey>, asg: seq<Assignment>, max: int, k: DayKey)
    requires NoDup(keys)
    ensures Count(ConsecutiveFor(keys, asg, max), ReportsConsecutive(k))
      == if k in keys && OverflowRun(SortInts(PeriodsOn(asg, k)), max).Some? then 1 else 0
  {
    if keys != [] {
      var pre, last := keys[..|keys| - 1], keys[|keys| - 1];
      NoDupInit(keys, k);
      ConsecutiveForCount(pre, asg, max, k);
      var extra := ConsecutiveOfGroup(last, SortInts(PeriodsOn(asg, last)), max);
      CountAppendSmall(ConsecutiveFor(pre, asg, max), extra, ReportsConsecutive(k));
      if k != last && extra != [] && ReportsConsecutive(k)(extra[0]) {
        SplitDayKeyInjective(k, last);
      }
    }
  }

  /** Each (week, day) group gets at most one consecutive report, and gets one exactly when its
      sorted periods hold a run of consecutive values longer than the cap. */
  lemma ConsecutiveReports(asg: seq<Assignment>, max: int, k: DayKey)
    ensures Count(ConsecutiveViolations(asg, max), ReportsConsecutive(k)) <= 1
    ensures Count(ConsecutiveViolations(asg, max), ReportsConsecutive(k)) == 1
      <==> HasLongRun(SortInts(PeriodsOn(asg, k)), max)
  {
    ConsecutiveForCount(Distinct(DayKeys(asg)), asg, max, k);
    OverflowRunIff(SortInts(PeriodsOn(asg, k)), max);
    if k !in DayKeys(asg) {
      PeriodsOnAbsent(asg, k);
      assert !IsStepRun([], 0, 1);
    }
  }

  // ---------------------------------------------------------------- break after class

  lemma {:induction false} BreakForCount(keys: seq<DayKey>, asg: seq<Assignment>, k: DayKey)
    requires NoDup(keys)
    ensures Count(BreakFor(keys, asg), ReportsBreak(k))
      == if k in keys then |StepStarts(SortInts(PeriodsOn(asg, k)))| else 0
  {
    if keys != [] {
      var pre, last := keys[..|keys| - 1], keys[|keys| - 1];
      NoDupInit(keys, k);
      BreakForCount(pre, asg, k);
      var extra := BreakOfGroup(last, SortInts(PeriodsOn(asg, last)));
      CountAppend(BreakFor(pre, asg), extra, ReportsBreak(k));
      BreakOfGroupCount(last, SortInts(PeriodsOn(asg, last)), k);
    }
  }

  /** The reports of one group are all about that group. */
  lemma BreakOfGroupCount(last: DayKey, sorted: seq<int>, k: DayKey)
    ensures Count(BreakOfGroup(last, sorted), ReportsBreak(k)) == if k == last then |StepStarts(sorted)| else 0
  {
    var extra := BreakOfGroup(last, sorted);
    var (week, day) := SplitDayKey(last);
    assert forall i :: 0 <= i < |extra| ==> extra[i] == NoBreakAfterClass(day, week, StepStarts(sorted)[i]);
    if k == last {
      CountAll(extra, ReportsBreak(k));
    } else {
      if extra != [] && ReportsBreak(k)(extra[0]) {
        SplitDayKeyInjective(k, last);
      }
      CountNone(extra, ReportsBreak(k));
    }
  }

  /** With breaks required, a (week, day) group gets one report per adjacent pair of its sorted
      periods that differ by exactly 1. */
  lemma BreakReports(asg: seq<Assignment>, k: DayKey)
    ensures Count(BreakViolations(asg), ReportsBreak(k)) == |StepStarts(SortInts(PeriodsOn(asg, k)))|
  {
    BreakForCount(Distinct(DayKeys(asg)), asg, k);
    if k !in DayKeys(asg) {
      PeriodsOnAbsent(asg, k);
    }
  }

  /** `StepStarts` is empty exactly when no adjacent pair differs by 1. */
  lemma {:induction false} StepStartsEmpty(p: seq<int>)
    ensures StepStarts(p) == [] <==> NoAdjacent(p)
  {
    if |p| > 1 {
      var q := p[..|p| - 1];
      StepStartsEmpty(q);
      assert forall t :: 0 <= t < |q| ==> StepAt(q, t) == StepAt(p, t);
      assert StepAt(p, |p| - 1) <==> p[|p| - 1] == p[|p| - 2] + 1;
    }
  }

  /** A list has a +1 step exactly when it has a run longer than 1. */
  lemma StepIffRunOverOne(p: seq<int>)
    ensures StepStarts(p) == [] <==> OverflowRun(p, 1).None?
  {
    StepStartsEmpty(p);
    OverflowRunIff(p, 1);
    if StepStarts(p) != [] {
      var t :| 0 <= t < |p| && StepAt(p, t);
      assert IsStepRun(p, t - 1, t);
    }
    if HasLongRun(p, 1) {
      var i, j :| IsStepRun(p, i, j) && j - i + 1 > 1;
      assert StepAt(p, i + 1);
    }
  }

  lemma {:induction false} BreakForEmptyIff(keys: seq<DayKey>, asg: seq<Assignment>)
    ensures BreakFor(keys, asg) == [] <==> ConsecutiveFor(keys, asg, 1) == []
  {
    if keys != [] {
      var pre, last := keys[..|keys| - 1], keys[|keys| - 1];
      BreakForEmptyIff(pre, asg);
      StepIffRunOverOne(SortInts(PeriodsOn(asg, last)));
    }
  }

  /** The break check finds nothing exactly when the consecutive check with a cap of 1 finds
      nothing. */
  lemma BreakIffConsecutiveOne(asg: seq<Assignment>)
    ensures BreakViolations(asg) == [] <==> ConsecutiveViolations(asg, 1) == []
  {
    BreakForEmptyIff(Distinct(DayKeys(asg)), asg);
  }

  // ---------------------------------------------------------------- when a check finds nothing

  /** Group `k` of `asg` holds no run the consecutive check reports. */
  predicate ConsecutiveClear(asg: seq<Assignment>, max: int, k: DayKey) {
    OverflowRun(SortInts(PeriodsOn(asg, k)), max).None?
  }

  /** Group `k` of `asg` holds no pair the break check reports. */
  predicate BreakClear(asg: seq<Assignment>, k: DayKey) {
    StepStarts(SortInts(PeriodsOn(asg, k))) == []
  }

  lemma {:induction false} ConsecutiveForEmpty(keys: seq<DayKey>, asg: seq<Assignment>, max: int)
    ensures ConsecutiveFor(keys, asg, max) == [] <==> forall k :: k in keys ==> ConsecutiveClear(asg, max, k)
  {
    if keys != [] {
      var pre, last := keys[..|keys| - 1], keys[|keys| - 1];
      ConsecutiveForEmpty(pre, asg, max);
      var g := ConsecutiveOfGroup(last, SortInts(PeriodsOn(asg, last)), max);
      assert ConsecutiveFor(keys, asg, max) == ConsecutiveFor(pre, asg, max) + g;
      assert g == [] <==> ConsecutiveClear(asg, max, last);
      assert ConsecutiveFor(keys, asg, max) == [] <==> ConsecutiveFor(pre, asg, max) == [] && g == [];
      assert forall k :: k in keys <==> k in pre || k == last;
    }
  }

  lemma {:induction false} BreakForEmpty(keys: seq<DayKey>, asg: seq<Assignment>)
    ensures BreakFor(keys, asg) == [] <==> forall k :: k in keys ==> BreakClear(asg, k)
  {
    if keys != [] {
      var pre, last := keys[..|keys| - 1], keys[|keys| - 1];
      BreakForEmpty(pre, asg);
      var g := BreakOfGroup(last, SortInts(PeriodsOn(asg, last)));
      assert BreakFor(keys, asg) == BreakFor(pre, asg) + g;
      assert g == [] <==> BreakClear(asg, last);
      assert BreakFor(keys, asg) == [] <==> BreakFor(pre, asg) == [] && g == [];
      assert forall k :: k in keys <==> k in pre || k == last;
    }
  }

  /** Without consecutive reports, no group has a run longer than the cap. */
  lemma NoConsecutiveReportsSound(asg: seq<Assignment>, max: int, k: DayKey)
    requires ConsecutiveViolations(asg, max) == [] && k in DayKeys(asg)
    ensures !HasLongRun(SortInts(PeriodsOn(asg, k)), max)
  {
    ConsecutiveForEmpty(Distinct(DayKeys(asg)), asg, max);
    assert k in Distinct(DayKeys(asg));
    OverflowRunIff(SortInts(PeriodsOn(asg, k)), max);
  }

  /** A consecutive report means some group has a run longer than the cap. */
  lemma ConsecutiveReportWitness(asg: seq<Assignment>, max: int) returns (k: DayKey)
    requires ConsecutiveViolations(asg, max) != []
    ensures k in DayKeys(asg) && HasLongRun(SortInts(PeriodsOn(asg, k)), max)
  {
    var keys := Distinct(DayKeys(asg));
    ConsecutiveForEmpty(keys, asg, max);
    k :| k in keys && !ConsecutiveClear(asg, max, k);
    OverflowRunIff(SortInts(PeriodsOn(asg, k)), max);
  }

  /** The consecutive check finds nothing exactly when no (week, day) group has a run longer
      than the cap. */
  lemma NoConsecutiveReports(asg: seq<Assignment>, max: int)
    ensures ConsecutiveViolations(asg, max) == []
      <==> forall k :: k in DayKeys(asg) ==> !HasLongRun(SortInts(PeriodsOn(asg, k)), max)
  {
    if ConsecutiveViolations(asg, max) == [] {
      forall k | k in DayKeys(asg) ensures !HasLongRun(SortInts(PeriodsOn(asg, k)), max) {
        NoConsecutiveReportsSound(asg, max, k);
      }
    } else {
      var k := ConsecutiveReportWitness(asg, max);
    }
  }


  /** No two values of `p` that are next to each other differ by exactly 1. */
  predicate NoAdjacent(p: seq<int>) {
    forall t :: 0 <= t < |p| ==> !StepAt(p, t)
  }

  /** Without break reports, no group has two adjacent sorted periods differing by 1. */
  lemma NoBreakReportsSound(asg: seq<Assignment>, k: DayKey)
    requires BreakViolations(asg) == [] && k in DayKeys(asg)
    ensures NoAdjacent(SortInts(PeriodsOn(asg, k)))
  {
    BreakForEmpty(Distinct(DayKeys(asg)), asg);
    assert k in Distinct(DayKeys(asg));
    StepStartsEmpty(SortInts(PeriodsOn(asg, k)));
  }

  /** A break report means some group has two adjacent sorted periods differing by 1. */
  lemma BreakReportWitness(asg: seq<Assignment>) returns (k: DayKey)
    requires BreakViolations(asg) != []
    ensures k in DayKeys(asg) && !NoAdjacent(SortInts(PeriodsOn(asg, k)))
  {
    var keys := Distinct(DayKeys(asg));
    BreakForEmpty(keys, asg);
    k :| k in keys && !BreakClear(asg, k);
    StepStartsEmpty(SortInts(PeriodsOn(asg, k)));
  }

  /** The break check finds nothing exactly when no (week, day) group has two adjacent sorted
      periods differing by 1. */
  lemma NoBreakReports(asg: seq<Assignment>)
    ensures BreakViolations(asg) == [] <==> forall k :: k in DayKeys(asg) ==> NoAdjacent(SortInts(PeriodsOn(asg, k)))
  {
    if BreakViolations(asg) == [] {
      forall k | k in DayKeys(asg) ensures NoAdjacent(SortInts(PeriodsOn(asg, k))) {
        NoBreakReportsSound(asg, k);
      }
    } else {
      var k := BreakReportWitness(asg);
    }
  }

}
