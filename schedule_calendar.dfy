/**
 * The cell helpers of the schedule calendar: which assignments a (day, period) cell of the
 * current week shows, which conflicts belong to an assignment, and when a cell is marked.
 */
module ScheduleCalendar {
  import opened Wrappers
  import opened Seqs
  import opened ScheduleTypes

  /** `!selectedGrade || classGrades[a.classId] === selectedGrade`: no filter when the grade is
      absent or 0 (falsy); otherwise the class must be listed with exactly that grade. */
  predicate GradeShown(grades: map<string, int>, classId: string, selected: Option<int>) {
    selected == None || selected == Some(0) || (classId in grades && Some(grades[classId]) == selected)
  }

  predicate InCell(a: Assignment, day: string, period: int, week: int, grades: map<string, int>, selected: Option<int>) {
    a.day == day && a.period == period && a.week == week && GradeShown(grades, a.classId, selected)
  }

  /** `getAssignmentsForCell`: the assignments of the cell, in input order. */
  function AssignmentsForCell(asg: seq<Assignment>, day: string, period: int, week: int,
                              grades: map<string, int>, selected: Option<int>): (r: seq<Assignment>)
    ensures forall a :: a in r <==> a in asg && InCell(a, day, period, week, grades, selected)
  {
    Filter(asg, a => InCell(a, day, period, week, grades, selected))
  }

  /** Each cell keeps the input order: it is a subsequence of the assignments. */
  lemma CellIsSubsequence(asg: seq<Assignment>, day: string, period: int, week: int,
                          grades: map<string, int>, selected: Option<int>)
    ensures IsSubsequence(AssignmentsForCell(asg, day, period, week, grades, selected), asg)
  {
    FilterIsSubsequence(asg, a => InCell(a, day, period, week, grades, selected));
  }

  /** The conflict concerns the assignment's class, day and period; its week plays no part. */
  predicate ConflictOf(c: Conflict, a: Assignment) {
    c.classId == a.classId && c.day == a.day && c.period == a.period
  }

  /** `getConflictsForAssignment`. */
  function ConflictsForAssignment(cs: seq<Conflict>, a: Assignment): (r: seq<Conflict>)
    ensures forall c :: c in r <==> c in cs && ConflictOf(c, a)
  {
    Filter(cs, c => ConflictOf(c, a))
  }

  /** Assignments that differ only in their week share their conflicts. */
  lemma ConflictsIgnoreWeek(cs: seq<Conflict>, a: Assignment, w: int)
    ensures ConflictsForAssignment(cs, a) == ConflictsForAssignment(cs, a.(week := w))
  {
    var a' := a.(week := w);
    FilterCongruent(cs, c => ConflictOf(c, a), c => ConflictOf(c, a'));
  }

  /** `assignments.some(a => getConflictsForAssignment(a).length > 0 || assignments.length > 1)`
      over the elements from index `i` on. */
  function SomeMarked(cs: seq<Conflict>, cell: seq<Assignment>, i: nat): (b: bool)
    requires i <= |cell|
    ensures b <==> exists j :: i <= j < |cell| && (ConflictsForAssignment(cs, cell[j]) != [] || |cell| > 1)
    decreases |cell| - i
  {
    if i == |cell| then false
    else ConflictsForAssignment(cs, cell[i]) != [] || |cell| > 1 || SomeMarked(cs, cell, i + 1)
  }

  /** `hasConflicts(cell)`: never for an empty cell; for a non-empty one exactly when it holds
      more than one assignment or one of them has a conflict. */
  function CellHasConflicts(cs: seq<Conflict>, cell: seq<Assignment>): (b: bool)
    ensures cell == [] ==> !b
    ensures cell != [] ==> (b <==> |cell| > 1 || exists j :: 0 <= j < |cell| && ConflictsForAssignment(cs, cell[j]) != [])
  {
    SomeMarked(cs, cell, 0)
  }
}
