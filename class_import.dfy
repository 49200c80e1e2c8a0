/**
 * The parsing half of the class import of the backend class service: the uploaded text is
 * trimmed and split into lines, the first line is skipped, and every further line becomes one
 * class whose grade is read from its name and whose conflicts are the non-empty weekday cells.
 * The database transaction that stores the classes is not modelled.
 */
module ClassImport {
  import opened Wrappers
  import opened JsText
  import opened Days

  /** `{ day, periods }`: `periods` holds `parseInt(p)` of each piece, `NaN` included. */
  datatype ImportedConflict = ImportedConflict(day: Day, periods: seq<JsNumber>)

  /** `ClassCreate`: the name, the grade level (a JavaScript number) and the conflicts. */
  datatype ClassCreate = ClassCreate(name: string, gradeLevel: JsNumber, conflicts: seq<ImportedConflict>)

  /** `parseInt(className.match(/\d+/)?.[0] || '0')`; `parseInt('0')` is 0. */
  function GradeLevel(name: string): JsNumber {
    match FirstDigitRun(name)
    case Some(run) => ParseInt(run, false)
    case None => Num(0)
  }

  /** The grade is the value of the first run of digits in the name, or 0 when there is none. */
  lemma GradeLevelValue(name: string)
    ensures GradeLevel(name) == Num(match FirstDigitRun(name) case Some(run) => DigitsValue(run) case None => 0)
    ensures (exists k :: 0 <= k < |name| && IsDigit(name[k])) <==> FirstDigitRun(name).Some?
  {
    if FirstDigitRun(name).Some? {
      var run := FirstDigitRun(name).value;
      ParseIntDigitsAnyRadix(run);
      ParseIntDigits(run);
    }
  }

  /** `periodsStr.split(';').map(p => parseInt(p))`. */
  function PeriodsOf(cell: string): (ps: seq<JsNumber>)
    ensures |ps| == |Split(cell, ';')|
  {
    var parts := Split(cell, ';');
    seq(|parts|, i requires 0 <= i < |parts| => ParseInt(parts[i], false))
  }

  /** The conflict pushed for the weekday at position `index` of the line's fields, if any:
      `row[index + 1]` must exist and be non-empty. */
  function ConflictAt(fields: seq<string>, index: nat): seq<ImportedConflict>
    requires index < |Weekdays|
  {
    if index + 1 < |fields| && fields[index + 1] != "" then
      [ImportedConflict(Weekdays[index], PeriodsOf(fields[index + 1]))]
    else []
  }

  /** The conflicts pushed for the first `n` weekdays. */
  function ConflictsUpTo(fields: seq<string>, n: nat): (cs: seq<ImportedConflict>)
    requires n <= |Weekdays|
    ensures |cs| <= n
  {
    if n == 0 then [] else ConflictsUpTo(fields, n - 1) + ConflictAt(fields, n - 1)
  }

  /** The class of one line after the header. */
  function ClassOfLine(line: string): ClassCreate {
    var fields := Split(line, ',');
    ClassCreate(fields[0], GradeLevel(fields[0]), ConflictsUpTo(fields, |Weekdays|))
  }

  /** `csvData.trim().split('\n')`. */
  function Lines(csv: string): seq<string> {
    Split(Trim(csv), '\n')
  }

  /** The classes `importClassesFromCSV(csvData)` hands to the transaction. */
  function ImportedClasses(csv: string): seq<ClassCreate> {
    ClassesOfLines(Lines(csv), |Lines(csv)|)
  }

  /** The classes of `rows[1..n]`, one per line, the header line `rows[0]` skipped. */
  function ClassesOfLines(rows: seq<string>, n: nat): (cs: seq<ClassCreate>)
    requires n <= |rows|
    ensures |cs| == if n == 0 then 0 else n - 1
  {
    if n <= 1 then [] else ClassesOfLines(rows, n - 1) + [ClassOfLine(rows[n - 1])]
  }

  /** `ClassesOfLines` holds the class of each line after the header, in line order. */
  lemma {:induction false} ClassesOfLinesAt(rows: seq<string>, n: nat)
    requires n <= |rows|
    ensures forall k :: 0 <= k < |ClassesOfLines(rows, n)| ==> ClassesOfLines(rows, n)[k] == ClassOfLine(rows[k + 1])
  {
    if n > 1 {
      ClassesOfLinesAt(rows, n - 1);
      var front := ClassesOfLines(rows, n - 1);
      var cs := ClassesOfLines(rows, n);
      assert cs == front + [ClassOfLine(rows[n - 1])];
      forall k | 0 <= k < |cs|
        ensures cs[k] == ClassOfLine(rows[k + 1])
      {
        if k < |front| {
          assert cs[k] == front[k];
        }
      }
    }
  }

  /** The `forEach` over the weekdays of one line. */
  method BuildConflicts(fields: seq<string>) returns (conflicts: seq<ImportedConflict>)
    ensures conflicts == ConflictsUpTo(fields, |Weekdays|)
  {
    conflicts := [];
    for index := 0 to |Weekdays|
      invariant conflicts == ConflictsUpTo(fields, index)
    {
      if index + 1 < |fields| {
        var periodsStr := fields[index + 1];
        if periodsStr != "" {
          var periods := PeriodsOf(periodsStr);
          conflicts := conflicts + [ImportedConflict(Weekdays[index], periods)];
        }
      }
    }
  }

  /** The parsing loop of `importClassesFromCSV`. */
  method ImportClassesFromCsv(csv: string) returns (classes: seq<ClassCreate>)
    ensures classes == ImportedClasses(csv)
  {
    var rows := Split(Trim(csv), '\n');
    classes := [];
    for i := 1 to |rows|
      invariant classes == ClassesOfLines(rows, i)
    {
      var created := ImportLine(rows[i]);
      classes := classes + [created];
    }
  }

  /** The body of the loop of `importClassesFromCSV` for one line. */
  method ImportLine(line: string) returns (created: ClassCreate)
    ensures created == ClassOfLine(line)
  {
    var row := Split(line, ',');
    var className := row[0];
    var gradeLevel := GradeLevel(className);
    var conflicts := BuildConflicts(row);
    created := ClassCreate(className, gradeLevel, conflicts);
  }

  /** One class per line after the first: as many classes as line breaks in the trimmed text,
      each named by a comma-free field. */
  lemma ImportedCount(csv: string)
    ensures |ImportedClasses(csv)| == multiset(Trim(csv))['\n']
  {
    SplitCount(Trim(csv), '\n');
    ClassesOfLinesAt(Lines(csv), |Lines(csv)|);
  }

  /** Each class is named by the first comma-separated field of its line, which holds no comma. */
  lemma ImportedNames(csv: string, k: nat)
    requires k < |ImportedClasses(csv)|
    ensures ImportedClasses(csv)[k].name == Split(Lines(csv)[k + 1], ',')[0]
    ensures ',' !in ImportedClasses(csv)[k].name
  {
    ClassesOfLinesAt(Lines(csv), |Lines(csv)|);
  }

  /** The conflict of one weekday, if any, is for that day and lists the periods of its cell. */
  lemma ConflictAtFacts(fields: seq<string>, index: nat)
    requires index < |Weekdays|
    ensures var c := ConflictAt(fields, index);
      && (c != [] <==> index + 1 < |fields| && fields[index + 1] != "")
      && (c != [] ==> |c| == 1 && DayIndex(c[0].day) == index && c[0].periods == PeriodsOf(fields[index + 1]))
  {
    DayIndexOfWeekday(index);
  }

  /** A conflict is for one of the first `n` weekdays, whose cell exists, is non-empty and gives
      the conflict's periods. */
  predicate CellOfConflict(fields: seq<string>, c: ImportedConflict, n: nat) {
    var k := DayIndex(c.day);
    k < n && k + 1 < |fields| && fields[k + 1] != "" && c.periods == PeriodsOf(fields[k + 1])
  }

  /** The conflicts of the first `n` weekdays come strictly in weekday order, each for one of those
      days, with an existing non-empty cell whose periods it lists. */
  lemma ConflictsUpToFacts(fields: seq<string>, n: nat)
    requires n <= |Weekdays|
    ensures forall i :: 0 <= i < |ConflictsUpTo(fields, n)| ==>
      CellOfConflict(fields, ConflictsUpTo(fields, n)[i], n)
    ensures forall i, j :: 0 <= i < j < |ConflictsUpTo(fields, n)| ==>
      DayIndex(ConflictsUpTo(fields, n)[i].day) < DayIndex(ConflictsUpTo(fields, n)[j].day)
  {
    ConflictsUpToCells(fields, n);
    ConflictsUpToOrdered(fields, n);
  }

  lemma {:induction false} ConflictsUpToCells(fields: seq<string>, n: nat)
    requires n <= |Weekdays|
    ensures forall i :: 0 <= i < |ConflictsUpTo(fields, n)| ==>
      CellOfConflict(fields, ConflictsUpTo(fields, n)[i], n)
  {
    if n > 0 {
      ConflictsUpToCells(fields, n - 1);
      ConflictAtFacts(fields, n - 1);
      var front := ConflictsUpTo(fields, n - 1);
      var c := ConflictAt(fields, n - 1);
      var cs := ConflictsUpTo(fields, n);
      assert cs == front + c;
      forall i | 0 <= i < |cs|
        ensures CellOfConflict(fields, cs[i], n)
      {
        if i < |front| {
          assert cs[i] == front[i] && CellOfConflict(fields, front[i], n - 1);
        } else {
          assert cs[i] == c[0];
        }
      }
    }
  }

  lemma {:induction false} ConflictsUpToOrdered(fields: seq<string>, n: nat)
    requires n <= |Weekdays|
    ensures forall i, j :: 0 <= i < j < |ConflictsUpTo(fields, n)| ==>
      DayIndex(ConflictsUpTo(fields, n)[i].day) < DayIndex(ConflictsUpTo(fields, n)[j].day)
  {
    if n > 0 {
      ConflictsUpToOrdered(fields, n - 1);
      ConflictsUpToCells(fields, n - 1);
      ConflictAtFacts(fields, n - 1);
      var front := ConflictsUpTo(fields, n - 1);
      var c := ConflictAt(fields, n - 1);
      var cs := ConflictsUpTo(fields, n);
      assert cs == front + c;
      forall i, j | 0 <= i < j < |cs|
        ensures DayIndex(cs[i].day) < DayIndex(cs[j].day)
      {
        assert cs[i] == front[i] && CellOfConflict(fields, front[i], n - 1);
        if j < |front| {
          assert cs[j] == front[j];
        } else {
          assert cs[j] == c[0];
        }
      }
    }
  }

  /** Every weekday with a non-empty cell among the first `n` has a conflict. */
  lemma {:induction false} ConflictsUpToComplete(fields: seq<string>, n: nat, d: Day) returns (i: nat)
    requires n <= |Weekdays| && DayIndex(d) < n
    requires DayIndex(d) + 1 < |fields| && fields[DayIndex(d) + 1] != ""
    ensures i < |ConflictsUpTo(fields, n)| && ConflictsUpTo(fields, n)[i].day == d
  {
    var front := ConflictsUpTo(fields, n - 1);
    var c := ConflictAt(fields, n - 1);
    assert ConflictsUpTo(fields, n) == front + c;
    if DayIndex(d) == n - 1 {
      ConflictAtFacts(fields, n - 1);
      i := |front|;
    } else {
      i := ConflictsUpToComplete(fields, n - 1, d);
    }
  }

  /** A class has at most five conflicts, in strict weekday order. */
  lemma ClassConflictOrder(line: string)
    ensures |ClassOfLine(line).conflicts| <= 5
    ensures forall i, j :: 0 <= i < j < |ClassOfLine(line).conflicts| ==>
      DayIndex(ClassOfLine(line).conflicts[i].day) < DayIndex(ClassOfLine(line).conflicts[j].day)
  {
    ConflictsUpToFacts(Split(line, ','), |Weekdays|);
  }

  /** A class has a conflict on a weekday exactly when the line's cell for that day exists and is
      non-empty, and that conflict lists the periods of the cell. */
  lemma ClassConflictDay(line: string, d: Day)
    ensures (exists i :: 0 <= i < |ClassOfLine(line).conflicts| && ClassOfLine(line).conflicts[i].day == d)
      <==> DayIndex(d) + 1 < |Split(line, ',')| && Split(line, ',')[DayIndex(d) + 1] != ""
    ensures forall i :: 0 <= i < |ClassOfLine(line).conflicts| && ClassOfLine(line).conflicts[i].day == d ==>
      CellOfConflict(Split(line, ','), ClassOfLine(line).conflicts[i], |Weekdays|)
  {
    var fields := Split(line, ',');
    var cs := ConflictsUpTo(fields, |Weekdays|);
    assert ClassOfLine(line).conflicts == cs;
    ConflictsUpToFacts(fields, |Weekdays|);
    if DayIndex(d) + 1 < |fields| && fields[DayIndex(d) + 1] != "" {
      var i := ConflictsUpToComplete(fields, |Weekdays|, d);
    }
  }

  /** The period list of a cell has one entry per `;`-separated piece. */
  lemma PeriodCount(cell: string)
    ensures |PeriodsOf(cell)| == multiset(cell)[';'] + 1
  {
    SplitCount(cell, ';');
  }

  /** A cell written as `p1;p2;…` from natural numbers reads back as those numbers. */
  lemma PeriodsOfJoin(ps: seq<nat>)
    requires ps != []
    ensures PeriodsOf(Join(seq(|ps|, i requires 0 <= i < |ps| => NatToDigits(ps[i])), ";"))
      == seq(|ps|, i requires 0 <= i < |ps| => Num(ps[i]))
  {
    var parts := seq(|ps|, i requires 0 <= i < |ps| => NatToDigits(ps[i]));
    forall i | 0 <= i < |parts|
      ensures ';' !in parts[i] && ParseInt(parts[i], false) == Num(ps[i])
    {
      NatToDigitsFacts(ps[i]);
      ParseIntDigitsAnyRadix(parts[i]);
      ParseIntDigits(parts[i]);
    }
    SplitJoin(parts, ';');
  }
}
