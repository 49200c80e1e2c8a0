/**
 * The class-conflict grid: five weekdays by periods 1..8, each cell showing whether the class is
 * blocked there and forwarding clicks to the owner of the conflict list.
 */
module ConflictGrid {
  import opened Wrappers
  import Days

  /** The blocked periods of a class on one day (`DailyConflicts`). */
  datatype DailyConflicts = DailyConflicts(day: string, periods: seq<int>)

  /** `conflicts.find(c => c.day === day)`: the first entry for `day`. */
  function FindDay(cs: seq<DailyConflicts>, day: string): (r: Option<DailyConflicts>)
    ensures r.None? <==> forall i :: 0 <= i < |cs| ==> cs[i].day != day
    ensures r.Some? ==> r.value.day == day
  {
    if cs == [] then None
    else if cs[0].day == day then Some(cs[0])
    else FindDay(cs[1..], day)
  }

  /** The entry found is the one at the first index holding `day`. */
  lemma {:induction false} FindDayFirst(cs: seq<DailyConflicts>, day: string) returns (i: nat)
    requires FindDay(cs, day).Some?
    ensures i < |cs| && cs[i] == FindDay(cs, day).value
    ensures forall j :: 0 <= j < i ==> cs[j].day != day
  {
    if cs[0].day == day {
      i := 0;
    } else {
      var k := FindDayFirst(cs[1..], day);
      i := k + 1;
      forall j | 0 <= j < i ensures cs[j].day != day {
        if j > 0 { assert cs[j] == cs[1..][j - 1]; }
      }
    }
  }

  /** `isBlocked(day, period)`: the first entry for the day lists the period; false when the
      day has no entry. */
  function IsBlocked(cs: seq<DailyConflicts>, day: string, period: int): (b: bool)
    ensures (forall i :: 0 <= i < |cs| ==> cs[i].day != day) ==> !b
  {
    match FindDay(cs, day)
    case Some(dc) => period in dc.periods
    case None => false
  }

  /** No two entries share a day. */
  predicate DaysDistinct(cs: seq<DailyConflicts>) {
    forall i, j :: 0 <= i < j < |cs| ==> cs[i].day != cs[j].day
  }

  /** Some entry for `day` lists `period`. */
  predicate HasBlock(cs: seq<DailyConflicts>, day: string, period: int) {
    exists c :: c in cs && c.day == day && period in c.periods
  }

  /** With one entry per day the first-entry lookup agrees with looking at every entry. */
  lemma IsBlockedIffHasBlock(cs: seq<DailyConflicts>, day: string, period: int)
    requires DaysDistinct(cs)
    ensures IsBlocked(cs, day, period) <==> HasBlock(cs, day, period)
  {
    if HasBlock(cs, day, period) {
      var c :| c in cs && c.day == day && period in c.periods;
      var i :| 0 <= i < |cs| && cs[i] == c;
      var k := FindDayFirst(cs, day);
      assert k == i;
    }
    if IsBlocked(cs, day, period) {
      var k := FindDayFirst(cs, day);
      assert cs[k] in cs && cs[k].day == day && period in cs[k].periods;
    }
  }

  /** The grid's columns and rows. */
  const GridDays: seq<string> := [Days.Name(Days.MONDAY), Days.Name(Days.TUESDAY), Days.Name(Days.WEDNESDAY),
                                  Days.Name(Days.THURSDAY), Days.Name(Days.FRIDAY)]
  const PeriodCount: nat := 8

  /** The toggle request a cell's click forwards. */
  datatype Toggle = Toggle(day: string, period: int)

  /** The cells in render order: period by period, the five days within each, every cell
      carrying the (day, period) its click forwards. */
  function Cells(): (cells: seq<Toggle>)
    ensures |cells| == 5 * PeriodCount
    ensures forall i :: 0 <= i < |cells| ==> cells[i] == Toggle(GridDays[i % 5], i / 5 + 1)
  {
    seq(5 * PeriodCount, i requires 0 <= i < 5 * PeriodCount => Toggle(GridDays[i % 5], i / 5 + 1))
  }

  /** Every (weekday, period 1..8) pair is exactly one cell. */
  lemma CellsCoverGrid(d: nat, p: int)
    requires d < 5 && 1 <= p <= PeriodCount
    ensures var i := (p - 1) * 5 + d; 0 <= i < |Cells()| && Cells()[i] == Toggle(GridDays[d], p)
    ensures forall i :: 0 <= i < |Cells()| && Cells()[i] == Toggle(GridDays[d], p) ==> i == (p - 1) * 5 + d
  {
    var i := (p - 1) * 5 + d;
    assert i % 5 == d && i / 5 == p - 1;
    forall j | 0 <= j < |Cells()| && Cells()[j] == Toggle(GridDays[d], p) ensures j == i {
      assert GridDays[j % 5] == GridDays[d];
      assert j % 5 == d;
      assert j / 5 + 1 == p;
    }
  }

  /** The blocked flag of every cell: a function of the `conflicts` prop alone. */
  function CellFlags(cs: seq<DailyConflicts>): (flags: seq<bool>)
    ensures |flags| == |Cells()|
    ensures forall i :: 0 <= i < |flags| ==> flags[i] == IsBlocked(cs, Cells()[i].day, Cells()[i].period)
  {
    var cells := Cells();
    seq(|cells|, i requires 0 <= i < |cells| => IsBlocked(cs, cells[i].day, cells[i].period))
  }
}
