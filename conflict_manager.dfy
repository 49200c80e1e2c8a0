/**
 * The class-conflict editor: clicking a grid cell toggles that (day, period) in the class's list
 * of blocked periods per day and hands the new list to `onConflictsChange`.
 */
module ConflictManager {
  import opened Wrappers
  import opened Seqs
  import opened ConflictGrid

  /** Every entry for `day` loses `period` (`c.periods.filter(p => p !== period)`). */
  function RemoveOnDay(cs: seq<DailyConflicts>, day: string, period: int): (r: seq<DailyConflicts>)
    ensures |r| == |cs|
    ensures forall i :: 0 <= i < |cs| ==> r[i].day == cs[i].day
  {
    seq(|cs|, i requires 0 <= i < |cs| =>
      if cs[i].day == day then cs[i].(periods := Filter(cs[i].periods, q => q != period)) else cs[i])
  }

  /** Every entry for `day` gains `period`, then is sorted ascending. */
  function AddOnDay(cs: seq<DailyConflicts>, day: string, period: int): (r: seq<DailyConflicts>)
    ensures |r| == |cs|
    ensures forall i :: 0 <= i < |cs| ==> r[i].day == cs[i].day
  {
    seq(|cs|, i requires 0 <= i < |cs| =>
      if cs[i].day == day then cs[i].(periods := SortInts(cs[i].periods + [period])) else cs[i])
  }

  predicate HasPeriods(c: DailyConflicts) {
    |c.periods| > 0
  }

  /** `handleConflictToggle`'s updater: a day without an entry gets `{day, [period]}` at the end;
      a listed period is removed from its day and days left empty are dropped; an unlisted period
      is added to its day, keeping that day's list sorted. */
  function Toggle(cs: seq<DailyConflicts>, day: string, period: int): (r: seq<DailyConflicts>)
    ensures FindDay(cs, day).None? ==> r == cs + [DailyConflicts(day, [period])]
  {
    match FindDay(cs, day)
    case None => cs + [DailyConflicts(day, [period])]
    case Some(dc) =>
      if period in dc.periods then Filter(RemoveOnDay(cs, day, period), HasPeriods)
      else AddOnDay(cs, day, period)
  }

  /** The state update together with the callback invocations it makes: exactly one, with the
      new list. */
  function HandleToggle(cs: seq<DailyConflicts>, day: string, period: int): (out: (seq<DailyConflicts>, seq<seq<DailyConflicts>>))
    ensures out.1 == [out.0]
    ensures out.0 == Toggle(cs, day, period)
  {
    var next := Toggle(cs, day, period);
    (next, [next])
  }

  // ---------------------------------------------------------------- one entry per day

  lemma {:induction false} FilterDaysDistinct(s: seq<DailyConflicts>, p: DailyConflicts -> bool)
    requires DaysDistinct(s)
    ensures DaysDistinct(Filter(s, p))
  {
    if s != [] {
      assert DaysDistinct(s[1..]) by {
        forall i, j | 0 <= i < j < |s[1..]| ensures s[1..][i].day != s[1..][j].day {
          assert s[1..][i] == s[i + 1] && s[1..][j] == s[j + 1];
        }
      }
      FilterDaysDistinct(s[1..], p);
      var t := Filter(s[1..], p);
      if p(s[0]) {
        forall c | c in t ensures c.day != s[0].day {
          var k :| 0 <= k < |s[1..]| && s[1..][k] == c;
          assert s[k + 1] == c;
        }
        var r := Filter(s, p);
        assert r == [s[0]] + t;
        forall i, j | 0 <= i < j < |r| ensures r[i].day != r[j].day {
          assert r[j] == t[j - 1];
          if i > 0 { assert r[i] == t[i - 1]; }
          else { assert t[j - 1] in t; }
        }
      }
    }
  }

  /** A toggle keeps at most one entry per day. */
  lemma ToggleKeepsDaysDistinct(cs: seq<DailyConflicts>, day: string, period: int)
    requires DaysDistinct(cs)
    ensures DaysDistinct(Toggle(cs, day, period))
  {
    match FindDay(cs, day)
    case None =>
    case Some(dc) =>
      if period in dc.periods {
        FilterDaysDistinct(RemoveOnDay(cs, day, period), HasPeriods);
      }
  }

  // ---------------------------------------------------------------- what a toggle changes

  lemma ToggleNewDayBlocks(cs: seq<DailyConflicts>, day: string, period: int, d: string, p: int)
    requires FindDay(cs, day).None?
    ensures HasBlock(Toggle(cs, day, period), d, p) <==> HasBlock(cs, d, p) || (d == day && p == period)
  {
    var r := Toggle(cs, day, period);
    if d == day && p == period {
      assert r[|cs|] in r;
    }
    if HasBlock(r, d, p) {
      var c :| c in r && c.day == d && p in c.periods;
      if c !in cs { assert c == DailyConflicts(day, [period]); }
    }
  }

  lemma ToggleRemoveBlocks(cs: seq<DailyConflicts>, day: string, period: int, d: string, p: int)
    ensures HasBlock(Filter(RemoveOnDay(cs, day, period), HasPeriods), d, p)
      <==> HasBlock(cs, d, p) && !(d == day && p == period)
  {
    var m := RemoveOnDay(cs, day, period);
    var r := Filter(m, HasPeriods);
    if HasBlock(r, d, p) {
      var c :| c in r && c.day == d && p in c.periods;
      var i :| 0 <= i < |m| && m[i] == c;
      assert cs[i] in cs;
    }
    if HasBlock(cs, d, p) && !(d == day && p == period) {
      var c :| c in cs && c.day == d && p in c.periods;
      var i :| 0 <= i < |cs| && cs[i] == c;
      assert p in m[i].periods;
      assert m[i] in m && HasPeriods(m[i]);
    }
  }

  /** The periods of one entry after `AddOnDay`. */
  lemma AddOnDayAt(cs: seq<DailyConflicts>, day: string, period: int, i: nat, p: int)
    requires i < |cs|
    ensures p in AddOnDay(cs, day, period)[i].periods <==> p in cs[i].periods || (cs[i].day == day && p == period)
  {
    if cs[i].day == day {
      SortIntsFacts(cs[i].periods + [period]);
      assert p in SortInts(cs[i].periods + [period]) <==> p in multiset(cs[i].periods + [period]);
    }
  }

  lemma ToggleAddBlocksFrom(cs: seq<DailyConflicts>, day: string, period: int, d: string, p: int)
    requires HasBlock(AddOnDay(cs, day, period), d, p)
    ensures HasBlock(cs, d, p) || (d == day && p == period)
  {
    var r := AddOnDay(cs, day, period);
    var c :| c in r && c.day == d && p in c.periods;
    var i :| 0 <= i < |r| && r[i] == c;
    AddOnDayAt(cs, day, period, i, p);
    assert cs[i] in cs;
  }

  lemma ToggleAddBlocksTo(cs: seq<DailyConflicts>, day: string, period: int, d: string, p: int)
    requires FindDay(cs, day).Some?
    requires HasBlock(cs, d, p) || (d == day && p == period)
    ensures HasBlock(AddOnDay(cs, day, period), d, p)
  {
    var i: nat;
    if HasBlock(cs, d, p) {
      var c :| c in cs && c.day == d && p in c.periods;
      i :| i < |cs| && cs[i] == c;
    } else {
      i := FindDayFirst(cs, day);
    }
    AddOnDayAt(cs, day, period, i, p);
    assert AddOnDay(cs, day, period)[i] in AddOnDay(cs, day, period);
  }

  lemma ToggleAddBlocks(cs: seq<DailyConflicts>, day: string, period: int, d: string, p: int)
    requires FindDay(cs, day).Some?
    ensures HasBlock(AddOnDay(cs, day, period), d, p) <==> HasBlock(cs, d, p) || (d == day && p == period)
  {
    if HasBlock(AddOnDay(cs, day, period), d, p) {
      ToggleAddBlocksFrom(cs, day, period, d, p);
    }
    if HasBlock(cs, d, p) || (d == day && p == period) {
      ToggleAddBlocksTo(cs, day, period, d, p);
    }
  }

  /** With one entry per day, a toggle flips the blocked state of its own cell and of no other,
      and the grid's display follows. */
  lemma ToggleFlips(cs: seq<DailyConflicts>, day: string, period: int, d: string, p: int)
    requires DaysDistinct(cs)
    ensures IsBlocked(Toggle(cs, day, period), d, p)
      == if d == day && p == period then !IsBlocked(cs, d, p) else IsBlocked(cs, d, p)
  {
    ToggleKeepsDaysDistinct(cs, day, period);
    IsBlockedIffHasBlock(cs, d, p);
    IsBlockedIffHasBlock(cs, day, period);
    IsBlockedIffHasBlock(Toggle(cs, day, period), d, p);
    match FindDay(cs, day)
    case None =>
      ToggleNewDayBlocks(cs, day, period, d, p);
    case Some(dc) =>
      if period in dc.periods {
        ToggleRemoveBlocks(cs, day, period, d, p);
      } else {
        ToggleAddBlocks(cs, day, period, d, p);
      }
  }

  /** With one entry per day, the toggle a grid cell forwards flips that cell's blocked flag and
      the flag of no other cell. */
  lemma ToggleFlipsOneCell(cs: seq<DailyConflicts>, d: nat, p: int)
    requires DaysDistinct(cs) && d < 5 && 1 <= p <= PeriodCount
    ensures var before, after := CellFlags(cs), CellFlags(Toggle(cs, GridDays[d], p));
      && |after| == |before|
      && forall i :: 0 <= i < |after| ==> (after[i] != before[i] <==> i == (p - 1) * 5 + d)
  {
    CellsCoverGrid(d, p);
    var before, after := CellFlags(cs), CellFlags(Toggle(cs, GridDays[d], p));
    forall i | 0 <= i < |after| ensures after[i] != before[i] <==> i == (p - 1) * 5 + d {
      ToggleFlips(cs, GridDays[d], p, Cells()[i].day, Cells()[i].period);
    }
  }

  /** Adding a period to an existing day leaves that day's list sorted ascending and one
      element longer. */
  lemma ToggleAddSorted(cs: seq<DailyConflicts>, day: string, period: int, i: nat)
    requires FindDay(cs, day).Some? && period !in FindDay(cs, day).value.periods
    requires i < |cs| && cs[i].day == day
    ensures var ps := Toggle(cs, day, period)[i].periods;
      && multiset(ps) == multiset(cs[i].periods) + multiset{period}
      && forall a, b :: 0 <= a < b < |ps| ==> ps[a] <= ps[b]
  {
    SortIntsFacts(cs[i].periods + [period]);
  }

  /** Removal drops every day whose list became empty. */
  lemma ToggleRemoveDropsEmpty(cs: seq<DailyConflicts>, day: string, period: int)
    requires FindDay(cs, day).Some? && period in FindDay(cs, day).value.periods
    ensures forall c :: c in Toggle(cs, day, period) ==> c.periods != []
  {
  }
}
