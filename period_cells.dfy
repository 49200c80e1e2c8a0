/**
 * The period cells of the conflicts CSV read by the solver's pytest suite: each of the five day
 * cells after the class name holds nothing, one period, or periods separated by `;` or `,`.
 */
module PeriodCells {
  import opened Wrappers
  import opened JsText
  import opened Days

  // ---------------------------------------------------------------- Python's int()

  /** Python's `str.isspace()` for one character. */
  predicate PyIsSpace(c: char) {
    || ('\t' <= c <= '\r') || ('\U{001C}' <= c <= '\U{001F}') || c == ' ' || c == '\U{0085}'
    || c == '\U{00A0}' || c == '\U{1680}' || ('\U{2000}' <= c <= '\U{200A}')
    || c == '\U{2028}' || c == '\U{2029}' || c == '\U{202F}' || c == '\U{205F}' || c == '\U{3000}'
  }

  /** `s.strip()`. */
  function PyStrip(s: string): (r: string)
    ensures |r| <= |s|
    ensures r == [] || (!PyIsSpace(r[0]) && !PyIsSpace(r[|r| - 1]))
  {
    if s != [] && PyIsSpace(s[0]) then PyStrip(s[1..])
    else if s != [] && PyIsSpace(s[|s| - 1]) then PyStrip(s[..|s| - 1])
    else s
  }

  lemma StripUnpadded(s: string)
    requires s != [] && !PyIsSpace(s[0]) && !PyIsSpace(s[|s| - 1])
    ensures PyStrip(s) == s
  {
  }

  /** `int(s)` on a string: surrounding white space, one optional sign and at least one ASCII
      digit; anything else raises `ValueError` (`None`). */
  function PyInt(s: string): (r: Option<int>)
    ensures r.Some? ==> PyStrip(s) != []
  {
    var t := PyStrip(s);
    var signed := t != [] && (t[0] == '-' || t[0] == '+');
    var ds := if signed then t[1..] else t;
    if ds != [] && AllDigits(ds) then
      var v: int := DigitsValue(ds);
      Some(if signed && t[0] == '-' then -v else v)
    else None
  }

  /** `int(str(n)) == n`. */
  lemma PyIntOfString(n: int)
    ensures PyInt(IntToString(n)) == Some(n)
  {
    var s := IntToString(n);
    var ds := NatToDigits(if n < 0 then -n else n);
    NatToDigitsFacts(if n < 0 then -n else n);
    assert s == if n < 0 then "-" + ds else ds;
    assert IsDigit(ds[|ds| - 1]) && s[|s| - 1] == ds[|ds| - 1];
    StripUnpadded(s);
    if n < 0 {
      assert s[1..] == ds;
    }
  }

  // ---------------------------------------------------------------- one cell

  /** What a period cell contributes to the class's conflicts. */
  datatype CellParse = NoEntry | Periods(periods: seq<int>) | ValueError

  /** `[int(p.strip()) for p in parts]`, `None` when one of them raises. */
  function ParseAll(parts: seq<string>): Option<seq<int>> {
    if forall i :: 0 <= i < |parts| ==> PyInt(parts[i]).Some? then
      Some(seq(|parts|, i requires 0 <= i < |parts| => PyInt(parts[i]).GetOr(0)))
    else None
  }

  /** One cell of `row[1:6]`: empty adds no entry; a cell holding `;` is split on `;`, else one
      holding `,` on `,`, else it is a single number. */
  function ParseCell(cell: string): (r: CellParse)
    ensures r.NoEntry? <==> cell == ""
    ensures ';' in cell ==> r == if ParseAll(Split(cell, ';')).Some? then Periods(ParseAll(Split(cell, ';')).value) else ValueError
    ensures ';' !in cell && ',' in cell ==> r == if ParseAll(Split(cell, ',')).Some? then Periods(ParseAll(Split(cell, ',')).value) else ValueError
  {
    if cell == "" then NoEntry
    else
      var parts := if ';' in cell then Split(cell, ';') else if ',' in cell then Split(cell, ',') else [cell];
      var ps := ParseAll(parts);
      if ps.Some? then Periods(ps.value) else ValueError
  }

  /** A cell parses to one more number than it has separators of the kind it is split on. */
  lemma ParseCellCount(cell: string)
    requires ParseCell(cell).Periods?
    ensures |ParseCell(cell).periods| == 1 + if ';' in cell then multiset(cell)[';'] else multiset(cell)[',']
  {
    if ';' in cell {
      SplitCount(cell, ';');
    } else if ',' in cell {
      SplitCount(cell, ',');
    } else {
      assert multiset(cell)[','] == 0;
    }
  }

  /** The decimal renderings of a list of periods. */
  function Texts(ps: seq<int>): (ts: seq<string>)
    ensures |ts| == |ps|
    ensures forall i :: 0 <= i < |ps| ==> ts[i] == IntToString(ps[i])
  {
    seq(|ps|, i requires 0 <= i < |ps| => IntToString(ps[i]))
  }

  lemma IntToStringNoSeparator(n: int)
    ensures ';' !in IntToString(n) && ',' !in IntToString(n)
  {
    IntToStringFacts(n);
  }

  lemma TextsClean(ps: seq<int>)
    ensures forall i :: 0 <= i < |ps| ==> ';' !in Texts(ps)[i] && ',' !in Texts(ps)[i]
    ensures forall i :: 0 <= i < |ps| ==> PyInt(Texts(ps)[i]) == Some(ps[i])
  {
    forall i | 0 <= i < |ps| ensures ';' !in Texts(ps)[i] && ',' !in Texts(ps)[i] && PyInt(Texts(ps)[i]) == Some(ps[i]) {
      IntToStringNoSeparator(ps[i]);
      PyIntOfString(ps[i]);
    }
  }

  /** How the joined cell is split: into the renderings themselves. */
  lemma JoinedCellParts(ps: seq<int>, sep: char)
    requires ps != [] && (sep == ';' || sep == ',')
    ensures var cell := Join(Texts(ps), [sep]);
      && cell != ""
      && (if ';' in cell then Split(cell, ';') else if ',' in cell then Split(cell, ',') else [cell]) == Texts(ps)
  {
    var parts := Texts(ps);
    var cell := Join(parts, [sep]);
    TextsClean(ps);
    IntToStringFacts(ps[0]);
    SplitJoin(parts, sep);
    if sep == ',' {
      JoinAvoids(parts, ',', ';');
    }
    if |ps| == 1 {
      assert cell == parts[0];
    } else {
      assert cell == parts[0] + [sep] + Join(parts[1..], [sep]);
      assert sep in cell;
    }
  }

  /** A cell written as the periods joined by `;` or by `,` reads back as those periods. */
  lemma ParseCellJoin(ps: seq<int>, sep: char)
    requires ps != [] && (sep == ';' || sep == ',')
    ensures ParseCell(Join(Texts(ps), [sep])) == Periods(ps)
  {
    JoinedCellParts(ps, sep);
    TextsClean(ps);
    ParseAllClean(Texts(ps), ps);
  }

  lemma ParseAllClean(parts: seq<string>, ps: seq<int>)
    requires |parts| == |ps| && forall i :: 0 <= i < |parts| ==> PyInt(parts[i]) == Some(ps[i])
    ensures ParseAll(parts) == Some(ps)
  {
    assert ParseAll(parts).value == ps;
  }

  // ---------------------------------------------------------------- one row

  /** `row[1:6]`: the five day cells after the class name, fewer when the row is short. */
  function DayCells(row: seq<string>): (cells: seq<string>)
    ensures |cells| == if |row| <= 1 then 0 else if |row| < 6 then |row| - 1 else 5
    ensures forall j :: 0 <= j < |cells| ==> j + 1 < |row| && cells[j] == row[j + 1]
  {
    if |row| <= 1 then [] else row[1..if |row| < 6 then |row| else 6]
  }

  function ParseCells(cells: seq<string>): (parsed: seq<CellParse>)
    ensures |parsed| == |cells|
    ensures forall j :: 0 <= j < |cells| ==> parsed[j] == ParseCell(cells[j])
  {
    seq(|cells|, j requires 0 <= j < |cells| => ParseCell(cells[j]))
  }

  /** The conflict entries built from the parsed day cells, day by day from Monday; `None` once a
      cell raises. */
  function DayEntries(parsed: seq<CellParse>): Option<map<Day, seq<int>>>
    requires |parsed| <= 5
  {
    if parsed == [] then Some(map[])
    else
      var n := |parsed| - 1;
      var front := DayEntries(parsed[..n]);
      if front.None? || parsed[n].ValueError? then None
      else if parsed[n].NoEntry? then front
      else Some(front.value[Weekdays[n] := parsed[n].periods])
  }

  /** The entries exist exactly when no cell raises. */
  lemma {:induction false} DayEntriesDefined(parsed: seq<CellParse>)
    requires |parsed| <= 5
    ensures DayEntries(parsed).Some? <==> forall j :: 0 <= j < |parsed| ==> !parsed[j].ValueError?
  {
    if parsed != [] {
      var n := |parsed| - 1;
      DayEntriesDefined(parsed[..n]);
      assert forall j :: 0 <= j < n ==> parsed[..n][j] == parsed[j];
    }
  }

  /** A day has an entry exactly when its cell parsed to periods, and the entry is those
      periods. */
  lemma {:induction false} DayEntriesAt(parsed: seq<CellParse>, i: nat)
    requires |parsed| <= 5 && i < 5 && DayEntries(parsed).Some?
    ensures Weekdays[i] in DayEntries(parsed).value <==> i < |parsed| && parsed[i].Periods?
    ensures Weekdays[i] in DayEntries(parsed).value ==> DayEntries(parsed).value[Weekdays[i]] == parsed[i].periods
  {
    if parsed != [] {
      var n := |parsed| - 1;
      DayEntriesAt(parsed[..n], i);
      if i < n {
        assert parsed[..n][i] == parsed[i];
      }
    }
  }

  lemma EntriesStep(parsed: seq<CellParse>, j: nat, m: map<Day, seq<int>>)
    requires j < |parsed| <= 5 && DayEntries(parsed[..j]) == Some(m) && !parsed[j].ValueError?
    ensures DayEntries(parsed[..j + 1]) == Some(if parsed[j].Periods? then m[Weekdays[j] := parsed[j].periods] else m)
  {
    assert parsed[..j + 1][..j] == parsed[..j];
  }

  /** The loop over `enumerate(row[1:6])`, filling the class's conflicts day by day. */
  method RowConflicts(row: seq<string>) returns (r: Option<map<Day, seq<int>>>)
    ensures r == DayEntries(ParseCells(DayCells(row)))
  {
    var cells := DayCells(row);
    ghost var parsed := ParseCells(cells);
    var m: map<Day, seq<int>> := map[];
    for j := 0 to |cells|
      invariant DayEntries(parsed[..j]) == Some(m)
    {
      var c := ParseCell(cells[j]);
      if c.ValueError? {
        DayEntriesDefined(parsed);
        return None;
      }
      EntriesStep(parsed, j, m);
      if c.Periods? {
        m := m[Weekdays[j] := c.periods];
      }
    }
    assert parsed[..|cells|] == parsed;
    return Some(m);
  }

  /** A row's conflicts have an entry for a weekday exactly when that day's cell is non-empty
      (provided no cell raises). */
  lemma RowEntryPresent(row: seq<string>, i: nat)
    requires i < 5 && DayEntries(ParseCells(DayCells(row))).Some?
    ensures Weekdays[i] in DayEntries(ParseCells(DayCells(row))).value
      <==> i + 1 < |row| && i < 5 && row[i + 1] != ""
  {
    var cells := DayCells(row);
    DayEntriesAt(ParseCells(cells), i);
    DayEntriesDefined(ParseCells(cells));
    if i < |cells| {
      assert !ParseCells(cells)[i].ValueError?;
    }
  }
}
