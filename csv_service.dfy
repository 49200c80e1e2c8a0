/**
 * The CSV service of the backend: the header check of an uploaded class-conflict file, the
 * parsing of one period cell with range filtering, the per-row accumulation of conflict records
 * and errors, and the construction of the rows of the schedule export.
 *
 * The fast-csv tokenizer and formatter are not modelled: a parsed file is the sequence of records
 * (header name to cell text) the tokenizer hands to the row callback, and an export is the
 * sequence of rows, each a sequence of the nine cells under the headers
 * `Week, Period 1, …, Period 8`.
 */
module CsvService {
  import opened Wrappers
  import opened Seqs
  import opened JsText
  import opened Days
  import opened Grouping

  // ---------------------------------------------------------------- validation types

  datatype ValidationErrorType = FORMAT | CONTENT

  datatype ErrorCode =
    | MISSING_HEADERS | INVALID_DELIMITER | MALFORMED_CSV
    | INVALID_PERIOD | EMPTY_CLASS | DUPLICATE_CLASS | INVALID_DAY | PERIOD_OUT_OF_RANGE

  /** A validation error; `line`, `column` and `value` are the optional members. */
  datatype ValidationError = ValidationError(
    kind: ValidationErrorType, code: ErrorCode, message: string,
    line: Option<int>, column: Option<string>, value: Option<string>)

  datatype ValidationResult = ValidationResult(isValid: bool, errors: seq<ValidationError>)

  /** The expected header row. */
  const HEADERS: seq<string> := ["Class", "Monday", "Tuesday", "Wednesday", "Thursday", "Friday"]

  /** The default largest period number of a conflict cell. */
  const MAX_PERIODS: int := 10

  /** The separator of period numbers inside one cell. */
  const PERIOD_DELIMITER: char := ';'

  function FormatError(code: ErrorCode, message: string): ValidationError {
    ValidationError(FORMAT, code, message, None, None, None)
  }

  // ---------------------------------------------------------------- header validation

  /** The error for header `header` standing at position `index` instead of `HEADERS[index]`. */
  function HeaderMismatch(index: nat, header: string): ValidationError
    requires index < |HEADERS|
  {
    FormatError(MISSING_HEADERS, "Invalid header at position " + IntToString(index + 1)
      + ": expected \"" + HEADERS[index] + "\" but found \"" + header + "\"")
  }

  /** The mismatch errors of the first `n` positions of a six-column header row, in order. */
  function MismatchErrors(headers: seq<string>, n: nat): seq<ValidationError>
    requires n <= |headers| == |HEADERS|
  {
    if n == 0 then []
    else
      var tail := if headers[n - 1] != HEADERS[n - 1] then [HeaderMismatch(n - 1, headers[n - 1])] else [];
      MismatchErrors(headers, n - 1) + tail
  }

  /** The errors of a split header row: one count error, or one error per wrong position. */
  function HeaderErrors(headers: seq<string>): seq<ValidationError> {
    if |headers| != |HEADERS| then
      [FormatError(MISSING_HEADERS, "Expected " + IntToString(|HEADERS|) + " headers but found "
        + IntToString(|headers|))]
    else MismatchErrors(headers, |HEADERS|)
  }

  /** `csvData.split('\n')[0]`. */
  function FirstLine(csv: string): string {
    Split(csv, '\n')[0]
  }

  /** `firstLine.trim().split(',')`. */
  function HeadersOf(csv: string): seq<string> {
    Split(Trim(FirstLine(csv)), ',')
  }

  /** The outcome of `validateCsvFormat`. */
  function CsvFormat(csv: string): ValidationResult {
    if Trim(csv) == "" then ValidationResult(false, [FormatError(MALFORMED_CSV, "CSV data is empty")])
    else if FirstLine(csv) == "" then
      ValidationResult(false, [FormatError(MISSING_HEADERS, "CSV file has no headers")])
    else
      var errors := HeaderErrors(HeadersOf(csv));
      ValidationResult(errors == [], errors)
  }

  /** `validateCsvFormat`: the header checks, pushing one error per wrong position. */
  method ValidateCsvFormat(csv: string) returns (r: ValidationResult)
    ensures r == CsvFormat(csv)
    ensures r.isValid <==> r.errors == []
  {
    if Trim(csv) == "" {
      return ValidationResult(false, [FormatError(MALFORMED_CSV, "CSV data is empty")]);
    }
    var firstLine := Split(csv, '\n')[0];
    if firstLine == "" {
      return ValidationResult(false, [FormatError(MISSING_HEADERS, "CSV file has no headers")]);
    }
    var headers := Split(Trim(firstLine), ',');
    var errors := CheckHeaders(headers);
    r := ValidationResult(|errors| == 0, errors);
  }

  /** The comparison of the split header row with the expected one. */
  method CheckHeaders(headers: seq<string>) returns (errors: seq<ValidationError>)
    ensures errors == HeaderErrors(headers)
  {
    errors := [];
    if |headers| != |HEADERS| {
      errors := errors + [FormatError(MISSING_HEADERS, "Expected " + IntToString(|HEADERS|)
        + " headers but found " + IntToString(|headers|))];
    } else {
      for index := 0 to |headers|
        invariant errors == MismatchErrors(headers, index)
      {
        if headers[index] != HEADERS[index] {
          errors := errors + [HeaderMismatch(index, headers[index])];
        }
      }
    }
  }

  /** Every result is valid exactly when it carries no error, and a blank input is refused with
      exactly one `MALFORMED_CSV` error. */
  lemma CsvFormatValidity(csv: string)
    ensures CsvFormat(csv).isValid <==> CsvFormat(csv).errors == []
    ensures Trim(csv) == "" ==>
      |CsvFormat(csv).errors| == 1 && CsvFormat(csv).errors[0].code == MALFORMED_CSV && !CsvFormat(csv).isValid
  {
  }

  /** A header row of the wrong width gives exactly one `MISSING_HEADERS` error. */
  lemma WrongWidthOneError(headers: seq<string>)
    requires |headers| != |HEADERS|
    ensures |HeaderErrors(headers)| == 1 && HeaderErrors(headers)[0].code == MISSING_HEADERS
  {
  }

  /** Every mismatch error is a `MISSING_HEADERS` error of a wrong position, and there is one
      error per wrong position: the error list is the wrong positions' errors in order. */
  lemma {:induction false} MismatchErrorsFacts(headers: seq<string>, n: nat)
    requires n <= |headers| == |HEADERS|
    ensures forall e :: e in MismatchErrors(headers, n) ==> e.code == MISSING_HEADERS
    ensures |MismatchErrors(headers, n)| == Count(seq(n, i requires 0 <= i < n => i),
      i => 0 <= i < n && headers[i] != HEADERS[i])
  {
    if n > 0 {
      MismatchErrorsFacts(headers, n - 1);
      var idx := seq(n, i requires 0 <= i < n => i);
      var idx' := seq(n - 1, i requires 0 <= i < n - 1 => i);
      assert idx[..n - 1] == idx';
      CountCongruent(idx', i => 0 <= i < n - 1 && headers[i] != HEADERS[i],
        i => 0 <= i < n && headers[i] != HEADERS[i]);
    }
  }

  lemma {:induction false} CountCongruent<T>(s: seq<T>, p: T -> bool, q: T -> bool)
    requires forall i :: 0 <= i < |s| ==> p(s[i]) == q(s[i])
    ensures Count(s, p) == Count(s, q)
  {
    if s != [] {
      CountCongruent(s[..|s| - 1], p, q);
    }
  }

  /** The header check passes exactly when the six headers are the expected ones. */
  lemma {:induction false} MismatchErrorsEmpty(headers: seq<string>, n: nat)
    requires n <= |headers| == |HEADERS|
    ensures MismatchErrors(headers, n) == [] <==> headers[..n] == HEADERS[..n]
  {
    if n > 0 {
      MismatchErrorsEmpty(headers, n - 1);
      MismatchErrorsStep(headers, n);
      PrefixStep(headers, HEADERS, n);
    }
  }

  lemma MismatchErrorsStep(headers: seq<string>, n: nat)
    requires 0 < n <= |headers| == |HEADERS|
    ensures MismatchErrors(headers, n) == [] <==> MismatchErrors(headers, n - 1) == [] && headers[n - 1] == HEADERS[n - 1]
  {
  }

  lemma PrefixStep(a: seq<string>, b: seq<string>, n: nat)
    requires 0 < n <= |a| == |b|
    ensures a[..n] == b[..n] <==> a[..n - 1] == b[..n - 1] && a[n - 1] == b[n - 1]
  {
    assert a[..n] == a[..n - 1] + [a[n - 1]];
    assert b[..n] == b[..n - 1] + [b[n - 1]];
    if a[..n] == b[..n] {
      assert a[..n][n - 1] == b[..n][n - 1];
    }
  }

  /** The first character of a join is that of its first part. */
  lemma JoinFirst(parts: seq<string>, sep: string)
    requires parts != [] && parts[0] != []
    ensures Join(parts, sep) != [] && Join(parts, sep)[0] == parts[0][0]
  {
  }

  /** The last character of a join is that of its last part. */
  lemma {:induction false} JoinLast(parts: seq<string>, sep: string)
    requires parts != [] && parts[|parts| - 1] != []
    ensures var j := Join(parts, sep); j != [] && j[|j| - 1] == parts[|parts| - 1][|parts[|parts| - 1]| - 1]
  {
    if |parts| > 1 {
      JoinLast(parts[1..], sep);
    }
  }

  /** The expected header row holds no line break and no white space at either end. */
  lemma HeaderLineClean()
    ensures var line := Join(HEADERS, ",");
      && '\n' !in line && line != [] && !IsSpace(line[0]) && Trim(line) == line
  {
    var line := Join(HEADERS, ",");
    JoinAvoids(HEADERS, ',', '\n');
    JoinFirst(HEADERS, ",");
    JoinLast(HEADERS, ",");
    TrimOfTrimmed(line);
  }

  /** The first line of a file starting with the expected header row is that row. */
  lemma HeaderRowFirst(rest: string)
    ensures var csv := Join(HEADERS, ",") + "\n" + rest;
      FirstLine(csv) == Join(HEADERS, ",") && Trim(csv) != ""
  {
    var line := Join(HEADERS, ",");
    var csv := line + "\n" + rest;
    HeaderLineClean();
    SplitPrefix(line, '\n', rest);
    assert csv[0] == line[0];
  }

  /** Such a file's split header row is the expected one. */
  lemma HeaderRowSplit(rest: string)
    ensures HeadersOf(Join(HEADERS, ",") + "\n" + rest) == HEADERS
  {
    var line := Join(HEADERS, ",");
    HeaderRowFirst(rest);
    HeaderLineClean();
    assert Trim(FirstLine(line + "\n" + rest)) == line;
    HeadersHaveNoComma();
    SplitJoin(HEADERS, ',');
  }

  lemma HeadersHaveNoComma()
    ensures forall i :: 0 <= i < |HEADERS| ==> ',' !in HEADERS[i]
  {
  }

  /** A file whose first line is exactly the expected header row, with any `rest`, is valid. */
  lemma HeaderRowAccepted(rest: string)
    ensures CsvFormat(Join(HEADERS, ",") + "\n" + rest) == ValidationResult(true, [])
  {
    HeaderRowFirst(rest);
    HeaderLineClean();
    HeaderRowSplit(rest);
    MismatchErrorsEmpty(HEADERS, |HEADERS|);
  }

  // ---------------------------------------------------------------- one period cell

  function ContentError(code: ErrorCode, message: string, line: int, column: string,
                        value: Option<string>): ValidationError {
    ValidationError(CONTENT, code, message, Some(line), Some(column), value)
  }

  /** `/^(\d+)(;\d+)*$/.test(s)`: one or more non-empty digit runs separated by single `;`. */
  predicate IsPeriodList(s: string) {
    var parts := Split(s, PERIOD_DELIMITER);
    forall i :: 0 <= i < |parts| ==> parts[i] != [] && AllDigits(parts[i])
  }

  /** `.map(p => parseInt(p, 10)).filter(p => !isNaN(p))`. */
  function Numbers(parts: seq<string>): (ns: seq<int>)
    ensures |ns| <= |parts|
  {
    if parts == [] then []
    else
      var last := match ParseInt(parts[|parts| - 1], true) case Num(n) => [n] case NaN => [];
      Numbers(parts[..|parts| - 1]) + last
  }

  /** The numbers of a cell: its `;`-separated parts converted by `parseInt(p, 10)`. */
  function CellNumbers(s: string): seq<int> {
    Numbers(Split(s, PERIOD_DELIMITER))
  }

  predicate InRange(p: int, maxPeriods: int) {
    1 <= p <= maxPeriods
  }

  function IntTexts(ns: seq<int>): seq<string> {
    seq(|ns|, i requires 0 <= i < |ns| => IntToString(ns[i]))
  }

  /** `periods.filter(p => p < 1 || p > maxPeriods)`. */
  function InvalidPeriods(ns: seq<int>, maxPeriods: int): seq<int> {
    Filter(ns, p => p < 1 || p > maxPeriods)
  }

  /** `periods.filter(p => p >= 1 && p <= maxPeriods)`. */
  function ValidPeriods(ns: seq<int>, maxPeriods: int): seq<int> {
    Filter(ns, p => p >= 1 && p <= maxPeriods)
  }

  /** `parsePeriods(periodsStr, lineNumber, day, maxPeriods, errors)`: the periods of one cell and
      the errors it appends to `errors` (at most one). A missing cell is read as "". */
  function ParsePeriods(s: string, line: int, day: string, maxPeriods: int): (r: (seq<int>, seq<ValidationError>))
    ensures |r.1| <= 1
    ensures forall i :: 0 <= i < |r.0| ==> InRange(r.0[i], maxPeriods)
  {
    if s == "" then ([], [])
    else if !IsPeriodList(s) then
      ([], [ContentError(INVALID_PERIOD, "Invalid period format for " + day, line, day, Some(s))])
    else
      var periods := CellNumbers(s);
      var invalid := InvalidPeriods(periods, maxPeriods);
      if |invalid| > 0 then
        var kept := ValidPeriods(periods, maxPeriods);
        assert forall i :: 0 <= i < |kept| ==> kept[i] in kept;
        (kept, [ContentError(PERIOD_OUT_OF_RANGE, "Invalid periods for " + day + ": "
          + Join(IntTexts(invalid), ", "), line, day, Some(s))])
      else
        assert forall i :: 0 <= i < |periods| ==> periods[i] in periods;
        assert forall i :: 0 <= i < |periods| ==> periods[i] !in invalid;
        (periods, [])
  }

  /** An empty cell has no periods and no error. */
  lemma ParsePeriodsEmpty(line: int, day: string, maxPeriods: int)
    ensures ParsePeriods("", line, day, maxPeriods) == ([], [])
  {
  }

  /** A cell that is not a `;`-separated list of digit runs has no periods and exactly one
      `INVALID_PERIOD` error, and conversely such an error means the cell was malformed. */
  lemma ParsePeriodsMalformed(s: string, line: int, day: string, maxPeriods: int)
    ensures var r := ParsePeriods(s, line, day, maxPeriods);
      (s != "" && !IsPeriodList(s)) <==> (|r.1| == 1 && r.1[0].code == INVALID_PERIOD)
    ensures s != "" && !IsPeriodList(s) ==> ParsePeriods(s, line, day, maxPeriods).0 == []
  {
  }

  /** On a well-formed cell the periods are the cell's numbers within range, in their order. */
  lemma ParsePeriodsKept(s: string, line: int, day: string, maxPeriods: int)
    requires s != "" && IsPeriodList(s)
    ensures var r := ParsePeriods(s, line, day, maxPeriods);
      var ns := CellNumbers(s);
      r.0 == Filter(ns, p => InRange(p, maxPeriods)) && IsSubsequence(r.0, ns)
  {
    var ns := CellNumbers(s);
    var invalid := InvalidPeriods(ns, maxPeriods);
    FilterCongruent(ns, p => p >= 1 && p <= maxPeriods, p => InRange(p, maxPeriods));
    if |invalid| == 0 {
      assert forall i :: 0 <= i < |ns| ==> ns[i] in ns;
      assert forall i :: 0 <= i < |ns| ==> InRange(ns[i], maxPeriods);
      FilterAll(ns, p => InRange(p, maxPeriods));
    }
    FilterIsSubsequence(ns, p => InRange(p, maxPeriods));
  }

  /** On a well-formed cell there is one `PERIOD_OUT_OF_RANGE` error exactly when some number
      lies outside the range. */
  lemma ParsePeriodsOutOfRange(s: string, line: int, day: string, maxPeriods: int)
    requires s != "" && IsPeriodList(s)
    ensures (exists i :: 0 <= i < |CellNumbers(s)| && !InRange(CellNumbers(s)[i], maxPeriods))
      <==> |ParsePeriods(s, line, day, maxPeriods).1| == 1
           && ParsePeriods(s, line, day, maxPeriods).1[0].code == PERIOD_OUT_OF_RANGE
  {
    var ns := CellNumbers(s);
    var invalid := InvalidPeriods(ns, maxPeriods);
    if |invalid| == 0 {
      assert forall i :: 0 <= i < |ns| ==> ns[i] in ns;
    } else {
      var x := invalid[0];
      assert x in invalid;
      var k :| 0 <= k < |ns| && ns[k] == x;
      assert !InRange(ns[k], maxPeriods);
    }
  }

  /** The numbers of digit-run texts are their values. */
  lemma NumbersOfTexts(ps: seq<nat>)
    ensures Numbers(IntTexts(ps)) == ps
  {
    TextsParse(ps);
    NumbersOfParsed(IntTexts(ps), ps);
  }

  /** Each of `parts` is read by `parseInt(p, 10)` as the matching one of `ns`. */
  predicate ParseAll(parts: seq<string>, ns: seq<int>) {
    |parts| == |ns|
    && (parts != [] ==>
          ParseAll(parts[..|parts| - 1], ns[..|ns| - 1]) && ParseInt(parts[|parts| - 1], true) == Num(ns[|ns| - 1]))
  }

  lemma {:induction false} TextsParse(ps: seq<nat>)
    ensures ParseAll(IntTexts(ps), ps)
  {
    if ps != [] {
      TextsParse(ps[..|ps| - 1]);
      IntTextsSnoc(ps);
      ParseIntToString(ps[|ps| - 1]);
    }
  }

  lemma IntTextsSnoc(ps: seq<nat>)
    requires ps != []
    ensures IntTexts(ps)[..|ps| - 1] == IntTexts(ps[..|ps| - 1])
    ensures IntTexts(ps)[|ps| - 1] == IntToString(ps[|ps| - 1])
  {
  }

  /** Parts that each parse to a number give exactly those numbers. */
  lemma {:induction false} NumbersOfParsed(parts: seq<string>, ns: seq<int>)
    requires ParseAll(parts, ns)
    ensures Numbers(parts) == ns
  {
    if parts != [] {
      var k := |parts| - 1;
      NumbersOfParsed(parts[..k], ns[..k]);
      NumbersLast(parts, ns[..k], ns[k]);
      assert ns[..k] + [ns[k]] == ns;
    }
  }

  lemma NumbersLast(parts: seq<string>, front: seq<int>, n: int)
    requires parts != [] && Numbers(parts[..|parts| - 1]) == front && ParseInt(parts[|parts| - 1], true) == Num(n)
    ensures Numbers(parts) == front + [n]
  {
  }

  /** The renderings of natural numbers are non-empty digit runs without a `;`. */
  lemma NatTextsClean(ps: seq<nat>)
    ensures forall i :: 0 <= i < |ps| ==>
      IntTexts(ps)[i] != [] && AllDigits(IntTexts(ps)[i]) && PERIOD_DELIMITER !in IntTexts(ps)[i]
  {
    forall i | 0 <= i < |ps|
      ensures IntTexts(ps)[i] != [] && AllDigits(IntTexts(ps)[i]) && PERIOD_DELIMITER !in IntTexts(ps)[i]
    {
      IntToStringFacts(ps[i]);
    }
  }

  /** A cell written as `p1;p2;…` from periods in range parses back to exactly those periods,
      without an error: "1;2;3" gives [1, 2, 3]. */
  lemma ParsePeriodsJoin(ps: seq<nat>, line: int, day: string, maxPeriods: int)
    requires ps != []
    requires forall i :: 0 <= i < |ps| ==> InRange(ps[i], maxPeriods)
    ensures ParsePeriods(Join(IntTexts(ps), [PERIOD_DELIMITER]), line, day, maxPeriods) == (ps, [])
  {
    var parts := IntTexts(ps);
    NatTextsClean(ps);
    var s := Join(parts, [PERIOD_DELIMITER]);
    SplitJoin(parts, PERIOD_DELIMITER);
    JoinFirst(parts, [PERIOD_DELIMITER]);
    assert s != "";
    assert IsPeriodList(s);
    NumbersOfTexts(ps);
    var ns: seq<int> := ps;
    assert CellNumbers(s) == ns;
    FilterNone(ns, p => p < 1 || p > maxPeriods);
    assert InvalidPeriods(ns, maxPeriods) == [];
  }

  // ---------------------------------------------------------------- conflict records

  /** A character of `[A-Za-z0-9\s-]`. */
  predicate IsClassNameChar(c: char) {
    'A' <= c <= 'Z' || 'a' <= c <= 'z' || IsDigit(c) || IsSpace(c) || c == '-'
  }

  /** `/^[A-Za-z0-9\s-]+$/.test(s)`. */
  predicate IsClassName(s: string) {
    s != [] && forall i :: 0 <= i < |s| ==> IsClassNameChar(s[i])
  }

  /** A record as the tokenizer hands it to the row callback: header name to cell text; a header
      missing from the record reads as `undefined`. */
  type CsvRow = map<string, string>

  /** The column of a day in the conflict file. */
  function DayColumn(d: Day): string {
    HEADERS[match d case MONDAY => 1 case TUESDAY => 2 case WEDNESDAY => 3 case THURSDAY => 4 case FRIDAY => 5]
  }

  /** The cell under `header`; `undefined` is falsy like "" and `parsePeriods` treats both alike. */
  function CellOf(row: CsvRow, header: string): string {
    if header in row then row[header] else ""
  }

  datatype ClassConflictData = ClassConflictData(className: string, conflicts: map<Day, seq<int>>)

  /** What one `data` callback adds: at most one record, and the errors it pushes. */
  datatype RowOutcome = RowOutcome(record: Option<ClassConflictData>, errors: seq<ValidationError>)

  /** The periods of the day `d` of `row` and the errors they add. */
  function DayPeriods(row: CsvRow, d: Day, line: int, maxPeriods: int): (seq<int>, seq<ValidationError>) {
    ParsePeriods(CellOf(row, DayColumn(d)), line, DayColumn(d), maxPeriods)
  }

  /** The per-row logic of `parseClassConflicts` for the row at line number `line`. */
  function ParseRow(row: CsvRow, line: int, maxPeriods: int): (o: RowOutcome)
    ensures o.record.None? <==> !("Class" in row && IsClassName(row["Class"]))
    ensures o.record.None? ==> |o.errors| == 1 && o.errors[0].code == EMPTY_CLASS
    ensures o.record.Some? ==> o.record.value.className == row["Class"]
  {
    if "Class" !in row || !IsClassName(row["Class"]) then
      var shown := if "Class" in row then row["Class"] else "undefined";
      RowOutcome(None, [ContentError(EMPTY_CLASS, "Invalid class name: " + shown, line, "Class", None)])
    else
      var mo := DayPeriods(row, MONDAY, line, maxPeriods);
      var tu := DayPeriods(row, TUESDAY, line, maxPeriods);
      var we := DayPeriods(row, WEDNESDAY, line, maxPeriods);
      var th := DayPeriods(row, THURSDAY, line, maxPeriods);
      var fr := DayPeriods(row, FRIDAY, line, maxPeriods);
      var conflicts := map[MONDAY := mo.0, TUESDAY := tu.0, WEDNESDAY := we.0, THURSDAY := th.0, FRIDAY := fr.0];
      RowOutcome(Some(ClassConflictData(row["Class"], conflicts)), mo.1 + tu.1 + we.1 + th.1 + fr.1)
  }

  /** The record of an accepted row holds, for every day, the periods of that day's cell, all
      within range. */
  lemma RowRecordConflicts(row: CsvRow, line: int, maxPeriods: int, d: Day)
    requires ParseRow(row, line, maxPeriods).record.Some?
    ensures var c := ParseRow(row, line, maxPeriods).record.value.conflicts;
      && d in c && c[d] == DayPeriods(row, d, line, maxPeriods).0
      && forall i :: 0 <= i < |c[d]| ==> InRange(c[d][i], maxPeriods)
  {
    match d
    case MONDAY =>
    case TUESDAY =>
    case WEDNESDAY =>
    case THURSDAY =>
    case FRIDAY =>
  }

  /** A cell adds no error: it is empty, or a period list whose numbers all lie in range. */
  predicate CellClean(s: string, maxPeriods: int) {
    s == "" || (IsPeriodList(s)
      && forall i :: 0 <= i < |CellNumbers(s)| ==>
           InRange(CellNumbers(s)[i], maxPeriods))
  }

  /** A row adds no error: its class name is valid and its five day cells are clean. */
  predicate RowClean(row: CsvRow, maxPeriods: int) {
    && "Class" in row && IsClassName(row["Class"])
    && forall d: Day :: CellClean(CellOf(row, DayColumn(d)), maxPeriods)
  }

  lemma CellCleanIff(s: string, line: int, day: string, maxPeriods: int)
    ensures ParsePeriods(s, line, day, maxPeriods).1 == [] <==> CellClean(s, maxPeriods)
  {
    if s != "" && IsPeriodList(s) {
      ParsePeriodsOutOfRange(s, line, day, maxPeriods);
    }
  }

  /** A row pushes no error exactly when it is clean, whatever its line number. */
  lemma RowCleanIff(row: CsvRow, line: int, maxPeriods: int)
    ensures ParseRow(row, line, maxPeriods).errors == [] <==> RowClean(row, maxPeriods)
  {
    if "Class" in row && IsClassName(row["Class"]) {
      var mo := DayPeriods(row, MONDAY, line, maxPeriods);
      var tu := DayPeriods(row, TUESDAY, line, maxPeriods);
      var we := DayPeriods(row, WEDNESDAY, line, maxPeriods);
      var th := DayPeriods(row, THURSDAY, line, maxPeriods);
      var fr := DayPeriods(row, FRIDAY, line, maxPeriods);
      assert ParseRow(row, line, maxPeriods).errors == mo.1 + tu.1 + we.1 + th.1 + fr.1;
      forall d: Day
        ensures DayPeriods(row, d, line, maxPeriods).1 == [] <==> CellClean(CellOf(row, DayColumn(d)), maxPeriods)
      {
        CellCleanIff(CellOf(row, DayColumn(d)), line, DayColumn(d), maxPeriods);
      }
      if mo.1 + tu.1 + we.1 + th.1 + fr.1 == [] {
        forall d: Day ensures CellClean(CellOf(row, DayColumn(d)), maxPeriods) {
          match d
          case MONDAY =>
          case TUESDAY =>
          case WEDNESDAY =>
          case THURSDAY =>
          case FRIDAY =>
        }
      }
    }
  }

  // ---------------------------------------------------------------- the whole parse

  /** The options of `parseClassConflicts`; an absent member takes its default. `skipHeader` is
      read but never used, so it is left out. */
  datatype CsvParseOptions = CsvParseOptions(validateFormat: Option<bool>, maxPeriods: Option<int>)

  /** What the row callbacks have accumulated: the records, the errors and the line counter. */
  datatype Accumulated = Accumulated(records: seq<ClassConflictData>, errors: seq<ValidationError>, line: int)

  /** The state after the callbacks for `rows`, starting from no record, no error and line 1. The
      line counter advances only past rows that gave a record. */
  function Collect(rows: seq<CsvRow>, maxPeriods: int): (a: Accumulated)
    ensures a.line == 1 + |a.records| && |a.records| <= |rows|
  {
    if rows == [] then Accumulated([], [], 1)
    else
      var a := Collect(rows[..|rows| - 1], maxPeriods);
      var o := ParseRow(rows[|rows| - 1], a.line, maxPeriods);
      match o.record
      case Some(rec) => Accumulated(a.records + [rec], a.errors + o.errors, a.line + 1)
      case None => Accumulated(a.records, a.errors + o.errors, a.line)
  }

  /** Why a parse is rejected: the format check failed (the thrown `Error`), or rows pushed
      errors (the rejection with the serialised list). */
  datatype ParseFailure = InvalidFormat(message: string) | RowErrors(errors: seq<ValidationError>)

  function Messages(errors: seq<ValidationError>): seq<string> {
    seq(|errors|, i requires 0 <= i < |errors| => errors[i].message)
  }

  /** The outcome of `parseClassConflicts(csvData, options)` when the tokenizer yields `rows`. */
  function ParseOutcome(csv: string, rows: seq<CsvRow>, options: CsvParseOptions): Result<seq<ClassConflictData>, ParseFailure> {
    var validate := options.validateFormat.GetOr(true);
    var maxPeriods := options.maxPeriods.GetOr(MAX_PERIODS);
    var format := CsvFormat(csv);
    if validate && !format.isValid then
      Failure(InvalidFormat("Invalid CSV format: " + Join(Messages(format.errors), ", ")))
    else
      var a := Collect(rows, maxPeriods);
      if |a.errors| > 0 then Failure(RowErrors(a.errors)) else Success(a.records)
  }

  /** `parseClassConflicts`: the optional format check, then one callback per row. */
  method ParseClassConflicts(csv: string, rows: seq<CsvRow>, options: CsvParseOptions)
    returns (r: Result<seq<ClassConflictData>, ParseFailure>)
    ensures r == ParseOutcome(csv, rows, options)
  {
    var validate := options.validateFormat.GetOr(true);
    var maxPeriods := options.maxPeriods.GetOr(MAX_PERIODS);
    if validate {
      var format := ValidateCsvFormat(csv);
      if !format.isValid {
        return Failure(InvalidFormat("Invalid CSV format: " + Join(Messages(format.errors), ", ")));
      }
    }
    var records: seq<ClassConflictData> := [];
    var errors: seq<ValidationError> := [];
    var lineNumber := 1;
    for i := 0 to |rows|
      invariant Accumulated(records, errors, lineNumber) == Collect(rows[..i], maxPeriods)
    {
      assert rows[..i + 1][..i] == rows[..i];
      var o := ParseRow(rows[i], lineNumber, maxPeriods);
      errors := errors + o.errors;
      if o.record.Some? {
        records := records + [o.record.value];
        lineNumber := lineNumber + 1;
      }
    }
    assert rows[..|rows|] == rows;
    if |errors| > 0 {
      r := Failure(RowErrors(errors));
    } else {
      r := Success(records);
    }
  }

  /** Every row of `rows` is clean, row by row from the last. */
  predicate AllRowsClean(rows: seq<CsvRow>, maxPeriods: int) {
    rows == [] || (AllRowsClean(rows[..|rows| - 1], maxPeriods) && RowClean(rows[|rows| - 1], maxPeriods))
  }

  lemma {:induction false} AllRowsCleanIff(rows: seq<CsvRow>, maxPeriods: int)
    ensures AllRowsClean(rows, maxPeriods) <==> forall i :: 0 <= i < |rows| ==> RowClean(rows[i], maxPeriods)
  {
    if rows != [] {
      var front := rows[..|rows| - 1];
      AllRowsCleanIff(front, maxPeriods);
      assert forall i :: 0 <= i < |front| ==> front[i] == rows[i];
    }
  }

  lemma {:induction false} CollectAllClean(rows: seq<CsvRow>, maxPeriods: int)
    ensures Collect(rows, maxPeriods).errors == [] <==> AllRowsClean(rows, maxPeriods)
  {
    if rows != [] {
      var front := rows[..|rows| - 1];
      var last := rows[|rows| - 1];
      CollectAllClean(front, maxPeriods);
      var a := Collect(front, maxPeriods);
      var o := ParseRow(last, a.line, maxPeriods);
      assert Collect(rows, maxPeriods).errors == a.errors + o.errors;
      RowCleanIff(last, a.line, maxPeriods);
    }
  }

  /** No error accumulates exactly when every row is clean. */
  lemma CollectCleanIff(rows: seq<CsvRow>, maxPeriods: int)
    ensures Collect(rows, maxPeriods).errors == [] <==> forall i :: 0 <= i < |rows| ==> RowClean(rows[i], maxPeriods)
  {
    CollectAllClean(rows, maxPeriods);
    AllRowsCleanIff(rows, maxPeriods);
  }

  /** Without an error every row gave a record, in order, named by the row's class. */
  lemma {:induction false} CollectRecords(rows: seq<CsvRow>, maxPeriods: int)
    requires Collect(rows, maxPeriods).errors == []
    ensures |Collect(rows, maxPeriods).records| == |rows|
    ensures NamedByClass(rows, Collect(rows, maxPeriods).records)
  {
    if rows != [] {
      var front := rows[..|rows| - 1];
      var rec := CollectSnoc(rows, maxPeriods);
      CollectRecords(front, maxPeriods);
      NamedSnoc(rows, Collect(front, maxPeriods).records, rec);
    }
  }

  /** Record `i` carries the class name of row `i`. */
  predicate NamedByClass(rows: seq<CsvRow>, records: seq<ClassConflictData>) {
    |records| == |rows| && forall i :: 0 <= i < |rows| ==> "Class" in rows[i] && records[i].className == rows[i]["Class"]
  }

  /** The last row of an error-free collection adds one record, named by its class. */
  lemma CollectSnoc(rows: seq<CsvRow>, maxPeriods: int) returns (rec: ClassConflictData)
    requires rows != [] && Collect(rows, maxPeriods).errors == []
    ensures Collect(rows[..|rows| - 1], maxPeriods).errors == []
    ensures Collect(rows, maxPeriods).records == Collect(rows[..|rows| - 1], maxPeriods).records + [rec]
    ensures "Class" in rows[|rows| - 1] && rec.className == rows[|rows| - 1]["Class"]
  {
    var a := Collect(rows[..|rows| - 1], maxPeriods);
    var o := ParseRow(rows[|rows| - 1], a.line, maxPeriods);
    assert Collect(rows, maxPeriods).errors == a.errors + o.errors;
    rec := o.record.value;
  }

  lemma NamedSnoc(rows: seq<CsvRow>, front: seq<ClassConflictData>, rec: ClassConflictData)
    requires rows != [] && NamedByClass(rows[..|rows| - 1], front)
    requires "Class" in rows[|rows| - 1] && rec.className == rows[|rows| - 1]["Class"]
    ensures NamedByClass(rows, front + [rec])
  {
    var rs := front + [rec];
    forall i | 0 <= i < |rows|
      ensures "Class" in rows[i] && rs[i].className == rows[i]["Class"]
    {
      if i < |front| {
        assert rows[i] == rows[..|rows| - 1][i];
      }
    }
  }

  /** A parse without format check succeeds exactly when every row is clean. */
  lemma ParseSucceedsIff(csv: string, rows: seq<CsvRow>, maxPeriods: Option<int>)
    ensures ParseOutcome(csv, rows, CsvParseOptions(Some(false), maxPeriods)).Success?
      <==> forall i :: 0 <= i < |rows| ==> RowClean(rows[i], maxPeriods.GetOr(MAX_PERIODS))
  {
    CollectCleanIff(rows, maxPeriods.GetOr(MAX_PERIODS));
  }

  /** A successful parse yields one record per row, in order, named by the row's class. */
  lemma ParseRecords(csv: string, rows: seq<CsvRow>, options: CsvParseOptions)
    requires ParseOutcome(csv, rows, options).Success?
    ensures var recs := ParseOutcome(csv, rows, options).value;
      |recs| == |rows| && forall i :: 0 <= i < |rows| ==> "Class" in rows[i] && recs[i].className == rows[i]["Class"]
  {
    CollectRecords(rows, options.maxPeriods.GetOr(MAX_PERIODS));
  }

  /** A failing format check rejects the file before any row is read. */
  lemma FormatCheckRejects(csv: string, rows: seq<CsvRow>, options: CsvParseOptions)
    requires options.validateFormat != Some(false) && !CsvFormat(csv).isValid
    ensures ParseOutcome(csv, rows, options).Failure? && ParseOutcome(csv, rows, options).error.InvalidFormat?
  {
  }

  // ---------------------------------------------------------------- schedule export

  /** The members of a stored assignment the export reads (identifiers and timestamps are not
      read). */
  datatype BaseAssignment = BaseAssignment(day: Day, period: int, week: int, classId: string)

  /** The export has one column per period 1 … 8 after the `Week` column. */
  const EXPORT_PERIODS: nat := 8

  /** A row of the export: its cells under `Week, Period 1, …, Period 8`. */
  type ExportRow = seq<string>

  function WeekHeaderRow(week: int): ExportRow {
    ["Week " + IntToString(week)] + seq(EXPORT_PERIODS, _ => "")
  }

  const BLANK_ROW: ExportRow := seq(EXPORT_PERIODS + 1, _ => "")

  predicate At(a: BaseAssignment, day: Day, period: int) {
    a.day == day && a.period == period
  }

  /** `was.find(a => a.day === day && a.period === period)`. */
  function Find(was: seq<BaseAssignment>, day: Day, period: int): (r: Option<BaseAssignment>)
    ensures r.Some? ==> r.value in was && At(r.value, day, period)
  {
    if was == [] then None
    else
      var f := Find(was[..|was| - 1], day, period);
      if f.Some? then f
      else if At(was[|was| - 1], day, period) then Some(was[|was| - 1])
      else None
  }

  /** The text of one slot: the class of the first assignment there, or ''. */
  function SlotText(was: seq<BaseAssignment>, day: Day, period: int): string {
    match Find(was, day, period)
    case Some(a) => a.classId
    case None => ""
  }

  function DayRowOf(was: seq<BaseAssignment>, day: Day): ExportRow {
    [Name(day)] + seq(EXPORT_PERIODS, k => SlotText(was, day, k + 1))
  }

  /** The seven rows of one week: its header, the five day rows and a blank row. */
  function WeekBlock(week: int, was: seq<BaseAssignment>): (rows: seq<ExportRow>)
    ensures |rows| == 7
  {
    [WeekHeaderRow(week)] + seq(|Weekdays|, d requires 0 <= d < |Weekdays| => DayRowOf(was, Weekdays[d]))
      + [BLANK_ROW]
  }

  /** The week of each assignment, paired with it. */
  function WeekPairs(asg: seq<BaseAssignment>): (ps: seq<(int, BaseAssignment)>)
    ensures |ps| == |asg|
  {
    seq(|asg|, i requires 0 <= i < |asg| => (asg[i].week, asg[i]))
  }

  /** The blocks of the weeks `weeks`, in that order. */
  function Blocks(weeks: seq<int>, ps: seq<(int, BaseAssignment)>): (rows: seq<ExportRow>)
    ensures |rows| == 7 * |weeks|
  {
    if weeks == [] then []
    else Blocks(weeks[..|weeks| - 1], ps) + WeekBlock(weeks[|weeks| - 1], ValuesOf(ps, weeks[|weeks| - 1]))
  }

  /** The weeks in order of first appearance: the iteration order of the `Map`. */
  function Weeks(asg: seq<BaseAssignment>): seq<int> {
    Distinct(Keys(WeekPairs(asg)))
  }

  /** The rows of `generateScheduleCsv(schedule)` for the schedule's assignments `asg`. */
  function ExportRows(asg: seq<BaseAssignment>): seq<ExportRow> {
    Blocks(Weeks(asg), WeekPairs(asg))
  }

  /** The `for (let period = 1; period <= 8; period++)` loop of one day row. */
  method BuildDayRow(was: seq<BaseAssignment>, day: Day) returns (row: ExportRow)
    ensures row == DayRowOf(was, day)
  {
    row := [Name(day)];
    for period := 1 to EXPORT_PERIODS + 1
      invariant row == [Name(day)] + seq(period - 1, k => SlotText(was, day, k + 1))
    {
      var cell := match Find(was, day, period) case Some(a) => a.classId case None => "";
      row := row + [cell];
    }
  }

  /** The rows pushed for one week. */
  method BuildWeekBlock(week: int, was: seq<BaseAssignment>) returns (rows: seq<ExportRow>)
    ensures rows == WeekBlock(week, was)
  {
    rows := [WeekHeaderRow(week)];
    for d := 0 to |Weekdays|
      invariant rows == [WeekHeaderRow(week)] + seq(d, j requires 0 <= j < d => DayRowOf(was, Weekdays[j]))
    {
      var dayRow := BuildDayRow(was, Weekdays[d]);
      rows := rows + [dayRow];
    }
    rows := rows + [BLANK_ROW];
  }

  /** The first `forEach`: the `Map` from week to that week's assignments in input order. */
  method GroupByWeek(asg: seq<BaseAssignment>) returns (weeks: seq<int>, byWeek: map<int, seq<BaseAssignment>>)
    ensures IsGroups(WeekPairs(asg), weeks, byWeek)
  {
    weeks, byWeek := GroupBy(WeekPairs(asg));
  }

  /** The second `forEach`: one block per week, in the order of the map. */
  method BuildBlocks(weeks: seq<int>, byWeek: map<int, seq<BaseAssignment>>, ghost ps: seq<(int, BaseAssignment)>)
    returns (rows: seq<ExportRow>)
    requires forall j :: 0 <= j < |weeks| ==> weeks[j] in byWeek && byWeek[weeks[j]] == ValuesOf(ps, weeks[j])
    ensures rows == Blocks(weeks, ps)
  {
    rows := [];
    for j := 0 to |weeks|
      invariant rows == Blocks(weeks[..j], ps)
    {
      assert weeks[..j + 1][..j] == weeks[..j];
      var block := BuildWeekBlock(weeks[j], byWeek[weeks[j]]);
      rows := rows + block;
    }
    assert weeks[..|weeks|] == weeks;
  }

  /** The rows `generateScheduleCsv` hands to the formatter. */
  method GenerateScheduleRows(asg: seq<BaseAssignment>) returns (rows: seq<ExportRow>)
    ensures rows == ExportRows(asg)
  {
    var weeks, byWeek := GroupByWeek(asg);
    forall j | 0 <= j < |weeks| ensures weeks[j] in byWeek && byWeek[weeks[j]] == ValuesOf(WeekPairs(asg), weeks[j]) {
      GroupsAt(WeekPairs(asg), weeks, byWeek, j);
    }
    rows := BuildBlocks(weeks, byWeek, WeekPairs(asg));
  }

  // ---------------------------------------------------------------- what the export shows

  predicate InSlot(a: BaseAssignment, week: int, day: Day, period: int) {
    a.week == week && At(a, day, period)
  }

  /** The first assignment of the whole schedule in week `week` at (`day`, `period`). */
  function FirstInSlot(asg: seq<BaseAssignment>, week: int, day: Day, period: int): Option<BaseAssignment> {
    if asg == [] then None
    else
      var f := FirstInSlot(asg[..|asg| - 1], week, day, period);
      if f.Some? then f
      else if InSlot(asg[|asg| - 1], week, day, period) then Some(asg[|asg| - 1])
      else None
  }

  /** `FirstInSlot` is the first assignment in the slot, and is absent only when none is. */
  lemma {:induction false} FirstInSlotIsFirst(asg: seq<BaseAssignment>, week: int, day: Day, period: int)
    ensures FirstInSlot(asg, week, day, period).None? <==> forall i :: 0 <= i < |asg| ==> !InSlot(asg[i], week, day, period)
    ensures FirstInSlot(asg, week, day, period).Some? ==>
      exists i :: 0 <= i < |asg| && asg[i] == FirstInSlot(asg, week, day, period).value
        && InSlot(asg[i], week, day, period) && forall j :: 0 <= j < i ==> !InSlot(asg[j], week, day, period)
  {
    if asg != [] {
      var front := asg[..|asg| - 1];
      FirstInSlotIsFirst(front, week, day, period);
      assert forall i :: 0 <= i < |front| ==> front[i] == asg[i];
    }
  }

  /** Searching one week's assignments finds the schedule's first assignment of that slot. */
  lemma {:induction false} FindInWeek(asg: seq<BaseAssignment>, week: int, day: Day, period: int)
    ensures Find(ValuesOf(WeekPairs(asg), week), day, period) == FirstInSlot(asg, week, day, period)
  {
    if asg != [] {
      var front := asg[..|asg| - 1];
      var a := asg[|asg| - 1];
      FindInWeek(front, week, day, period);
      WeekPairsSnoc(asg);
      ValuesOfSnoc(WeekPairs(front), a.week, a, week);
      var vs := ValuesOf(WeekPairs(front), week);
      if a.week == week {
        FindSnoc(vs, a, day, period);
      } else {
        assert vs + [] == vs;
      }
    }
  }

  lemma WeekPairsSnoc(asg: seq<BaseAssignment>)
    requires asg != []
    ensures WeekPairs(asg) == WeekPairs(asg[..|asg| - 1]) + [(asg[|asg| - 1].week, asg[|asg| - 1])]
  {
  }

  lemma FindSnoc(vs: seq<BaseAssignment>, a: BaseAssignment, day: Day, period: int)
    ensures Find(vs + [a], day, period)
      == if Find(vs, day, period).Some? then Find(vs, day, period) else if At(a, day, period) then Some(a) else None
  {
    assert (vs + [a])[..|vs|] == vs;
  }

  /** The rows of the `w`-th block are those of the `w`-th week. */
  lemma {:induction false} BlocksAt(weeks: seq<int>, ps: seq<(int, BaseAssignment)>, w: nat, j: nat)
    requires w < |weeks| && j < 7
    ensures Blocks(weeks, ps)[7 * w + j] == WeekBlock(weeks[w], ValuesOf(ps, weeks[w]))[j]
  {
    var front := weeks[..|weeks| - 1];
    if w < |weeks| - 1 {
      BlocksAt(front, ps, w, j);
    }
  }

  /** The export has seven rows per distinct week, in order of first appearance: the header
      `Week n`, then the row of each weekday, then a blank row. */
  lemma ExportLayout(asg: seq<BaseAssignment>, w: nat, j: nat)
    requires w < |Weeks(asg)| && j < 7
    ensures |ExportRows(asg)| == 7 * |Weeks(asg)|
    ensures var row := ExportRows(asg)[7 * w + j];
      var was := ValuesOf(WeekPairs(asg), Weeks(asg)[w]);
      row == if j == 0 then WeekHeaderRow(Weeks(asg)[w])
             else if j == 6 then BLANK_ROW
             else DayRowOf(was, Weekdays[j - 1])
  {
    BlocksAt(Weeks(asg), WeekPairs(asg), w, j);
  }

  /** A day row starts with the day's name, followed by the text of each of the eight periods. */
  lemma DayRowCells(was: seq<BaseAssignment>, day: Day, p: nat)
    requires 1 <= p <= EXPORT_PERIODS
    ensures |DayRowOf(was, day)| == EXPORT_PERIODS + 1 && DayRowOf(was, day)[0] == Name(day)
    ensures DayRowOf(was, day)[p] == SlotText(was, day, p)
  {
  }

  /** The `Period p` cell of day `d` in the `w`-th block holds the class of the first assignment
      of the schedule in that week, on that day and in that period, or '' when there is none. */
  lemma ExportCell(asg: seq<BaseAssignment>, w: nat, d: nat, p: nat)
    requires w < |Weeks(asg)| && d < 5 && 1 <= p <= EXPORT_PERIODS
    ensures var row := ExportRows(asg)[7 * w + 1 + d];
      && |row| == EXPORT_PERIODS + 1
      && row[p] == match FirstInSlot(asg, Weeks(asg)[w], Weekdays[d], p) case Some(a) => a.classId case None => ""
  {
    var weeks := Weeks(asg);
    var was := ValuesOf(WeekPairs(asg), weeks[w]);
    ExportLayout(asg, w, 1 + d);
    DayRowCells(was, Weekdays[d], p);
    FindInWeek(asg, weeks[w], Weekdays[d], p);
  }
}
