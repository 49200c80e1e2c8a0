# Verified model of the thunder_scheduler core

This project models, in Dafny, the deterministic core of a school timetabling system. Its backend builds a weekly class schedule with a constraint solver, and its frontend displays and edits that schedule. The model covers:

- **The schedule validator** (`ScheduleValidator` in the Python solver package). All eight rule checks are loops over dictionaries, so they are imperative methods proved equal to recursive specification functions. `ValidatorFacts` then proves what those reports mean: the number of reports per slot, per class, per `(week, day)` group and per week; when a run of consecutive periods is reported; and when the optional break rule fires.
- **The pytest oracle helpers**: counting classes per `(week, day)`, the yes/no consecutive and break checks, and the period-cell reader of the test CSV. Each helper is proved to agree with the validator.
- **The backend CSV service**: the header check, period-cell parsing with range filtering and error accumulation, the per-row collection of conflict records, and the rows of the schedule export.
- **The class import parser** of the class service.
- **The solver-service reshaping** of classes and teacher availability into solver input, of the solver's answer into assignments, and of assignments into validator input.
- **The frontend schedule store**: the reducer and the dispatch sequences of its three requests.
- **The query hooks' cache protocols**: key families, response checks, and optimistic update with snapshot and rollback. These run on a query cache modelled as a class holding a map and the list of invalidated keys.
- **The drag-and-drop move planner**.
- **The multi-period selection hook** and **the conflict and availability toggles**, with their grid and container.
- **The calendar cell filters, week navigation, class-card summary and the day-name tables**.
- **The error layer**: normalisation, constraint errors, the retry wrapper with exponential backoff, the promise wrapper and the error-configuration table.

Shared helper modules:

- `Wrappers`: `Option` and `Result`.
- `Seqs`: distinct keys in first-appearance order, counts, filter and a comparison sort.
- `Grouping`: group-by into a dictionary of lists.
- `JsText`: the JavaScript string primitives `trim`, `split`, `join`, `parseInt` and `String(n)`.
- `Days`: the shared `MONDAY` … `FRIDAY` enumeration.

Python dictionaries and JavaScript objects keep insertion order, so each is modelled as a map together with its sequence of keys.

## Model

| member | source | states |
|---|---|---|
| SolutionValidator.DayKeySplits | backend/python/solver/solution_validator.py:155-168 | splitting a `week_day` group key on `_` gives back exactly the week text and the day name |
| SolutionValidator.SlotKeySplits | backend/python/solver/solution_validator.py:102-103 | splitting a `week_day_period` slot key on `_` gives back its three parts |
| SolutionValidator.DayKeyTextInjective | backend/python/solver/solution_validator.py:155-161 | two (week, day) groups with the same text key are the same group, so the dictionary keyed by text groups exactly by (week, day) |
| SolutionValidator.SlotKeyTextInjective | backend/python/solver/solution_validator.py:102-106 | two slots with the same text key are the same (week, day, period) |
| SolutionValidator.DayKeys | backend/python/solver/solution_validator.py:155-158 | one group key per assignment, with the missing week read as 1 |
| SolutionValidator.ClassConflictViolations | backend/python/solver/solution_validator.py:60-78 | at most one report per assignment, every one a `class_conflict` carrying its assignment |
| SolutionValidator.ValidateClassConflicts | backend/python/solver/solution_validator.py:60-78 | the loop reports exactly the assignments whose period is listed under their class and day, in input order |
| SolutionValidator.TeacherViolations | backend/python/solver/solution_validator.py:80-96 | at most one report per assignment, every one `teacher_unavailable` |
| SolutionValidator.ValidateTeacherAvailability | backend/python/solver/solution_validator.py:80-96 | the loop reports exactly the assignments whose period is blocked on their day name, whatever their week |
| SolutionValidator.FirstInSlot | backend/python/solver/solution_validator.py:102-117 | the first-seen assignment of a slot lies in that slot |
| SolutionValidator.SlotViolations | backend/python/solver/solution_validator.py:98-118 | at most one report per assignment, every one `multiple_classes_per_slot` |
| SolutionValidator.ValidateOneClassPerSlot | backend/python/solver/solution_validator.py:98-118 | the loop with its first-seen dictionary reports each later assignment of an occupied slot, paired with the first one |
| SolutionValidator.ZeroCounts | backend/python/solver/solution_validator.py:123 | the count dictionary starts with every listed class id, once each in first-listed order, at 0 |
| SolutionValidator.CountClasses | backend/python/solver/solution_validator.py:123-128 | every listed id's count is the number of assignments to it; unknown ids are skipped and add no key |
| SolutionValidator.EachOnceFor | backend/python/solver/solution_validator.py:130-143 | at most one report per listed id, each `class_not_scheduled` or `class_scheduled_multiple_times` |
| SolutionValidator.ValidateEachClassOnce | backend/python/solver/solution_validator.py:120-145 | the method's reports are the each-once reports of the listed classes against the assignment counts |
| SolutionValidator.CountByDay | backend/python/solver/solution_validator.py:153-161 | the per-(week, day) counts: each group key once in first-seen order, with its number of assignments |
| SolutionValidator.PerDayFor | backend/python/solver/solution_validator.py:163-175 | at most one report per group, each with the configured cap and a count above it |
| SolutionValidator.ValidateMaxClassesPerDay | backend/python/solver/solution_validator.py:147-176 | the reports are the per-day reports for the cap read with default 4 |
| SolutionValidator.CountByWeek | backend/python/solver/solution_validator.py:184-190 | the per-week counts: each week once in first-seen order, with its number of assignments |
| SolutionValidator.PerWeekFor | backend/python/solver/solution_validator.py:192-201 | at most one report per week, each with the cap and a count above it |
| SolutionValidator.ValidateMaxClassesPerWeek | backend/python/solver/solution_validator.py:178-203 | the reports are the per-week reports for the cap read with default 16 |
| SolutionValidator.RunLen | backend/python/solver/solution_validator.py:225-241 | the running consecutive count at index i lies between 1 and i + 1 |
| SolutionValidator.FirstOverflow | backend/python/solver/solution_validator.py:225-237 | the index where the scan first breaks out lies inside the scanned range |
| SolutionValidator.FirstOverflowFound | backend/python/solver/solution_validator.py:228-230 | at that index the value is one more than the previous one and the count exceeds the cap |
| SolutionValidator.ScanConsecutive | backend/python/solver/solution_validator.py:224-242 | the loop with `consecutive_count` and `break` yields exactly the overflowing slice, or none |
| SolutionValidator.ConsecutiveOfGroup | backend/python/solver/solution_validator.py:222-242 | a group gives at most one report, one exactly when its sorted periods overflow, naming the overflowing slice |
| SolutionValidator.GroupPeriodsByDay | backend/python/solver/solution_validator.py:211-220 | every group key once in first-seen order, mapped to its periods in input order |
| SolutionValidator.CheckConsecutiveGroup | backend/python/solver/solution_validator.py:222-242 | sorting one group's periods and scanning gives that group's report |
| SolutionValidator.ConsecutiveFor | backend/python/solver/solution_validator.py:221-242 | at most one report per group, every one `max_consecutive_classes_exceeded` with the cap |
| SolutionValidator.ValidateConsecutiveClasses | backend/python/solver/solution_validator.py:205-244 | the reports are the consecutive reports for the cap read with default 2 |
| SolutionValidator.StepStarts | backend/python/solver/solution_validator.py:265-267 | at most one start per period: the earlier value of each adjacent pair differing by 1 |
| SolutionValidator.ScanBreaks | backend/python/solver/solution_validator.py:265-275 | the loop over adjacent pairs collects exactly those starts, in order |
| SolutionValidator.NoBreaks | backend/python/solver/solution_validator.py:268-275 | one `no_break_after_class` report per start, naming that period |
| SolutionValidator.BreakOfGroup | backend/python/solver/solution_validator.py:262-275 | a group gives one report per +1 step of its sorted periods |
| SolutionValidator.CheckBreakGroup | backend/python/solver/solution_validator.py:263-275 | sorting one group's periods and scanning gives that group's reports |
| SolutionValidator.BreakFor | backend/python/solver/solution_validator.py:262-275 | every report of the break check is `no_break_after_class` |
| SolutionValidator.ValidateBreakAfterClass | backend/python/solver/solution_validator.py:246-277 | the reports are the break reports of every (week, day) group |
| SolutionValidator.Validate | backend/python/solver/solution_validator.py:33-58 | the seven checks run in fixed order and the break check only when required; `valid` holds iff no violation is reported; the two counts are the input lengths |
| ValidatorFacts.SplitDayKeyInjective | backend/python/solver/solution_validator.py:166-168 | the (`week`, `day`) fields of a grouped report identify its group |
| ValidatorFacts.BreakReportsOnlyWhenRequired | backend/python/solver/solution_validator.py:42-51 | the `no_break_after_class` reports in the result are exactly the break check's when breaks are required, and there are none otherwise |
| ValidatorFacts.FirstInSlotFacts | backend/python/solver/solution_validator.py:102-117 | the first-seen assignment of a slot is one of the assignments, and there is none exactly when the slot is empty |
| ValidatorFacts.SlotViolationCount | backend/python/solver/solution_validator.py:98-118 | a slot holding k assignments gets exactly k − 1 reports (none when empty) |
| ValidatorFacts.SlotReportsPairFirst | backend/python/solver/solution_validator.py:98-118 | every one-class-per-slot report pairs two assignments of the input in the same slot, the first being that slot's first-seen assignment |
| ValidatorFacts.EachOnceForCount | backend/python/solver/solution_validator.py:130-143 | over distinct keys an id gets one report iff it is listed and its count is not 1 |
| ValidatorFacts.EachClassOnceReports | backend/python/solver/solution_validator.py:120-145 | each class gets at most one each-once report, and one iff its count is not 1: `class_not_scheduled` for count 0, `class_scheduled_multiple_times` with the count for a count above 1; every report names a class with that count |
| ValidatorFacts.EachOnceKinds | backend/python/solver/solution_validator.py:120-145 | every each-once report is about a listed id, of the kind and with the count its number of assignments calls for |
| ValidatorFacts.EachOnceReportsId | backend/python/solver/solution_validator.py:120-145 | a listed id with no assignment, or with more than one, is reported with that kind and count |
| ValidatorFacts.EachOnceForFrame | backend/python/solver/solution_validator.py:130-143 | the verdicts depend only on the counts of the listed ids |
| ValidatorFacts.EachClassOnceOnlyKnownIds | backend/python/solver/solution_validator.py:125-128 | two assignment lists with the same counts for the listed ids give the same each-once reports |
| ValidatorFacts.UnknownClassIgnored | backend/python/solver/solution_validator.py:126-128 | an extra assignment to an unlisted class id changes no each-once report |
| ValidatorFacts.PerDayForCount | backend/python/solver/solution_validator.py:163-175 | over distinct keys a group gets one report iff it occurs and its count exceeds the cap |
| ValidatorFacts.MaxPerDayReports | backend/python/solver/solution_validator.py:147-176 | a (week, day) group gets exactly one per-day report iff it has more assignments than the cap, and none otherwise |
| ValidatorFacts.PerDayForMonotone | backend/python/solver/solution_validator.py:163-175 | a larger cap gives no more reports over the same counts |
| ValidatorFacts.MaxPerDayMonotone | backend/python/solver/solution_validator.py:147-176 | raising the daily cap never adds a per-day report, in total or for any group |
| ValidatorFacts.PerWeekForCount | backend/python/solver/solution_validator.py:192-201 | over distinct weeks a week gets one report iff it occurs and its count exceeds the cap |
| ValidatorFacts.MaxPerWeekReports | backend/python/solver/solution_validator.py:178-203 | a week gets exactly one per-week report iff it has more assignments than the cap |
| ValidatorFacts.PerWeekForMonotone | backend/python/solver/solution_validator.py:192-201 | a larger cap gives no more reports over the same counts |
| ValidatorFacts.MaxPerWeekMonotone | backend/python/solver/solution_validator.py:178-203 | raising the weekly cap never adds a per-week report, in total or for any week |
| ValidatorFacts.RunLenSteps | backend/python/solver/solution_validator.py:225-241 | the run the counter measures at index i is made of +1 steps |
| ValidatorFacts.RunLenAtLeast | backend/python/solver/solution_validator.py:225-241 | the counter at j is at least the length of any +1 run ending at j |
| ValidatorFacts.FirstOverflowNone | backend/python/solver/solution_validator.py:226-230 | before the first overflow no index has a step with a count above the cap |
| ValidatorFacts.FirstOverflowIsFirst | backend/python/solver/solution_validator.py:226-237 | the overflow found is the first one |
| ValidatorFacts.OverflowRunIff | backend/python/solver/solution_validator.py:222-242 | the scan reports a slice iff the sorted periods hold a run of consecutive integers longer than the cap (and at least 2) |
| ValidatorFacts.OverflowRunShape | backend/python/solver/solution_validator.py:236 | the reported periods are consecutive integers and a slice of the sorted list ending where the overflow occurred |
| ValidatorFacts.OverflowLength | backend/python/solver/solution_validator.py:228-236 | the reported slice has max + 1 values (2 when the cap is below 1) |
| ValidatorFacts.NoEarlierRun | backend/python/solver/solution_validator.py:226-237 | no run of that length ends before the reported one |
| ValidatorFacts.ConsecutiveForCount | backend/python/solver/solution_validator.py:221-242 | over distinct keys a group gets one consecutive report iff its sorted periods overflow |
| ValidatorFacts.ConsecutiveReports | backend/python/solver/solution_validator.py:205-244 | each (week, day) group gets at most one consecutive report, and one exactly when its sorted periods hold a run longer than the cap |
| ValidatorFacts.BreakForCount | backend/python/solver/solution_validator.py:262-275 | over distinct keys a group gets one break report per +1 step of its sorted periods |
| ValidatorFacts.BreakOfGroupCount | backend/python/solver/solution_validator.py:266-275 | the reports of one group are all about that group |
| ValidatorFacts.BreakReports | backend/python/solver/solution_validator.py:246-277 | a (week, day) group gets as many break reports as its sorted periods have adjacent pairs differing by exactly 1 |
| ValidatorFacts.StepStartsEmpty | backend/python/solver/solution_validator.py:265-267 | there is no start iff no adjacent pair differs by 1 |
| ValidatorFacts.StepIffRunOverOne | backend/python/solver/solution_validator.py:222-242 | a sorted list has a +1 step iff the consecutive scan with cap 1 overflows |
| ValidatorFacts.BreakForEmptyIff | backend/python/solver/solution_validator.py:205-277 | over any group keys the break check is silent iff the consecutive check with cap 1 is |
| ValidatorFacts.BreakIffConsecutiveOne | backend/python/solver/solution_validator.py:205-277 | the break check reports nothing exactly when the consecutive check with cap 1 reports nothing |
| ValidatorFacts.ConsecutiveForEmpty | backend/python/solver/solution_validator.py:221-242 | no consecutive report over the keys iff every listed group is clear |
| ValidatorFacts.BreakForEmpty | backend/python/solver/solution_validator.py:262-275 | no break report over the keys iff every listed group is clear |
| ValidatorFacts.NoConsecutiveReportsSound | backend/python/solver/solution_validator.py:205-244 | without consecutive reports no group has a run longer than the cap |
| ValidatorFacts.ConsecutiveReportWitness | backend/python/solver/solution_validator.py:205-244 | a consecutive report names a group that has such a run |
| ValidatorFacts.NoConsecutiveReports | backend/python/solver/solution_validator.py:205-244 | the consecutive check is silent iff no (week, day) group has a run longer than the cap |
| ValidatorFacts.NoBreakReportsSound | backend/python/solver/solution_validator.py:246-277 | without break reports no group has adjacent sorted periods differing by 1 |
| ValidatorFacts.BreakReportWitness | backend/python/solver/solution_validator.py:246-277 | a break report names a group with such a pair |
| ValidatorFacts.NoBreakReports | backend/python/solver/solution_validator.py:246-277 | the break check is silent iff no (week, day) group has two adjacent sorted periods differing by 1 |
| PytestHelpers.KeyTexts | backend/python/tests/test_solver_pytest.py:207-210 | one `week_day` key per assignment, in order, with the missing week read as 1 |
| PytestHelpers.CountClassesPerDay | backend/python/tests/test_solver_pytest.py:197-216 | the dictionary holds each day key once, in first-seen order, with its number of assignments |
| PytestHelpers.CountsSumToLength | backend/python/tests/test_solver_pytest.py:197-216 | the counts add up to the number of assignments |
| PytestHelpers.CountedKeysOccur | backend/python/tests/test_solver_pytest.py:197-216 | a key is present iff some assignment has it, and then its count is positive |
| PytestHelpers.DayPairs | backend/python/tests/test_solver_pytest.py:231-239 | one (day key, period) pair per assignment, in order |
| PytestHelpers.GroupByDay | backend/python/tests/test_solver_pytest.py:229-239 | `day_assignments` holds each day key once, in first-seen order, with its periods in input order |
| PytestHelpers.ValuesOfDayKey | backend/python/tests/test_solver_pytest.py:229-239 | the periods filed under a day's text key are the validator's periods of that (week, day) |
| PytestHelpers.GroupOfDay | backend/python/tests/test_solver_pytest.py:229-239 | every (week, day) of the solution has its group in the dictionary |
| PytestHelpers.DayOfGroup | backend/python/tests/test_solver_pytest.py:229-239 | every group of the dictionary is the group of a (week, day) of the solution |
| PytestHelpers.NoGroupHasLongRun | backend/python/tests/test_solver_pytest.py:242-254 | when no dictionary group has a long run, no (week, day) of the solution has one |
| PytestHelpers.NoGroupHasStep | backend/python/tests/test_solver_pytest.py:279-286 | when no dictionary group has adjacent periods, no (week, day) of the solution has |
| PytestHelpers.ConsecutiveOracleFails | backend/python/tests/test_solver_pytest.py:242-250 | a group with a long run makes the validator report a consecutive violation |
| PytestHelpers.BreakOracleFails | backend/python/tests/test_solver_pytest.py:279-284 | a group with adjacent periods makes the validator report a break violation |
| PytestHelpers.RunTooLong | backend/python/tests/test_solver_pytest.py:244-252 | the inner counting loop finds an overflow iff the sorted list holds a run of consecutive integers longer than the cap |
| PytestHelpers.NoLongRunInGroups | backend/python/tests/test_solver_pytest.py:242-254 | the outer loop answers yes iff no sorted group has such a run |
| PytestHelpers.ConsecutiveOracle | backend/python/tests/test_solver_pytest.py:219-254 | judging the dictionary's groups is judging the validator's (week, day) groups |
| PytestHelpers.CheckConsecutiveClasses | backend/python/tests/test_solver_pytest.py:219-254 | `check_consecutive_classes` is true iff the validator reports no consecutive violation for the same cap |
| PytestHelpers.GroupKeysPresent | backend/python/tests/test_solver_pytest.py:229-239 | every listed key has its group |
| PytestHelpers.HasStep | backend/python/tests/test_solver_pytest.py:281-284 | the inner loop finds a pair iff two adjacent sorted periods differ by 1 |
| PytestHelpers.NoStepInGroups | backend/python/tests/test_solver_pytest.py:279-286 | the outer loop answers yes iff no sorted group has such a pair |
| PytestHelpers.BreakOracle | backend/python/tests/test_solver_pytest.py:257-286 | judging the dictionary's groups is judging the validator's (week, day) groups |
| PytestHelpers.CheckBreakAfterClass | backend/python/tests/test_solver_pytest.py:257-286 | `check_break_after_class` is true iff the validator reports no break violation |
| PeriodCells.PyStrip | backend/python/tests/test_solver_pytest.py:153-157 | `strip()` never lengthens and leaves no space at either end |
| PeriodCells.StripUnpadded | backend/python/tests/test_solver_pytest.py:153-157 | an unpadded text strips to itself |
| PeriodCells.PyInt | backend/python/tests/test_solver_pytest.py:153-157 | `int()` accepts only a text with something left after stripping |
| PeriodCells.PyIntOfString | backend/python/tests/test_solver_pytest.py:153-157 | `int()` reads back the decimal rendering of any integer |
| PeriodCells.ParseCell | backend/python/tests/test_solver_pytest.py:150-159 | an empty cell adds no entry; a cell holding `;` is split on `;`, else one holding `,` on `,`, else read as one integer; any piece that is not an integer raises |
| PeriodCells.ParseCellCount | backend/python/tests/test_solver_pytest.py:152-157 | a parsed cell has one more period than separators of the kind it was split on |
| PeriodCells.TextsClean | backend/python/tests/test_solver_pytest.py:152-157 | decimal renderings hold neither separator and read back as their numbers |
| PeriodCells.JoinedCellParts | backend/python/tests/test_solver_pytest.py:152-155 | a cell of renderings joined by `;` or `,` splits back into those renderings |
| PeriodCells.ParseCellJoin | backend/python/tests/test_solver_pytest.py:150-159 | a cell written as periods joined by `;` or by `,` reads back as exactly those periods |
| PeriodCells.ParseAllClean | backend/python/tests/test_solver_pytest.py:153-155 | the piece-wise `int()` succeeds with the pieces' numbers when each piece parses |
| PeriodCells.DayCells | backend/python/tests/test_solver_pytest.py:148 | `row[1:6]`: up to five cells after the class name, fewer in a short row |
| PeriodCells.ParseCells | backend/python/tests/test_solver_pytest.py:148-159 | each day cell parsed, in order |
| PeriodCells.DayEntriesDefined | backend/python/tests/test_solver_pytest.py:148-159 | the row yields conflicts iff no cell raises |
| PeriodCells.DayEntriesAt | backend/python/tests/test_solver_pytest.py:148-159 | a weekday has an entry iff its cell parsed to periods, and the entry is those periods |
| PeriodCells.RowConflicts | backend/python/tests/test_solver_pytest.py:148-159 | the loop over `enumerate(row[1:6])` fills exactly those entries |
| PeriodCells.RowEntryPresent | backend/python/tests/test_solver_pytest.py:150-159 | a weekday has an entry iff the row has that cell and it is non-empty |
| CsvService.ValidateCsvFormat | backend/src/services/csv.service.ts:110-160 | the method's result is the format verdict, and it is valid iff it carries no error |
| CsvService.CheckHeaders | backend/src/services/csv.service.ts:135-154 | comparing the split header row gives one count error, or one error per wrong position in order |
| CsvService.CsvFormatValidity | backend/src/services/csv.service.ts:114-121 | every verdict is valid iff it has no error; a blank or white-space-only input gets exactly one `MALFORMED_CSV` error and is invalid |
| CsvService.WrongWidthOneError | backend/src/services/csv.service.ts:138-143 | a header row whose length is not 6 gets exactly one `MISSING_HEADERS` error |
| CsvService.MismatchErrorsFacts | backend/src/services/csv.service.ts:145-153 | every position error is `MISSING_HEADERS`, one per position whose header differs from the expected one |
| CsvService.MismatchErrorsEmpty | backend/src/services/csv.service.ts:145-153 | no position error iff the headers are exactly the expected ones |
| CsvService.HeaderLineClean | backend/src/types/csv.types.ts:49-50 | the expected header row holds no line break and no white space at its ends |
| CsvService.HeaderRowFirst | backend/src/services/csv.service.ts:124 | the first line of a file starting with the expected header row is that row |
| CsvService.HeaderRowSplit | backend/src/services/csv.service.ts:135 | such a file's trimmed and split header row is the expected one |
| CsvService.HeaderRowAccepted | backend/src/services/csv.service.ts:110-160 | a file whose first line is the expected header row is valid with no error, whatever follows |
| CsvService.Numbers | backend/src/services/csv.service.ts:189-190 | the numbers kept after dropping `NaN` are at most the parts |
| CsvService.ParsePeriods | backend/src/services/csv.service.ts:165-207 | a cell adds at most one error and every period returned lies in 1 … maxPeriods |
| CsvService.ParsePeriodsEmpty | backend/src/services/csv.service.ts:172 | an empty cell gives no period and no error |
| CsvService.ParsePeriodsMalformed | backend/src/services/csv.service.ts:175-185 | a non-empty cell not matching `^(\d+)(;\d+)*$` gives no period and exactly one `INVALID_PERIOD` error, and only such a cell gives that error |
| CsvService.ParsePeriodsKept | backend/src/services/csv.service.ts:187-206 | on a well-formed cell the periods are the cell's numbers within range, in their order, a subsequence of them |
| CsvService.ParsePeriodsOutOfRange | backend/src/services/csv.service.ts:193-204 | on a well-formed cell there is exactly one `PERIOD_OUT_OF_RANGE` error iff some number lies outside the range |
| CsvService.NumbersOfTexts | backend/src/services/csv.service.ts:187-190 | `parseInt` reads the decimal texts of natural numbers back as those numbers |
| CsvService.NumbersOfParsed | backend/src/services/csv.service.ts:189-190 | parts that each parse give exactly their numbers |
| CsvService.NatTextsClean | backend/src/types/csv.types.ts:51-54 | the texts of natural numbers are non-empty digit runs without the delimiter |
| CsvService.ParsePeriodsJoin | backend/src/services/csv.service.ts:165-207 | a cell written as `p1;p2;…` from periods in range reads back as exactly those periods with no error |
| CsvService.ParseRow | backend/src/services/csv.service.ts:55-86 | a row gives a record iff its `Class` matches `^[A-Za-z0-9\s-]+$`; otherwise exactly one `EMPTY_CLASS` error and no record; the record carries the row's class |
| CsvService.RowRecordConflicts | backend/src/services/csv.service.ts:77-85 | an accepted row's record has every weekday, holding the periods of that day's cell, all in range |
| CsvService.CellCleanIff | backend/src/services/csv.service.ts:172-206 | a cell adds no error iff it is empty or a period list whose numbers all lie in range |
| CsvService.RowCleanIff | backend/src/services/csv.service.ts:55-86 | a row adds no error iff its class name is valid and its five day cells are clean |
| CsvService.Collect | backend/src/services/csv.service.ts:46-95 | the line counter advances once per accepted row, and there are at most as many records as rows |
| CsvService.ParseClassConflicts | backend/src/services/csv.service.ts:23-104 | the optional format check, then one callback per row, giving the outcome of the parse |
| CsvService.AllRowsCleanIff | backend/src/services/csv.service.ts:55-95 | the recursive cleanliness of the rows is cleanliness of every row |
| CsvService.CollectAllClean | backend/src/services/csv.service.ts:55-95 | no error accumulates iff every row is clean |
| CsvService.CollectCleanIff | backend/src/services/csv.service.ts:55-95 | no error accumulates iff every row is clean, stated row by row |
| CsvService.CollectRecords | backend/src/services/csv.service.ts:55-101 | without errors every row gives one record, in order, named by its class |
| CsvService.CollectSnoc | backend/src/services/csv.service.ts:55-86 | the last row of an error-free collection adds exactly one record, named by its class |
| CsvService.ParseSucceedsIff | backend/src/services/csv.service.ts:96-101 | with the format check off, the parse resolves iff every row is clean |
| CsvService.ParseRecords | backend/src/services/csv.service.ts:96-101 | a resolved parse has one record per row, in order, named by the row's class |
| CsvService.FormatCheckRejects | backend/src/services/csv.service.ts:34-43 | with the format check on, an invalid file is rejected before any row is read |
| CsvService.Find | backend/src/services/csv.service.ts:251-253 | the assignment found is one of the week's, at that day and period |
| CsvService.WeekBlock | backend/src/services/csv.service.ts:229-272 | one week gives seven rows |
| CsvService.WeekPairs | backend/src/services/csv.service.ts:222-226 | each assignment paired with its week, in order |
| CsvService.Blocks | backend/src/services/csv.service.ts:229-272 | seven rows per week |
| CsvService.BuildDayRow | backend/src/services/csv.service.ts:244-257 | the `for` loop over periods 1 … 8 builds the day's row |
| CsvService.BuildWeekBlock | backend/src/services/csv.service.ts:230-271 | the rows pushed for one week are its block |
| CsvService.GroupByWeek | backend/src/services/csv.service.ts:221-226 | the map holds each week once, in first-seen order, with its assignments in input order |
| CsvService.BuildBlocks | backend/src/services/csv.service.ts:229-272 | one block per week of the map, in the map's order |
| CsvService.GenerateScheduleRows | backend/src/services/csv.service.ts:214-272 | the rows handed to the formatter are the export rows |
| CsvService.FirstInSlotIsFirst | backend/src/services/csv.service.ts:251-254 | the slot's first assignment in the whole schedule is absent only when no assignment is there |
| CsvService.FindInWeek | backend/src/services/csv.service.ts:221-254 | searching one week's group finds the first assignment of the schedule in that week and slot |
| CsvService.BlocksAt | backend/src/services/csv.service.ts:229-272 | row 7·w + j of the export is row j of the w-th week's block |
| CsvService.ExportLayout | backend/src/services/csv.service.ts:221-272 | 7 rows per distinct week in order of first appearance: `Week n`, the five weekday rows, a blank row |
| CsvService.DayRowCells | backend/src/services/csv.service.ts:245-255 | a day row starts with the day name, followed by the text of each of the eight periods |
| CsvService.ExportCell | backend/src/services/csv.service.ts:244-255 | the `Period p` cell of day d in week block w holds the class of the first assignment of that week, day and period, or '' |
| SolverService.FormatConflicts | backend/src/services/solver.service.ts:153-165 | the nested `forEach` loops build the conflicts record of every class |
| SolverService.DayRecordFacts | backend/src/services/solver.service.ts:158-161 | a day is in a class's record iff one of its conflicts is for that day, and holds the periods of the last such conflict |
| SolverService.FormattedConflictsKeys | backend/src/services/solver.service.ts:157-158 | every class id gets an entry, even with no conflict, and only class ids do |
| SolverService.FormattedConflictsLast | backend/src/services/solver.service.ts:157-162 | the entry of an id is the day record of the last class with that id |
| SolverService.WeekdayOfIndex | backend/src/services/solver.service.ts:182-188 | a day index yields a weekday iff it is 1 … 5, the weekday at position index − 1 |
| SolverService.FormatTeacherAvailability | backend/src/services/solver.service.ts:172-203 | the `forEach` loop builds the formatted availability |
| SolverService.BlockedOnAppend | backend/src/services/solver.service.ts:195-198 | the blocked periods of a weekday over two lists of records are those of the first list followed by those of the second |
| SolverService.FormattedAvailabilityKeys | backend/src/services/solver.service.ts:177-199 | a weekday has an entry iff some record falls on it |
| SolverService.FormattedAvailabilityValues | backend/src/services/solver.service.ts:191-198 | a weekday's entry is the concatenation, in input order, of the blocked periods of every record on that weekday, whatever its week |
| SolverService.WeekendDropped | backend/src/services/solver.service.ts:182-184 | a record on day index 0 or 6 changes nothing |
| SolverService.ScheduleFromResult | backend/src/services/solver.service.ts:88-101 | success with a solution gives one assignment per entry with `scheduleId` ''; anything else fails with `message`, or 'No solution found' when it is missing or empty |
| SolverService.ValidatorAssignments | backend/src/services/solver.service.ts:124-129 | one validator assignment per stored one, in order, with the same class id, day, period and week |
| SolverService.ValidatorIgnoresScheduleIds | backend/src/services/solver.service.ts:124-129 | assignment lists that differ only in their schedule ids give the validator the same assignments |
| SolverService.ClassInfos | backend/src/services/solver.service.ts:130 | one class entry per class, in order, with the same id, name and grade level |
| SolverService.StoredSolutionValidates | backend/src/services/solver.service.ts:88-129 | storing a successful answer and projecting it for the validator gives exactly the solver's classId/day/period/week placements, in order |
| SolverService.ValidatorInputSizes | backend/src/services/solver.service.ts:123-134 | the validator receives as many assignments and classes as the service was given, with the same class ids, each with a conflicts entry |
| ClassImport.GradeLevelValue | backend/src/services/class.service.ts:99 | the grade is the value of the first digit run of the class name, or 0 when it has no digit |
| ClassImport.PeriodsOf | backend/src/services/class.service.ts:106 | one period per `;`-separated piece of the cell |
| ClassImport.ConflictsUpTo | backend/src/services/class.service.ts:103-112 | the first n weekdays give at most n conflicts |
| ClassImport.ClassesOfLines | backend/src/services/class.service.ts:96-119 | every line after the first gives one class |
| ClassImport.ClassesOfLinesAt | backend/src/services/class.service.ts:96-118 | class k comes from line k + 1 |
| ClassImport.BuildConflicts | backend/src/services/class.service.ts:103-112 | the `forEach` over the weekdays pushes exactly the conflicts of the non-empty cells |
| ClassImport.ImportClassesFromCsv | backend/src/services/class.service.ts:91-119 | the loop over the lines builds the imported classes |
| ClassImport.ImportLine | backend/src/services/class.service.ts:97-118 | one line gives its class |
| ClassImport.ImportedCount | backend/src/services/class.service.ts:92-96 | after trimming there is one class per line break, so one per line after the first |
| ClassImport.ImportedNames | backend/src/services/class.service.ts:97-115 | class k is named by the first comma field of line k + 1, which holds no comma |
| ClassImport.ConflictAtFacts | backend/src/services/class.service.ts:104-111 | a weekday gives a conflict iff its cell exists and is non-empty, and then one, with that day and the cell's periods |
| ClassImport.ConflictsUpToFacts | backend/src/services/class.service.ts:103-112 | the conflicts come strictly in weekday order, each for a day whose cell is non-empty and holding that cell's periods |
| ClassImport.ConflictsUpToCells | backend/src/services/class.service.ts:104-111 | each conflict is for a weekday whose cell exists, is non-empty and gives its periods |
| ClassImport.ConflictsUpToOrdered | backend/src/services/class.service.ts:103 | the conflicts come in MONDAY … FRIDAY order |
| ClassImport.ConflictsUpToComplete | backend/src/services/class.service.ts:104-111 | every weekday with a non-empty cell has its conflict |
| ClassImport.ClassConflictOrder | backend/src/services/class.service.ts:103-112 | a class has at most 5 conflicts, in strictly increasing weekday order |
| ClassImport.ClassConflictDay | backend/src/services/class.service.ts:103-112 | a class has a conflict for a day iff that day's cell exists and is non-empty, and it holds that cell's periods |
| ClassImport.PeriodCount | backend/src/services/class.service.ts:106 | a cell gives one more period than it has `;` |
| ClassImport.PeriodsOfJoin | backend/src/services/class.service.ts:106 | a cell written as natural numbers joined by `;` reads back as those numbers |
| ScheduleContext.Merge | frontend/src/context/ScheduleContext.tsx:63 | every field the update carries wins, every other is kept, and an empty update changes nothing |
| ScheduleContext.MergeInto | frontend/src/context/ScheduleContext.tsx:61-65 | the mapped assignments keep their number |
| ScheduleContext.Reduce | frontend/src/context/ScheduleContext.tsx:37-73 | `SET_SCHEDULE` changes only `schedule` and `lastUpdate`; `SET_LOADING` and `SET_ERROR` only their own field; `UPDATE_ASSIGNMENT` without a schedule returns the state; `CLEAR_SCHEDULE` returns the initial state; an unknown action returns the state |
| ScheduleContext.UpdateAssignmentMerges | frontend/src/context/ScheduleContext.tsx:55-67 | on a loaded schedule the rest of the schedule is kept, the length and order of the assignments are kept, the update is merged into every assignment of the class and every other assignment is left as it was |
| ScheduleContext.UpdateAssignmentIdempotent | frontend/src/context/ScheduleContext.tsx:55-67 | repeating an update that keeps the class id changes nothing more |
| ScheduleContext.ClearIdempotent | frontend/src/context/ScheduleContext.tsx:68-69 | clearing gives the initial state, and clearing twice is clearing once |
| ScheduleContext.RunAppend | frontend/src/context/ScheduleContext.tsx:77 | dispatching two action sequences one after the other is dispatching their concatenation |
| ScheduleContext.UpdateActions | frontend/src/context/ScheduleContext.tsx:115-116 | with no schedule loaded `updateAssignment` dispatches nothing and the state stays |
| ScheduleContext.RequestSettles | frontend/src/context/ScheduleContext.tsx:79-134 | after a request loading is off; on success the answer is the schedule, stamped, and the error cleared; on failure the schedule and stamp are untouched and the error is the message or the fallback text |
| ScheduleContext.RunShape | frontend/src/context/ScheduleContext.tsx:80-91 | the request dispatches loading on, then the schedule and a cleared error or the error, then loading off |
| ScheduleContext.ScheduleProvider.Dispatch | frontend/src/context/ScheduleContext.tsx:77 | the new state is the reducer's result on the old one |
| ScheduleContext.ScheduleProvider.Request | frontend/src/context/ScheduleContext.tsx:80-92 | the new state is the old one run through the request's actions |
| ScheduleContext.ScheduleProvider.LoadSchedule | frontend/src/context/ScheduleContext.tsx:79-93 | the state after `loadSchedule`, with fallback 'Failed to load schedule' |
| ScheduleContext.ScheduleProvider.GenerateSchedule | frontend/src/context/ScheduleContext.tsx:95-113 | the state after `generateSchedule`, with fallback 'Failed to generate schedule' |
| ScheduleContext.ScheduleProvider.UpdateAssignment | frontend/src/context/ScheduleContext.tsx:115-134 | nothing without a loaded schedule; otherwise the request's actions with fallback 'Failed to update assignment' |
| ScheduleContext.ScheduleProvider.Clear | frontend/src/context/ScheduleContext.tsx:136-138 | the state is the initial state |
| ScheduleQuery.KeyFacts | frontend/src/hooks/useScheduleQuery.ts:39-43 | `lists()` is `['schedules']` and `detail(id)` is `['schedules', id]`; distinct ids give distinct detail keys; invalidating the list key reaches every detail key, and a detail key reaches only itself |
| ScheduleQuery.AsSchedule | frontend/src/hooks/useScheduleQuery.ts:244-259 | an object is a full schedule iff it has every key, and then it is that schedule's object |
| ScheduleQuery.FieldsRoundTrip | frontend/src/hooks/useScheduleQuery.ts:244-259 | a full schedule reads back from its object, which is not `{}` |
| ScheduleQuery.SpreadFacts | frontend/src/hooks/useScheduleQuery.ts:254 | spreading `{}` on either side changes nothing; spreading the same updates twice is spreading them once; spreads associate |
| ScheduleQuery.SpreadKeeps | frontend/src/hooks/useScheduleQuery.ts:254 | every key of the updates wins, every other keeps the previous value, and full updates replace the entry |
| ScheduleQuery.FetchSchedule | frontend/src/hooks/useScheduleQuery.ts:56-77 | the `queryFn` never throws: it returns the response when it has a truthy id, and `{}` when the response is missing, lacks an id or the fetch failed |
| ScheduleQuery.FetchAllSchedules | frontend/src/hooks/useScheduleQuery.ts:94-128 | the `queryFn` returns the array, the empty one included, iff the response is an array; a missing response and a non-array throw their own `Error`, and a failed fetch rethrows its error |
| ScheduleQuery.SettleScheduleMutation | frontend/src/hooks/useScheduleQuery.ts:138-231 | on success the detail entry becomes what the mutation caches (the answer's `data` for `useUpdateSchedule`, the whole answer `{ data, success }` for `useUpdateAssignment` and `useResolveConflicts`) and nothing else changes; on failure the cache is untouched and the error reported once |
| ScheduleQuery.EnvelopeAnswerUnreadable | frontend/src/hooks/useScheduleQuery.ts:177-231 | when the server answers with a full schedule, the detail query reads it back from what `useUpdateSchedule` caches, but not from what `useUpdateAssignment` or `useResolveConflicts` cache: that entry has no id and no assignments, and spreading updates over it keeps only the updates (see also frontend/src/services/scheduleService.ts:65-101) |
| ScheduleQuery.IntendedCachedAnswer | frontend/src/hooks/useScheduleQuery.ts:183-190 | the intended entry of every mutation is the answer's `data`, the entry `useUpdateSchedule` caches |
| ScheduleQuery.IntendedAnswerReadable | frontend/src/hooks/useScheduleQuery.ts:183-190 | with the intended caching, every mutation's entry reads back as the full schedule the server answered |
| ScheduleQuery.SettleGeneration | frontend/src/hooks/useScheduleQuery.ts:164-171 | on success the list queries are invalidated and the new schedule stored under the detail key of its own id; on failure nothing changes and the error is reported |
| ScheduleQuery.Snapshot | frontend/src/hooks/useScheduleQuery.ts:247-249 | the snapshot is present iff the detail entry is cached |
| ScheduleQuery.OptimisticWrite | frontend/src/hooks/useScheduleQuery.ts:251-256 | a cached detail entry becomes `{...prev, ...updates}`; without one nothing is written; every other entry is untouched |
| ScheduleQuery.Rollback | frontend/src/hooks/useScheduleQuery.ts:261-266 | a present snapshot is written back under the detail key; an absent one writes nothing |
| ScheduleQuery.RollbackRestores | frontend/src/hooks/useScheduleQuery.ts:244-266 | rolling back with the snapshot `onMutate` took restores the whole cache |
| ScheduleQuery.OnMutate | frontend/src/hooks/useScheduleQuery.ts:244-259 | returns the prior entry as snapshot and writes the merged entry |
| ScheduleQuery.OnOptimisticError | frontend/src/hooks/useScheduleQuery.ts:260-268 | writes the snapshot back and reports the error once |
| ScheduleQuery.OptimisticUpdate | frontend/src/hooks/useScheduleQuery.ts:242-272 | a failed update leaves every entry as it was and reports the error; a successful one leaves the merged entry; the detail query is invalidated either way |
| QueryCache.QueryClient.GetQueryData | frontend/src/hooks/useScheduleQuery.ts:247-249 | the cached value under the key, or `undefined` when there is none |
| QueryCache.QueryClient.SetQueryData | frontend/src/hooks/useScheduleQuery.ts:252-255 | the entry under the key becomes the value and every other entry is kept |
| QueryCache.QueryClient.InvalidateQueries | frontend/src/hooks/useScheduleQuery.ts:167-270 | the entries stay and the key is appended to the invalidations |
| DragDrop.ParseDropId | frontend/src/hooks/useDragDropSchedule.ts:39-42 | the day is the dash-free text before the first dash (the whole id when there is none, with period `NaN`) |
| DragDrop.ParseDroppableId | frontend/src/hooks/useDragDropSchedule.ts:39-42 | for a dash-free day and a non-negative period, parsing the id `` `${day}-${period}` `` gives both back (see also frontend/src/components/schedule/GeneratedSchedule/DroppableCell.tsx:23) |
| DragDrop.NegativePeriodLost | frontend/src/hooks/useDragDropSchedule.ts:39-42 | for a negative period the minus sign is read as a second dash and the period becomes `NaN` |
| DragDrop.DragKeyIsNotDetailKey | frontend/src/hooks/useDragDropSchedule.ts:84-107 | the key `['schedule', id]` the move writes and invalidates is not the detail key `['schedules', id]`, and invalidating it does not reach the detail query (see also frontend/src/hooks/useScheduleQuery.ts:42) |
| DragDrop.Proposal | frontend/src/hooks/useDragDropSchedule.ts:58-63 | the new assignment keeps the dragged classId, takes the destination's day and period, and has week 1 |
| DragDrop.MoveClass | frontend/src/hooks/useDragDropSchedule.ts:88-90 | same length; every assignment of the moved class becomes the new one and every other is kept |
| DragDrop.MoveClassKeepsOthers | frontend/src/hooks/useDragDropSchedule.ts:88-90 | after the map the assignments of other classes are the same, in the same order |
| DragDrop.MoveInCache | frontend/src/hooks/useDragDropSchedule.ts:83-97 | a cached schedule under the drag key gets the mapped assignments and keeps its other fields; an absent one stays absent; other keys are untouched |
| DragDrop.ConflictError | frontend/src/hooks/useDragDropSchedule.ts:75-80 | the thrown error is an `Error` whose message is 'Invalid move: ' + the conflicts joined by ', ' |
| DragDrop.HandleDragEnd | frontend/src/hooks/useDragDropSchedule.ts:44-113 | the sequence of callbacks, requests and cache writes on the shared cache is the one `DragEnd` describes |
| DragDrop.NoMoveDoesNothing | frontend/src/hooks/useDragDropSchedule.ts:48-52 | a drop with no destination, or onto the same droppable and index, makes no request, calls no callback and writes nothing |
| DragDrop.MoveValidatesFirst | frontend/src/hooks/useDragDropSchedule.ts:58-71 | a move first calls `onValidationStart` and asks to validate exactly the proposed assignment |
| DragDrop.ConflictsBlockMove | frontend/src/hooks/useDragDropSchedule.ts:75-112 | when the object the validation mutation resolves to has a non-empty `conflicts` key, the move stops before any cache write or persist request; the drag key is invalidated and the error reported once to `handleQueryError` and once to `onMoveError` |
| DragDrop.ValidationFailureReported | frontend/src/hooks/useDragDropSchedule.ts:65-112 | a rejected validation writes nothing, skips `onValidationEnd`, and is reported by the mutation and then once to each callback |
| DragDrop.ValidatedMovePersists | frontend/src/hooks/useDragDropSchedule.ts:82-112 | a validated move writes the mapped assignments under the drag key and persists the proposed assignment; success stores the server's whole answer under the detail key, where it shows none of the schedule's keys, and calls `onMoveSuccess`; failure invalidates the drag key and reports once to each callback |
| DragDrop.ServerConflictsNeverBlock | frontend/src/hooks/useDragDropSchedule.ts:69-100 | the validation mutation resolves to the server's answer `{ data, success }`, which has no `conflicts` key of its own, so a move writes and persists even when the answer's `data` lists conflicts (see also frontend/src/services/scheduleService.ts:80-88) |
| DragDrop.IntendedValidationOf | frontend/src/hooks/useDragDropSchedule.ts:75 | the intended reading takes the conflicts from the answer's `data` |
| DragDrop.IntendedConflictsBlock | frontend/src/hooks/useDragDropSchedule.ts:75-112 | with the intended reading, an answer whose `data` lists conflicts stops the move before any write or persisting request, and the drag key is invalidated |
| DragDrop.DragKeyStaysEmpty | frontend/src/hooks/useDragDropSchedule.ts:85-86 | with no schedule cached under the drag key, the move leaves the drag-key entries alone |
| ConflictGrid.FindDay | frontend/src/components/schedule/ClassConflictManager/ConflictGrid.tsx:23 | nothing is found iff no entry is for the day; what is found is for the day |
| ConflictGrid.FindDayFirst | frontend/src/components/schedule/ClassConflictManager/ConflictGrid.tsx:23 | what is found is the first entry for the day |
| ConflictGrid.IsBlocked | frontend/src/components/schedule/ClassConflictManager/ConflictGrid.tsx:22-25 | a day without an entry is never blocked |
| ConflictGrid.IsBlockedIffHasBlock | frontend/src/components/schedule/ClassConflictManager/ConflictGrid.tsx:22-25 | with at most one entry per day, a cell is blocked iff some entry for its day lists its period |
| ConflictGrid.Cells | frontend/src/components/schedule/ClassConflictManager/ConflictGrid.tsx:11-63 | 40 cells in render order, period by period and the five weekdays within each, each forwarding its own (day, period) on click |
| ConflictGrid.CellsCoverGrid | frontend/src/components/schedule/ClassConflictManager/ConflictGrid.tsx:44-63 | every (weekday, period 1 … 8) pair is exactly one cell |
| ConflictGrid.CellFlags | frontend/src/components/schedule/ClassConflictManager/ConflictGrid.tsx:21-60 | one flag per rendered cell, telling whether `isBlocked` holds for the (day, period) that cell forwards |
| ConflictManager.ToggleFlipsOneCell | frontend/src/components/schedule/ClassConflictManager/ConflictGrid.tsx:21-60 | with one entry per day, the toggle a cell forwards flips the blocked flag of cell (period − 1) · 5 + day index and of no other cell (see also frontend/src/components/schedule/ClassConflictManager/index.tsx:25-54) |
| ConflictManager.RemoveOnDay | frontend/src/components/schedule/ClassConflictManager/index.tsx:37-40 | the map keeps the entries and their days |
| ConflictManager.AddOnDay | frontend/src/components/schedule/ClassConflictManager/index.tsx:46-50 | the map keeps the entries and their days |
| ConflictManager.Toggle | frontend/src/components/schedule/ClassConflictManager/index.tsx:25-54 | a day with no entry gets `{day, [period]}` appended |
| ConflictManager.HandleToggle | frontend/src/components/schedule/ClassConflictManager/index.tsx:24-55 | `onConflictsChange` is called exactly once, with the list that becomes the state |
| ConflictManager.FilterDaysDistinct | frontend/src/components/schedule/ClassConflictManager/index.tsx:41 | dropping entries keeps the days distinct |
| ConflictManager.ToggleKeepsDaysDistinct | frontend/src/components/schedule/ClassConflictManager/index.tsx:24-55 | a toggle keeps at most one entry per day |
| ConflictManager.ToggleNewDayBlocks | frontend/src/components/schedule/ClassConflictManager/index.tsx:28-32 | appending a new day blocks exactly the toggled cell more |
| ConflictManager.ToggleRemoveBlocks | frontend/src/components/schedule/ClassConflictManager/index.tsx:35-43 | removing unblocks exactly the toggled cell |
| ConflictManager.AddOnDayAt | frontend/src/components/schedule/ClassConflictManager/index.tsx:46-50 | an entry lists a period after the add iff it did before or it is the toggled cell |
| ConflictManager.ToggleAddBlocks | frontend/src/components/schedule/ClassConflictManager/index.tsx:44-52 | adding to an existing day blocks exactly the toggled cell more |
| ConflictManager.ToggleFlips | frontend/src/components/schedule/ClassConflictManager/index.tsx:24-55 | with at most one entry per day, a toggle flips `isBlocked` of its own cell and leaves every other cell unchanged (see also frontend/src/components/schedule/ClassConflictManager/ConflictGrid.tsx:22-25) |
| ConflictManager.ToggleAddSorted | frontend/src/components/schedule/ClassConflictManager/index.tsx:44-52 | adding an absent period to an existing day gives that day's periods plus the new one, sorted ascending |
| ConflictManager.ToggleRemoveDropsEmpty | frontend/src/components/schedule/ClassConflictManager/index.tsx:35-43 | after a removal no entry has an empty list |
| Availability.CompareStrings | frontend/src/components/schedule/InstructorAvailability/index.tsx:50 | the comparison answers −1, 0 or 1 |
| Availability.CompareStringsZero | frontend/src/components/schedule/InstructorAvailability/index.tsx:50 | two dates compare equal iff they are the same text |
| Availability.CompareStringsFlip | frontend/src/components/schedule/InstructorAvailability/index.tsx:50 | swapping the arguments negates the answer |
| Availability.CompareStringsTrans | frontend/src/components/schedule/InstructorAvailability/index.tsx:50 | the comparison is transitive |
| Availability.BlockLeOrder | frontend/src/components/schedule/InstructorAvailability/index.tsx:49-52 | the date-then-period order is a total order on blocks |
| Availability.ToggleBlock | frontend/src/components/schedule/InstructorAvailability/index.tsx:32-52 | a toggle adds at most one block |
| Availability.HandleAvailabilityChange | frontend/src/components/schedule/InstructorAvailability/index.tsx:31-57 | `onAvailabilityChange` receives exactly the list that becomes the state, once |
| Availability.ToggleBlockSorted | frontend/src/components/schedule/InstructorAvailability/index.tsx:49-52 | the new list is sorted by date text, then by period |
| Availability.ToggleBlockCounts | frontend/src/components/schedule/InstructorAvailability/index.tsx:33-46 | a present block is removed with all its copies, an absent one is added once, and every other block keeps its number of occurrences |
| Availability.ToggleBlockFlips | frontend/src/components/schedule/InstructorAvailability/index.tsx:33-46 | a toggle flips the membership of its own (date, period) and of no other |
| AvailabilityContainer.Pairs | frontend/src/components/schedule/InstructorAvailability/InstructorAvailabilityContainer.tsx:79 | one (date, period) pair per block, in order |
| AvailabilityContainer.GroupByDate | frontend/src/components/schedule/InstructorAvailability/InstructorAvailabilityContainer.tsx:79-85 | the reduce holds each date once, in first-seen order, with its periods in input order |
| AvailabilityContainer.Updates | frontend/src/components/schedule/InstructorAvailability/InstructorAvailabilityContainer.tsx:88-95 | one update per distinct date, in first-seen order, with id `avail-<date>` and that date's periods |
| AvailabilityContainer.HandleAvailabilityChange | frontend/src/components/schedule/InstructorAvailability/InstructorAvailabilityContainer.tsx:77-96 | the mutations issued are exactly those updates, in order |
| AvailabilityContainer.UpdateForEveryDate | frontend/src/components/schedule/InstructorAvailability/InstructorAvailabilityContainer.tsx:79-95 | every date of the list gets an update |
| AvailabilityContainer.UpdateDateOccurs | frontend/src/components/schedule/InstructorAvailability/InstructorAvailabilityContainer.tsx:79-95 | every update is for a date of the list |
| AvailabilityContainer.UpdatesDistinctIds | frontend/src/components/schedule/InstructorAvailability/InstructorAvailabilityContainer.tsx:88-91 | the updates carry distinct ids |
| AvailabilityContainer.UpdatePeriods | frontend/src/components/schedule/InstructorAvailability/InstructorAvailabilityContainer.tsx:79-92 | every period of an update is a block of the list on that date |
| AvailabilityContainer.Normalize | frontend/src/components/schedule/InstructorAvailability/InstructorAvailabilityContainer.tsx:59-62 | a fetched record keeps its date and its periods, and missing periods (or a missing record) become [] |
| AvailabilityContainer.BlocksOf | frontend/src/components/schedule/InstructorAvailability/InstructorAvailabilityContainer.tsx:112-118 | a missing record or one without periods contributes nothing; otherwise one block per period, with the record's date |
| AvailabilityContainer.FlattenLength | frontend/src/components/schedule/InstructorAvailability/InstructorAvailabilityContainer.tsx:112-118 | the flattening has one block per blocked period |
| AvailabilityContainer.NormalizeAll | frontend/src/components/schedule/InstructorAvailability/InstructorAvailabilityContainer.tsx:59-62 | every fetched record normalised, in order |
| AvailabilityContainer.NormalizeKeepsFlatten | frontend/src/components/schedule/InstructorAvailability/InstructorAvailabilityContainer.tsx:59-118 | normalising the fetched records does not change their flattening |
| AvailabilityContainer.StoredFlatten | frontend/src/components/schedule/InstructorAvailability/InstructorAvailabilityContainer.tsx:79-118 | flattening the per-date records is ungrouping the groups |
| AvailabilityContainer.DatesGroup | frontend/src/components/schedule/InstructorAvailability/InstructorAvailabilityContainer.tsx:79-85 | the dates with their period lists are the grouping of the list |
| AvailabilityContainer.RoundTrip | frontend/src/components/schedule/InstructorAvailability/InstructorAvailabilityContainer.tsx:79-118 | flattening the records the updates store gives back the same multiset of (date, period) pairs |
| ErrorTypes.GetErrorConfig | frontend/src/utils/error/types.ts:59-97 | a configured code gets its own entry; any other code gets the `UNKNOWN_ERROR` entry |
| ErrorTypes.ConfiguredCodes | frontend/src/utils/error/types.ts:59-90 | the table configures exactly the five codes |
| ErrorTypes.RetryableCodes | frontend/src/utils/error/types.ts:59-97 | a code is retryable iff it is a constraint violation, a solver error or a network error |
| ErrorTypes.FormatErrorMessage | frontend/src/utils/error/types.ts:102-105 | the configured user message, followed by `. ` and the action when the action is non-empty |
| ErrorTypes.FormatByCode | frontend/src/utils/error/types.ts:95-105 | the display message depends on the code alone and always begins with a configured user message |
| ErrorTypes.ThrownApiError | frontend/src/utils/error/types.ts:110-117 | a thrown `ApiError` object passes the type guard and reads back as the same error |
| ErrorHandlers.HandleError | frontend/src/utils/error/handlers.ts:7-34 | an `ApiError` passes through; an `Error` instance becomes `UNKNOWN_ERROR` with its message; anything else becomes `UNKNOWN_ERROR` with the generic message |
| ErrorHandlers.NetworkBranchUnreachable | frontend/src/utils/error/handlers.ts:14-27 | `NETWORK_ERROR` comes out only when it went in: the network branch is never reached |
| ErrorHandlers.FailedFetchClassified | frontend/src/utils/error/handlers.ts:14-27 | a `TypeError('Failed to fetch')` comes out as `UNKNOWN_ERROR` as written and as `NETWORK_ERROR` under the intended order (see also frontend/src/utils/error/__tests__/handlers.test.ts:26-34) |
| ErrorHandlers.HandleErrorIntended | frontend/src/utils/error/handlers.ts:7-34 | with the network check before the `Error` check, a failed fetch becomes `NETWORK_ERROR` and every other value is handled as before |
| ErrorHandlers.HandleErrorIdempotent | frontend/src/utils/error/handlers.ts:8-11 | handling an already handled error changes nothing |
| ErrorHandlers.HandleConstraintError | frontend/src/utils/error/handlers.ts:56-71 | a generic error becomes a constraint violation that keeps the handled error as its original; other codes pass through; the result is never `UNKNOWN_ERROR` |
| ErrorHandlers.Pow2 | frontend/src/utils/error/handlers.ts:120 | the backoff factor `2^attempt` is at least 1 |
| ErrorHandlers.CreateRetryFunction | frontend/src/utils/error/handlers.ts:97-128 | the loop's result, number of calls and waits are those of the recursive run |
| ErrorHandlers.RetryStep | frontend/src/utils/error/handlers.ts:105-123 | a retryable rejection costs one call and one wait (none after the last attempt), then the run goes on from the next attempt |
| ErrorHandlers.RetryFromShape | frontend/src/utils/error/handlers.ts:105-123 | at most `maxRetries` calls and at least one when `maxRetries` is positive; a wait between consecutive calls only, the k-th being `baseDelay · 2^k` |
| ErrorHandlers.RetryFromResult | frontend/src/utils/error/handlers.ts:105-126 | the run ends on the first resolution with its value, or on the first non-retryable rejection, or after `maxRetries` retryable rejections, with the last error handled |
| ErrorHandlers.NoAttempts | frontend/src/utils/error/handlers.ts:103-126 | with no attempts allowed nothing is called and the handled `undefined` is thrown |
| ErrorHandlers.PlainErrorNotRetried | frontend/src/utils/error/handlers.ts:108-117 | two plain errors and then a success: as written, the first error stops the run after one call (see also frontend/src/utils/error/types.ts:84-89; frontend/src/utils/error/__tests__/handlers.test.ts:108-119) |
| ErrorHandlers.IntendedRetriesPlainErrors | frontend/src/utils/error/handlers.ts:105-126 | under the intended decision the same function succeeds on the third call, after waits of `baseDelay` and `2 · baseDelay` (see also frontend/src/utils/error/__tests__/handlers.test.ts:108-119) |
| ErrorHandlers.IntendedGivesUp | frontend/src/utils/error/handlers.ts:105-126 | under the intended decision a persistent plain error is tried `maxRetries` times and thrown handled; a non-retryable `ApiError` still stops after one call (see also frontend/src/utils/error/__tests__/handlers.test.ts:134-146) |
| ErrorHandlers.WithErrorHandling | frontend/src/utils/error/handlers.ts:133-143 | the promise's value when it resolves, else its rejection handled |
| ScheduleCalendar.AssignmentsForCell | frontend/src/components/schedule/GeneratedSchedule/ScheduleCalendar.tsx:24-32 | an assignment is in a cell iff it has the cell's day, period and week and, when a grade is selected, its class has that grade |
| ScheduleCalendar.CellIsSubsequence | frontend/src/components/schedule/GeneratedSchedule/ScheduleCalendar.tsx:24-32 | a cell lists its assignments in schedule order |
| ScheduleCalendar.ConflictsForAssignment | frontend/src/components/schedule/GeneratedSchedule/ScheduleCalendar.tsx:34-41 | a conflict belongs to an assignment iff class, day and period agree |
| ScheduleCalendar.ConflictsIgnoreWeek | frontend/src/components/schedule/GeneratedSchedule/ScheduleCalendar.tsx:34-41 | which conflicts an assignment shows does not depend on its week |
| ScheduleCalendar.SomeMarked | frontend/src/components/schedule/GeneratedSchedule/ScheduleCalendar.tsx:43-47 | the `some` scan from a position holds iff a later assignment has a conflict or the cell has more than one |
| ScheduleCalendar.CellHasConflicts | frontend/src/components/schedule/GeneratedSchedule/ScheduleCalendar.tsx:43-47 | an empty cell is never marked; any other cell is marked iff it holds two or more assignments or one with a conflict |
| WeekNavigation.PreviousWeek | frontend/src/components/schedule/GeneratedSchedule/WeekNavigation.tsx:15-19 | there is a previous week iff the current one is after week 1, and it is one less |
| WeekNavigation.NextWeek | frontend/src/components/schedule/GeneratedSchedule/WeekNavigation.tsx:21-25 | there is a next week iff the current one is before the last, and it is one more |
| WeekNavigation.Proposed | frontend/src/components/schedule/GeneratedSchedule/WeekNavigation.tsx:27-33 | "First" proposes week 1 and "Last" the total |
| WeekNavigation.Click | frontend/src/components/schedule/GeneratedSchedule/WeekNavigation.tsx:15-33 | from a week in range, a click leads to a week in range |
| WeekNavigation.Clicks | frontend/src/components/schedule/GeneratedSchedule/WeekNavigation.tsx:15-33 | any sequence of clicks from a week in range stays in range |
| WeekNavigation.StepButtons | frontend/src/components/schedule/GeneratedSchedule/WeekNavigation.tsx:15-65 | an enabled "Previous" or "Next" moves exactly one week; a disabled one leaves the week |
| ClassCard.HasConflicts | frontend/src/components/schedule/GeneratedSchedule/ClassCard.tsx:12 | a card has conflicts iff its list is non-empty |
| ClassCard.Kinds | frontend/src/components/schedule/GeneratedSchedule/ClassCard.tsx:17 | the conflict types in list order |
| ClassCard.SummaryParts | frontend/src/components/schedule/GeneratedSchedule/ClassCard.tsx:18-21 | one part per distinct type, in first-seen order, with the number of conflicts of that type |
| ClassCard.ConflictSummary | frontend/src/components/schedule/GeneratedSchedule/ClassCard.tsx:14-24 | no conflicts give the empty summary |
| ClassCard.SummaryPartsCover | frontend/src/components/schedule/GeneratedSchedule/ClassCard.tsx:17-21 | every conflict's type has a part, and every part counts at least one conflict |
| ClassCard.SummaryPartsSum | frontend/src/components/schedule/GeneratedSchedule/ClassCard.tsx:17-21 | the parts' counts add up to the number of conflicts |
| ClassCard.PartsSumCounts | frontend/src/components/schedule/GeneratedSchedule/ClassCard.tsx:20-21 | summing per-type counts over distinct types is summing the multiset's multiplicities |
| ClassCard.BorderClass | frontend/src/components/schedule/GeneratedSchedule/ClassCard.tsx:28-30 | the red border is applied iff the card has conflicts, and the plain border otherwise |
| ClassCard.Segment | frontend/src/components/schedule/GeneratedSchedule/ClassCard.tsx:21-22 | a segment is the count, a space and the type name, followed by one 's' iff the count is above 1 |
| Days.DayIndex | backend/python/solver/solution_validator.py:30 | every day has its position in the Monday-to-Friday order (see also frontend/src/types/schedule.types.ts:1-7) |
| Days.DayIndexOfWeekday | backend/python/solver/solution_validator.py:30 | the position of the i-th weekday is i |
| Days.NameFacts | frontend/src/types/schedule.types.ts:1-7 | a day's enumeration value is non-empty, holds no `_` or `-`, and reads back as the same day |
| Days.NameInjective | frontend/src/types/schedule.types.ts:1-7 | distinct days have distinct enumeration values |
| ScheduleTypes.ToDayOfWeek | frontend/src/types/schedule.types.ts:58-67 | `toString` maps each enumeration value to the display day at the same weekday position |
| ScheduleTypes.ToEnum | frontend/src/types/schedule.types.ts:48-57 | `toString` undoes `toEnum` |
| ScheduleTypes.ToEnumOfToDayOfWeek | frontend/src/types/schedule.types.ts:47-68 | `toEnum` undoes `toString`: the tables are inverse bijections |
| ScheduleTypes.ConvertInjective | frontend/src/types/schedule.types.ts:47-68 | both tables are injective |
| ScheduleTypes.ConvertPositional | frontend/src/types/schedule.types.ts:1-68 | both tables pair the i-th weekday of each spelling, and the two names agree in length and first letter |
| JsText.Trim | backend/src/services/csv.service.ts:114-135 | `trim` drops exactly the leading and trailing white space: the result is a slice of the input, empty iff the input is all white space, and otherwise neither starts nor ends with white space (see also backend/src/services/class.service.ts:92) |
| JsText.TrimOfTrimmed | backend/src/services/csv.service.ts:135 | a string without white space at its ends is its own trim |
| JsText.Split | backend/src/services/csv.service.ts:124-188 | `split` on one character gives at least one separator-free piece, and joining the pieces gives the input back (see also frontend/src/hooks/useDragDropSchedule.ts:40) |
| JsText.SplitJoin | backend/src/services/csv.service.ts:188 | splitting a join of separator-free pieces gives the pieces back (see also frontend/src/hooks/useDragDropSchedule.ts:40) |
| JsText.SplitCount | backend/src/services/csv.service.ts:188 | there is one more piece than separators |
| JsText.ParseIntDigits | backend/src/services/csv.service.ts:189 | `parseInt(ds, 10)` of a non-empty digit string is its decimal value (see also frontend/src/hooks/useDragDropSchedule.ts:41) |
| JsText.ParseIntDigitsAnyRadix | backend/src/services/class.service.ts:99-106 | `parseInt` without radix reads a digit string as in base 10 |
| JsText.ParseIntToString | frontend/src/hooks/useDragDropSchedule.ts:39-42 | `parseInt(String(n), 10)` is `n` for every integer |
| JsText.FirstDigitRun | backend/src/services/class.service.ts:99 | `match(/\d+/)` finds something iff the text holds a digit, and what it finds is a non-empty digit string |
| MultiPeriodSelection.InSelectionRectangle | frontend/src/hooks/useMultiPeriodSelection.ts:100-116 | a cell is highlighted iff every corner coordinate is truthy and the cell lies between the two corners in both directions, inclusive |
| MultiPeriodSelection.InSelectionSymmetric | frontend/src/hooks/useMultiPeriodSelection.ts:105-108 | swapping the start and end corners changes no highlight |
| MultiPeriodSelection.ZeroNeverSelected | frontend/src/hooks/useMultiPeriodSelection.ts:101-103 | day index 0 is never highlighted, and a stored 0 in any corner coordinate highlights nothing |
| MultiPeriodSelection.SelectionHook.HandleMouseDown | frontend/src/hooks/useMultiPeriodSelection.ts:34-45 | a left press makes the pressed cell both corners of a new drag; any other button changes nothing; nothing is reported |
| MultiPeriodSelection.SelectionHook.HandleMouseEnter | frontend/src/hooks/useMultiPeriodSelection.ts:47-55 | while dragging the entered cell becomes the end corner; otherwise nothing changes; nothing is reported |
| MultiPeriodSelection.SelectionHook.HandleMouseUp | frontend/src/hooks/useMultiPeriodSelection.ts:57-71 | a drag with all four corner coordinates set reports its range once; the drag ends in every case and the corners stay |
| MultiPeriodSelection.SelectionHook.HandleClick | frontend/src/hooks/useMultiPeriodSelection.ts:73-98 | a shift-click with a start corner extends to the clicked cell and reports the range from the start; any other click selects and reports the clicked cell alone |
| MultiPeriodSelection.ClickThenShiftClick | frontend/src/hooks/useMultiPeriodSelection.ts:73-98 | a click and then a shift-click report the single cell, then the range between the two (see also frontend/src/hooks/__tests__/useMultiPeriodSelection.test.ts:12-41) |
| MultiPeriodSelection.DragBetween | frontend/src/hooks/useMultiPeriodSelection.ts:34-71 | press, enter and release report the dragged range once, and the drag is over (see also frontend/src/hooks/__tests__/useMultiPeriodSelection.test.ts:43-64) |
| MultiPeriodSelection.DragHighlights | frontend/src/hooks/useMultiPeriodSelection.ts:34-116 | during a drag with nonzero coordinates exactly the cells of the spanned rectangle are highlighted (see also frontend/src/hooks/__tests__/useMultiPeriodSelection.test.ts:66-89) |
| MultiPeriodSelection.OtherButtonIgnored | frontend/src/hooks/useMultiPeriodSelection.ts:35-71 | a non-left press selects nothing, and the release after it reports nothing (see also frontend/src/hooks/__tests__/useMultiPeriodSelection.test.ts:91-102) |
| ConflictContainer.MockUpdateConflicts | frontend/src/components/schedule/ClassConflictManager/ClassConflictManagerContainer.tsx:31-39 | the stand-in service answers with the class carrying the id and the new list |
| ConflictContainer.WithConflicts | frontend/src/components/schedule/ClassConflictManager/ClassConflictManagerContainer.tsx:63-69 | a cached class gets the new list and keeps its other fields; no other entry changes, and with no cached class nothing is written |
| ConflictContainer.Restored | frontend/src/components/schedule/ClassConflictManager/ClassConflictManagerContainer.tsx:73-77 | the snapshot, when there is one, is written back; nothing else changes |
| ConflictContainer.ClassSnapshot | frontend/src/components/schedule/ClassConflictManager/ClassConflictManagerContainer.tsx:60-61 | the snapshot is the cached class, if any |
| ConflictContainer.RestoreUndoes | frontend/src/components/schedule/ClassConflictManager/ClassConflictManagerContainer.tsx:56-77 | restoring the snapshot undoes the optimistic write exactly |
| ConflictContainer.OnMutate | frontend/src/components/schedule/ClassConflictManager/ClassConflictManagerContainer.tsx:56-72 | returns the snapshot and leaves the cache with the optimistic write |
| ConflictContainer.OnError | frontend/src/components/schedule/ClassConflictManager/ClassConflictManagerContainer.tsx:73-79 | writes the snapshot back and reports the error |
| ConflictContainer.OnSettled | frontend/src/components/schedule/ClassConflictManager/ClassConflictManagerContainer.tsx:80-83 | the class query is invalidated; the data stay |
| ConflictContainer.SaveConflicts | frontend/src/components/schedule/ClassConflictManager/ClassConflictManagerContainer.tsx:54-89 | a failed save leaves the cache as it was and reports its error; a successful one leaves the optimistic entry; the class query is invalidated either way |

## Left out

- Running the Python scripts through python-shell, the stdin/stdout `main()` functions, the Prisma database calls, HTTP routes and console logging. These are I/O; the answer of each external call is a parameter of the model.
- The fast-csv stream tokenizer and formatter. The model starts from the records the tokenizer hands over and ends with the rows given to the formatter; quoting is not modelled.
- The OR-Tools constraint solver itself. Its answer (`success` with a solution, or any other status) is an input.
- `new Date(date).getDay()` is an integer input. The clock reading stored with a schedule (`new Date().toISOString()`) is a parameter.
- `handleScheduleError` and `logError` only log, and `withErrorHandling`'s call of `logError` is dropped for the same reason.
- `getErrorConfig` on a code that names an inherited `Object.prototype` member (such as `toString`) is modelled as an unconfigured code.
- The query cache holds values of different types under different keys. The model uses one `QueryClient` per value type.
- `cancelQueries`, the refetch that follows an invalidation, and react-query's `retry` and `throwOnError` options belong to the library, not to the modelled code.
- Overlapping mutations and stale closures are not modelled. Every React handler runs on the state the previous event left, as it does after a re-render.
- A `Partial` update whose value is an explicit `undefined` is not modelled: an absent field means an absent key.
- The in-place `periods.sort()` and `Array.prototype.sort` calls are modelled by the sort functions of `Seqs` applied to the list, not as in-place array algorithms.
- Availability.CompareStrings: `localeCompare` is modelled as code-unit lexicographic order. The compared dates are ISO `YYYY-MM-DD` strings, where the two orders agree.
- The timers of `createRetryFunction` are modelled by the list of delays they would wait; no time passes.
- ClassCard.ConflictSummary: its own contract states only the empty case. The non-empty text is given by SummaryParts and Segment, whose contracts state the parts and their text.
- CsvService.NumbersOfTexts: `parseInt` is modelled on exact integers. A JavaScript number is a double, so a digit string above 2^53 loses precision there and the model does not.
- JsText.ParseIntToString: the round trip is stated for exact integers. In JavaScript `String(n)` switches to exponent form from 1e21 on and the round trip fails there; the model does not capture that.
- JsText.JsNumber: a number is an exact integer or `NaN`. IEEE doubles (rounding above 2^53, exponent form from 1e21, fractions, infinities, `-0`) are not modelled.
- PeriodCells.PyInt: it accepts an optional sign and ASCII digits after stripping. Python's `int()` also accepts underscores between digits (`'1_0'`) and non-ASCII decimal digits; the model rejects those.
- SolutionValidator.Violation: the reports carry their type and data fields but not the human-readable `message` strings built at backend/python/solver/solution_validator.py:74-271. The messages only format those fields for display.
- ScheduleQuery.CachedAnswer: the answer `{ data, success }` cached by `useUpdateAssignment` and `useResolveConflicts` is seen through the schedule's keys only, all absent. Its own `data` and `success` keys are not kept in the cached entry.
- Date arithmetic and time zones (`getStartOfWeek`, `getDatesForWeek`, `toISOString` keys), performance monitoring, and pure rendering components are outside this model.

## Findings

| source | as written | input that shows it | evidently intended | confidence | as-written member | corrected member |
|---|---|---|---|---|---|---|
| frontend/src/utils/error/handlers.ts:97-128 | A plain `Error` is normalised to `UNKNOWN_ERROR`, which frontend/src/utils/error/types.ts:84-89 configures as not retryable. So the retry wrapper throws after the first call. | `fn` rejects `new Error('Attempt 1')`, then `new Error('Attempt 2')`, then resolves `'success'`, with `maxRetries = 3`. This is the input of frontend/src/utils/error/__tests__/handlers.test.ts:108-119, which expects three calls and `'success'`. | A raw exception is retried with backoff; an `ApiError` is retried exactly when its code is retryable. | not executed | ErrorHandlers.PlainErrorNotRetried | ErrorHandlers.IntendedRetriesPlainErrors; ErrorHandlers.IntendedGivesUp |
| frontend/src/utils/error/handlers.ts:14-27 | `TypeError` extends `Error`, so the `instanceof Error` branch catches every `TypeError`. The `NETWORK_ERROR` branch is never reached. | `new TypeError('Failed to fetch')` becomes `UNKNOWN_ERROR` with message 'Failed to fetch'. frontend/src/utils/error/__tests__/handlers.test.ts:26-34 expects `NETWORK_ERROR`. | The failed-fetch check comes before the generic `Error` check, so a failed fetch becomes `NETWORK_ERROR` 'Network connection failed'. | not executed | ErrorHandlers.NetworkBranchUnreachable; ErrorHandlers.FailedFetchClassified | ErrorHandlers.HandleErrorIntended |
| frontend/src/hooks/useScheduleQuery.ts:177-193 | `ScheduleService.updateAssignment` and `resolveConflicts` return the whole answer `{ data, success }` (frontend/src/services/scheduleService.ts:65-101), and the mutations cache it under the detail key. That entry has none of the schedule's keys. | The server answers `{ data: s, success: true }` for a full schedule `s` (backend/src/routes/schedule.routes.ts:70-73). The detail entry then has no `id` and no `assignments`. | Cache `response.data`, as `useUpdateSchedule` does. | not executed | ScheduleQuery.EnvelopeAnswerUnreadable | ScheduleQuery.IntendedCachedAnswer; ScheduleQuery.IntendedAnswerReadable |
| frontend/src/hooks/useDragDropSchedule.ts:75 | The move reads `conflicts` off the validation mutation's result, which is the whole answer `{ data, success }` (frontend/src/services/scheduleService.ts:80-88). The answer has no `conflicts` key, so no conflict ever stops a move. | The validation answer is `{ data: { valid: false, conflicts: ['x'] }, success: true }`. The move still writes under the drag key and sends the persisting request. | Read `validationResponse.data.conflicts`, so listed conflicts stop the move. | not executed | DragDrop.ServerConflictsNeverBlock | DragDrop.IntendedValidationOf; DragDrop.IntendedConflictsBlock |

The drag-and-drop move and the mutation callbacks are modelled as written. The corrected members sit beside them, each with its property proved.

Day index 0 never counts as highlighted, because the hook tests the stored corners for truthiness (`MultiPeriodSelection.ZeroNeverSelected`). The checks at frontend/src/hooks/__tests__/useMultiPeriodSelection.test.ts:91-121, that cell (0, 1) is not selected, therefore hold whatever the mouse handlers do.

