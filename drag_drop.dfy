/**
 * The drag-and-drop move of a class to another calendar cell: the drop-target id, the proposed
 * assignment, validation before any cache write, the optimistic write of the dragged class's
 * assignments under the key `['schedule', id]`, the persisting request, and recovery by
 * invalidation with one error report to each error callback.
 *
 * The two requests go through mutations of the schedule query hooks, so their own callbacks run
 * too: a rejected request is reported to the query error handler by the mutation before the
 * `catch` reports it again, and a persisted assignment stores the server's whole answer
 * `{ data, success }`, which has none of the schedule's keys, under the detail key
 * `['schedules', id]`. The validation request also resolves to the whole answer, and the move
 * reads `conflicts` off that answer rather than off its `data`. The optional callbacks appear as
 * events whether or not the caller passed them.
 */
module DragDrop {
  import opened Wrappers
  import opened JsText
  import opened QueryCache
  import opened ErrorTypes
  import ErrorHandlers
  import SQ = ScheduleQuery

  // ---------------------------------------------------------------- drop targets

  /** A parsed drop-target id: the day text and the period number, `NaN` when no number
      follows the first dash. */
  datatype DropCell = DropCell(day: string, period: JsNumber)

  /** `parseDropId`: the text before the first dash is the day, the text between the first and
      the second dash is parsed as a decimal period. */
  function ParseDropId(dropId: string): (c: DropCell)
    ensures '-' !in c.day
    ensures dropId == c.day || c.day + "-" <= dropId
    ensures '-' !in dropId ==> c == DropCell(dropId, NaN)
  {
    var parts := Split(dropId, '-');
    if |parts| == 1 then
      SplitNoSeparatorOnly(dropId);
      DropCell(parts[0], NaN)
    else
      PrefixOfJoin(parts);
      DropCell(parts[0], ParseInt(parts[1], true))
  }

  /** The id a droppable cell gets, `` `${day}-${period}` ``. */
  function DroppableId(day: string, period: int): string {
    day + "-" + IntToString(period)
  }

  /** For a dash-free day and a non-negative period, parsing the cell's id gives both back. */
  lemma ParseDroppableId(day: string, period: int)
    requires '-' !in day && period >= 0
    ensures ParseDropId(DroppableId(day, period)) == DropCell(day, Num(period))
  {
    var digits := IntToString(period);
    IntToStringFacts(period);
    DigitsDashFree(digits);
    SplitNoSeparator(digits, '-');
    SplitPrefix(day, '-', digits);
    ParseIntToString(period);
  }

  /** A negative period loses its number: its minus sign is read as a second dash, so the
      period is `parseInt('')`. */
  lemma NegativePeriodLost(day: string, period: int)
    requires '-' !in day && period < 0
    ensures ParseDropId(DroppableId(day, period)) == DropCell(day, NaN)
  {
    var digits := NatToDigits(-period);
    NatToDigitsFacts(-period);
    DigitsDashFree(digits);
    SplitNoSeparator(digits, '-');
    SplitPrefix([], '-', digits);
    SplitPrefix(day, '-', "-" + digits);
    assert DroppableId(day, period) == day + ['-'] + ("-" + digits);
    assert "-" + digits == [] + ['-'] + digits;
    assert Split(DroppableId(day, period), '-') == [day, [], digits];
    assert ParseInt([], true) == NaN;
  }

  lemma DigitsDashFree(s: string)
    requires AllDigits(s)
    ensures '-' !in s
  {
    assert forall k :: 0 <= k < |s| ==> s[k] != '-';
  }

  lemma SplitNoSeparatorOnly(s: string)
    requires |Split(s, '-')| == 1
    ensures Split(s, '-')[0] == s
  {
    assert Join(Split(s, '-'), "-") == Split(s, '-')[0];
  }

  lemma PrefixOfJoin(parts: seq<string>)
    requires |parts| >= 2
    ensures parts[0] + "-" <= Join(parts, "-")
    ensures '-' in Join(parts, "-")
  {
    assert Join(parts, "-") == parts[0] + "-" + Join(parts[1..], "-");
    assert Join(parts, "-")[|parts[0]|] == '-';
  }

  // ---------------------------------------------------------------- the move

  /** A drag end position: the droppable's id and the index inside it. */
  datatype Location = Location(droppableId: string, index: int)

  /** `DropResult`: where the card came from, where it was dropped (if on a target), and the
      dragged card's id, which is the class id. */
  datatype DropResult = DropResult(source: Location, destination: Option<Location>, draggableId: string)

  /** An assignment as the move builds it: the day is the drop target's day text, and the period
      is whatever the id parsed to. */
  datatype Placement = Placement(classId: string, day: string, period: JsNumber, week: int)

  /** The schedule cached under `['schedule', id]`. */
  datatype CachedSchedule = CachedSchedule(id: string, startDate: string, endDate: string, rotationWeeks: int,
                                           assignments: seq<Placement>, periods: seq<int>)

  /** What the validation request did: the `conflicts` key (possibly missing) of the object its
      mutation resolved to, or a rejection. */
  datatype Validation = Validated(conflicts: Option<seq<string>>) | ValidationFailed(error: Thrown)

  /** The validation result the server puts in its answer's `data`. */
  datatype ValidationResult = ValidationResult(valid: bool, conflicts: seq<string>)

  /** The server's answer `{ data, success }` to the validation request, which the service
      method behind `useValidateChanges` returns as it is. */
  datatype ValidationAnswer = ValidationAnswer(data: ValidationResult, success: bool)

  /** What the move reads when the validation request resolves to the server's answer: the answer
      has no key `conflicts` of its own, so the key is missing whatever `data` holds. */
  function ValidationOf(answer: ValidationAnswer): Validation {
    Validated(None)
  }

  /** What the move evidently means to read: the conflicts inside the answer's `data`. */
  function IntendedValidationOf(answer: ValidationAnswer): (v: Validation)
    ensures v.Validated? && v.conflicts.Some? && v.conflicts.value == answer.data.conflicts
  {
    Validated(Some(answer.data.conflicts))
  }

  /** A call the move makes: the validation request and the persisting request. */
  datatype Request = ValidateRequest(assignments: seq<Placement>) | PersistRequest(assignment: Placement)

  /** A callback the move calls. */
  datatype Event =
    | ValidationStarted
    | ValidationEnded
    | MoveSucceeded
    | QueryError(error: Thrown)
    | MoveError(error: Thrown)

  /** The key the move writes and invalidates. */
  function DragKey(scheduleId: string): QueryKey {
    ["schedule", scheduleId]
  }

  /** The drag key is not the schedule query's detail key, and invalidating it does not reach
      the detail query. */
  lemma DragKeyIsNotDetailKey(scheduleId: string)
    ensures DragKey(scheduleId) != SQ.DetailKey(scheduleId)
    ensures !Matches(DragKey(scheduleId), SQ.DetailKey(scheduleId))
  {
    assert DragKey(scheduleId)[0] != SQ.DetailKey(scheduleId)[0];
  }

  /** The drop moved the card: it landed on a target, and not back where it started. */
  predicate IsMove(r: DropResult) {
    r.destination.Some? &&
    !(r.source.droppableId == r.destination.value.droppableId && r.source.index == r.destination.value.index)
  }

  /** The proposed assignment: the dragged class at the destination's day and period, week 1. */
  function Proposal(r: DropResult): (a: Placement)
    requires r.destination.Some?
    ensures a.classId == r.draggableId && a.week == 1
    ensures a.day == ParseDropId(r.destination.value.droppableId).day
    ensures a.period == ParseDropId(r.destination.value.droppableId).period
  {
    var dest := ParseDropId(r.destination.value.droppableId);
    Placement(r.draggableId, dest.day, dest.period, 1)
  }

  /** `assignments.map(a => a.classId === classId ? moved : a)`. */
  function MoveClass(assignments: seq<Placement>, classId: string, moved: Placement): (r: seq<Placement>)
    ensures |r| == |assignments|
    ensures forall k :: 0 <= k < |r| ==> r[k] == (if assignments[k].classId == classId then moved else assignments[k])
  {
    if assignments == [] then []
    else MoveClass(assignments[..|assignments| - 1], classId, moved)
         + [if assignments[|assignments| - 1].classId == classId then moved else assignments[|assignments| - 1]]
  }

  /** After the map, a moved class's assignments are all the new one, and the assignments of
      every other class are exactly as they were, in order. */
  lemma {:induction false} MoveClassKeepsOthers(assignments: seq<Placement>, classId: string, moved: Placement)
    requires moved.classId == classId
    ensures var r := MoveClass(assignments, classId, moved);
      && (forall a :: a in r && a.classId == classId ==> a == moved)
      && SameOthers(r, assignments, classId)
  {
    if assignments != [] {
      var front := assignments[..|assignments| - 1];
      MoveClassKeepsOthers(front, classId, moved);
      var r := MoveClass(assignments, classId, moved);
      assert r[..|r| - 1] == MoveClass(front, classId, moved);
    }
  }

  /** The assignments of classes other than `classId`, in order. */
  function Others(s: seq<Placement>, classId: string): seq<Placement> {
    if s == [] then []
    else Others(s[..|s| - 1], classId) + (if s[|s| - 1].classId == classId then [] else [s[|s| - 1]])
  }

  predicate SameOthers(a: seq<Placement>, b: seq<Placement>, classId: string) {
    Others(a, classId) == Others(b, classId)
  }

  /** The updater given to `setQueryData`: a cached schedule gets the mapped assignments and keeps
      every other field; with no cached schedule it returns `undefined` and nothing is written. */
  function MoveInCache(data: map<QueryKey, CachedSchedule>, scheduleId: string, moved: Placement)
      : (r: map<QueryKey, CachedSchedule>)
    ensures r.Keys == data.Keys
    ensures forall k :: k in data && k != DragKey(scheduleId) ==> r[k] == data[k]
    ensures DragKey(scheduleId) in data ==>
      r[DragKey(scheduleId)] == data[DragKey(scheduleId)].(assignments :=
        MoveClass(data[DragKey(scheduleId)].assignments, moved.classId, moved))
  {
    var key := DragKey(scheduleId);
    if key in data then
      data[key := data[key].(assignments := MoveClass(data[key].assignments, moved.classId, moved))]
    else data
  }

  /** The message the `catch` reports: an `Error`'s own message, or a fixed text for anything else
      (an `ApiError` object included). */
  function CatchMessage(v: Thrown): string {
    if v.Obj? && v.errorClass.Some? then v.message else "Failed to move class"
  }

  /** The rejection a non-empty conflict list turns into. */
  function ConflictError(conflicts: seq<string>): (e: Thrown)
    ensures e.Obj? && e.errorClass == Some(ErrorTypes.PlainError)
    ensures CatchMessage(e) == "Invalid move: " + Join(conflicts, ", ")
  {
    ErrorHandlers.PlainErrorOf("Invalid move: " + Join(conflicts, ", "))
  }

  /** Everything the move leaves behind: the drag-key entries and invalidations, the detail-key
      entries, the callbacks called and the requests made, each in order. */
  datatype DragEffect = DragEffect(dragData: map<QueryKey, CachedSchedule>, dragInvalidated: seq<QueryKey>,
                                   detailData: map<QueryKey, SQ.ScheduleFields>, events: seq<Event>,
                                   requests: seq<Request>)

  /** The `catch` clause: invalidate the drag key and report the error once to each callback. */
  function Recover(e: DragEffect, scheduleId: string, error: Thrown): DragEffect {
    var reported := ErrorHandlers.PlainErrorOf(CatchMessage(error));
    e.(dragInvalidated := e.dragInvalidated + [DragKey(scheduleId)],
       events := e.events + [QueryError(reported), MoveError(reported)])
  }

  /** `handleDragEnd` with the two requests' outcomes given. */
  function DragEnd(dragData: map<QueryKey, CachedSchedule>, dragInvalidated: seq<QueryKey>,
                   detailData: map<QueryKey, SQ.ScheduleFields>, scheduleId: string, r: DropResult,
                   validation: Validation, persist: SQ.MutationOutcome): DragEffect
  {
    var start := DragEffect(dragData, dragInvalidated, detailData, [], []);
    if !IsMove(r) then start
    else
      var moved := Proposal(r);
      AfterValidation(start.(events := [ValidationStarted], requests := [ValidateRequest([moved])]),
                      scheduleId, moved, validation, persist)
  }

  /** The move once the validation request has been sent. */
  function AfterValidation(asked: DragEffect, scheduleId: string, moved: Placement, validation: Validation,
                           persist: SQ.MutationOutcome): DragEffect
  {
    match validation
    case ValidationFailed(error) =>
      Recover(asked.(events := asked.events + [QueryError(error)]), scheduleId, error)
    case Validated(cs) =>
      var conflicts := cs.GetOr([]);
      var ended := asked.(events := asked.events + [ValidationEnded]);
      if |conflicts| > 0 then Recover(ended, scheduleId, ConflictError(conflicts))
      else AfterPersist(ended, scheduleId, moved, persist)
  }

  /** The move once validation has passed: the optimistic write and the persisting request. */
  function AfterPersist(ended: DragEffect, scheduleId: string, moved: Placement, persist: SQ.MutationOutcome)
      : DragEffect
  {
    var written := ended.(dragData := MoveInCache(ended.dragData, scheduleId, moved),
                          requests := ended.requests + [PersistRequest(moved)]);
    match persist
    case Saved(response) =>
      written.(detailData := ended.detailData[SQ.DetailKey(scheduleId) := SQ.CachedAnswer(SQ.UpdateAssignment, response)],
               events := written.events + [MoveSucceeded])
    case Rejected(error) =>
      Recover(written.(events := written.events + [QueryError(error)]), scheduleId, error)
  }

  /** `handleDragEnd`, run on the shared cache; the drag-key entries and the detail-key entries
      are kept by one cache object each. */
  method HandleDragEnd(drag: QueryClient<CachedSchedule>, detail: QueryClient<SQ.ScheduleFields>,
                       scheduleId: string, result: DropResult, validation: Validation, persist: SQ.MutationOutcome)
      returns (events: seq<Event>, requests: seq<Request>)
    modifies drag, detail
    ensures DragEffect(drag.data, drag.invalidated, detail.data, events, requests)
      == DragEnd(old(drag.data), old(drag.invalidated), old(detail.data), scheduleId, result, validation, persist)
    ensures detail.invalidated == old(detail.invalidated)
  {
    events := [];
    requests := [];
    if !IsMove(result) {
      return;
    }
    var newAssignment := Proposal(result);
    var caught: Option<Thrown> := None;
    events := [ValidationStarted];
    requests := [ValidateRequest([newAssignment])];
    match validation {
      case ValidationFailed(error) =>
        events := events + [QueryError(error)];
        caught := Some(error);
      case Validated(cs) =>
        events := events + [ValidationEnded];
        var conflicts := cs.GetOr([]);
        if |conflicts| > 0 {
          caught := Some(ConflictError(conflicts));
        } else {
          var key := DragKey(scheduleId);
          var oldData := drag.GetQueryData(key);
          if oldData.Some? {
            var newAssignments := MoveClass(oldData.value.assignments, newAssignment.classId, newAssignment);
            drag.SetQueryData(key, oldData.value.(assignments := newAssignments));
          }
          requests := requests + [PersistRequest(newAssignment)];
          var reported := SQ.SettleScheduleMutation(detail, SQ.UpdateAssignment, scheduleId, persist);
          if persist.Rejected? {
            events := events + [QueryError(persist.error)];
            caught := Some(persist.error);
          } else {
            events := events + [MoveSucceeded];
          }
      }
    }
    if caught.Some? {
      drag.InvalidateQueries(DragKey(scheduleId));
      var errorMessage := CatchMessage(caught.value);
      events := events + [QueryError(ErrorHandlers.PlainErrorOf(errorMessage)),
                          MoveError(ErrorHandlers.PlainErrorOf(errorMessage))];
    }
  }

  // ---------------------------------------------------------------- properties of the move

  /** A drop off every target, or back onto its own position, does nothing: no request, no
      callback, no cache write and no invalidation. */
  lemma NoMoveDoesNothing(dragData: map<QueryKey, CachedSchedule>, dragInvalidated: seq<QueryKey>,
                          detailData: map<QueryKey, SQ.ScheduleFields>, scheduleId: string, r: DropResult,
                          validation: Validation, persist: SQ.MutationOutcome)
    requires r.destination.None? || (r.source.droppableId == r.destination.value.droppableId
                                     && r.source.index == r.destination.value.index)
    ensures DragEnd(dragData, dragInvalidated, detailData, scheduleId, r, validation, persist)
      == DragEffect(dragData, dragInvalidated, detailData, [], [])
  {
  }

  /** A move first asks to validate exactly the proposed assignment: the dragged class at the
      destination's day and period in week 1. */
  lemma MoveValidatesFirst(dragData: map<QueryKey, CachedSchedule>, dragInvalidated: seq<QueryKey>,
                           detailData: map<QueryKey, SQ.ScheduleFields>, scheduleId: string, r: DropResult,
                           validation: Validation, persist: SQ.MutationOutcome)
    requires IsMove(r)
    ensures var e := DragEnd(dragData, dragInvalidated, detailData, scheduleId, r, validation, persist);
      var dest := ParseDropId(r.destination.value.droppableId);
      && |e.requests| >= 1
      && e.requests[0] == ValidateRequest([Placement(r.draggableId, dest.day, dest.period, 1)])
      && e.events[0] == ValidationStarted
  {
  }

  /** A validation that reports conflicts stops the move before any cache write or persisting
      request; the drag key is invalidated and the joined conflict messages are reported once to
      each callback. */
  lemma ConflictsBlockMove(dragData: map<QueryKey, CachedSchedule>, dragInvalidated: seq<QueryKey>,
                           detailData: map<QueryKey, SQ.ScheduleFields>, scheduleId: string, r: DropResult,
                           conflicts: seq<string>, persist: SQ.MutationOutcome)
    requires IsMove(r) && |conflicts| > 0
    ensures var e := DragEnd(dragData, dragInvalidated, detailData, scheduleId, r, Validated(Some(conflicts)), persist);
      && e.dragData == dragData && e.detailData == detailData
      && e.requests == [ValidateRequest([Proposal(r)])]
      && e.dragInvalidated == dragInvalidated + [DragKey(scheduleId)]
      && e.events == [ValidationStarted, ValidationEnded, QueryError(ConflictError(conflicts)),
                      MoveError(ConflictError(conflicts))]
  {
    var error := ConflictError(conflicts);
    assert ErrorHandlers.PlainErrorOf(CatchMessage(error)) == error;
  }

  /** A rejected validation request is reported by its mutation and again by the `catch`;
      `onValidationEnd` is not called and nothing is written. */
  lemma ValidationFailureReported(dragData: map<QueryKey, CachedSchedule>, dragInvalidated: seq<QueryKey>,
                                  detailData: map<QueryKey, SQ.ScheduleFields>, scheduleId: string, r: DropResult,
                                  error: Thrown, persist: SQ.MutationOutcome)
    requires IsMove(r)
    ensures var e := DragEnd(dragData, dragInvalidated, detailData, scheduleId, r, ValidationFailed(error), persist);
      var reported := ErrorHandlers.PlainErrorOf(CatchMessage(error));
      && e.dragData == dragData && e.detailData == detailData
      && e.requests == [ValidateRequest([Proposal(r)])]
      && e.dragInvalidated == dragInvalidated + [DragKey(scheduleId)]
      && e.events == [ValidationStarted, QueryError(error), QueryError(reported), MoveError(reported)]
  {
  }

  /** A validated move writes the mapped assignments under the drag key and persists the proposed
      assignment. When the persisting request succeeds, the server's answer is stored under the
      detail key, where it shows none of the schedule's keys, and success is reported. When it fails, the optimistic write stays, the drag key
      is invalidated, and the error is reported by the mutation and then once to each callback. */
  lemma ValidatedMovePersists(dragData: map<QueryKey, CachedSchedule>, dragInvalidated: seq<QueryKey>,
                              detailData: map<QueryKey, SQ.ScheduleFields>, scheduleId: string, r: DropResult,
                              cs: Option<seq<string>>, persist: SQ.MutationOutcome)
    requires IsMove(r) && (cs.None? || cs.value == [])
    ensures var e := DragEnd(dragData, dragInvalidated, detailData, scheduleId, r, Validated(cs), persist);
      && e.dragData == MoveInCache(dragData, scheduleId, Proposal(r))
      && e.requests == [ValidateRequest([Proposal(r)]), PersistRequest(Proposal(r))]
    ensures var e := DragEnd(dragData, dragInvalidated, detailData, scheduleId, r, Validated(cs), persist);
      persist.Saved? ==>
        && e.detailData == detailData[SQ.DetailKey(scheduleId) := SQ.EMPTY]
        && e.dragInvalidated == dragInvalidated
        && e.events == [ValidationStarted, ValidationEnded, MoveSucceeded]
    ensures var e := DragEnd(dragData, dragInvalidated, detailData, scheduleId, r, Validated(cs), persist);
      persist.Rejected? ==>
        var reported := ErrorHandlers.PlainErrorOf(CatchMessage(persist.error));
        && e.detailData == detailData
        && e.dragInvalidated == dragInvalidated + [DragKey(scheduleId)]
        && e.events == [ValidationStarted, ValidationEnded, QueryError(persist.error), QueryError(reported), MoveError(reported)]
  {
  }

  /** With the validation answer the server sends, the move never stops for conflicts: even when
      the answer's `data` lists conflicts, the move writes under the drag key and persists the
      proposed assignment. */
  lemma ServerConflictsNeverBlock(dragData: map<QueryKey, CachedSchedule>, dragInvalidated: seq<QueryKey>,
                                  detailData: map<QueryKey, SQ.ScheduleFields>, scheduleId: string, r: DropResult,
                                  answer: ValidationAnswer, persist: SQ.MutationOutcome)
    requires IsMove(r)
    ensures var e := DragEnd(dragData, dragInvalidated, detailData, scheduleId, r, ValidationOf(answer), persist);
      && e.dragData == MoveInCache(dragData, scheduleId, Proposal(r))
      && e.requests == [ValidateRequest([Proposal(r)]), PersistRequest(Proposal(r))]
  {
    ValidatedMovePersists(dragData, dragInvalidated, detailData, scheduleId, r, None, persist);
  }

  /** Reading the conflicts from the answer's `data`, a validation that lists conflicts stops the
      move before any cache write or persisting request, and the drag key is invalidated. */
  lemma IntendedConflictsBlock(dragData: map<QueryKey, CachedSchedule>, dragInvalidated: seq<QueryKey>,
                               detailData: map<QueryKey, SQ.ScheduleFields>, scheduleId: string, r: DropResult,
                               answer: ValidationAnswer, persist: SQ.MutationOutcome)
    requires IsMove(r) && answer.data.conflicts != []
    ensures var e := DragEnd(dragData, dragInvalidated, detailData, scheduleId, r, IntendedValidationOf(answer), persist);
      && e.dragData == dragData && e.detailData == detailData
      && e.requests == [ValidateRequest([Proposal(r)])]
      && e.dragInvalidated == dragInvalidated + [DragKey(scheduleId)]
  {
    ConflictsBlockMove(dragData, dragInvalidated, detailData, scheduleId, r, answer.data.conflicts, persist);
  }

  /** The optimistic write only updates an entry that is already cached: until the query that
      reads the drag key has stored a schedule there, a move leaves the drag-key entries alone. */
  lemma DragKeyStaysEmpty(dragData: map<QueryKey, CachedSchedule>, dragInvalidated: seq<QueryKey>,
                          detailData: map<QueryKey, SQ.ScheduleFields>, scheduleId: string, r: DropResult,
                          validation: Validation, persist: SQ.MutationOutcome)
    requires DragKey(scheduleId) !in dragData
    ensures DragEnd(dragData, dragInvalidated, detailData, scheduleId, r, validation, persist).dragData == dragData
  {
  }
}
