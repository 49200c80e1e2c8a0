/**
 * The frontend's schedule store: the reducer over the schedule state and the dispatch sequences
 * of the provider's three requests. The clock reading `new Date().toISOString()` of a stored
 * schedule and the awaited answer of each service call are parameters.
 */
module ScheduleContext {
  import opened Wrappers
  import opened ScheduleTypes

  // ---------------------------------------------------------------- state and actions

  /** `ScheduleState`. */
  datatype ScheduleState = ScheduleState(schedule: Option<Schedule>, isLoading: bool, error: Option<string>, lastUpdate: Option<string>)

  const InitialState := ScheduleState(None, false, None, None)

  /** The `updates` of an `UPDATE_ASSIGNMENT`: the assignment fields it carries, each optional. */
  datatype AssignmentUpdate = AssignmentUpdate(classId: Option<string>, day: Option<string>, period: Option<int>, week: Option<int>)

  /** `ScheduleAction`; `UnknownAction` stands for a dispatched object of any other `type`. */
  datatype Action =
    | SetSchedule(payload: Schedule)
    | SetLoading(loading: bool)
    | SetError(message: Option<string>)
    | UpdateAssignment(classId: string, updates: AssignmentUpdate)
    | ClearSchedule
    | UnknownAction(kind: string)

  /** `{ ...assignment, ...updates }`: every field the update carries wins. */
  function Merge(a: Assignment, u: AssignmentUpdate): (r: Assignment)
    ensures u.classId.None? ==> r.classId == a.classId
    ensures u.day.Some? ==> r.day == u.day.value
    ensures u.classId == None && u.day == None && u.period == None && u.week == None ==> r == a
  {
    Assignment(u.classId.GetOr(a.classId), u.day.GetOr(a.day), u.period.GetOr(a.period), u.week.GetOr(a.week))
  }

  /** The assignments after `UPDATE_ASSIGNMENT`: the update is merged into every assignment of the
      class. */
  function MergeInto(assignments: seq<Assignment>, classId: string, u: AssignmentUpdate): (r: seq<Assignment>)
    ensures |r| == |assignments|
  {
    seq(|assignments|, i requires 0 <= i < |assignments| =>
      if assignments[i].classId == classId then Merge(assignments[i], u) else assignments[i])
  }

  /** `scheduleReducer`; `now` is the clock reading a stored schedule is stamped with. */
  function Reduce(state: ScheduleState, action: Action, now: string): (r: ScheduleState)
    ensures action.SetSchedule? ==> r == state.(schedule := Some(action.payload), lastUpdate := Some(now))
    ensures action.SetLoading? ==> r == state.(isLoading := action.loading)
    ensures action.SetError? ==> r == state.(error := action.message)
    ensures action.UpdateAssignment? && state.schedule.None? ==> r == state
    ensures action.UpdateAssignment? ==>
      r.isLoading == state.isLoading && r.error == state.error && r.lastUpdate == state.lastUpdate
    ensures action.ClearSchedule? ==> r == InitialState
    ensures action.UnknownAction? ==> r == state
  {
    match action
    case SetSchedule(s) => state.(schedule := Some(s), lastUpdate := Some(now))
    case SetLoading(b) => state.(isLoading := b)
    case SetError(e) => state.(error := e)
    case UpdateAssignment(classId, u) =>
      if state.schedule.None? then state
      else
        var s := state.schedule.value;
        state.(schedule := Some(s.(assignments := MergeInto(s.assignments, classId, u))))
    case ClearSchedule => InitialState
    case UnknownAction(_) => state
  }

  /** `UPDATE_ASSIGNMENT` on a loaded schedule keeps the rest of the schedule, keeps the length
      and order of its assignments, merges the update into every assignment of the class and
      leaves every other assignment as it was. */
  lemma UpdateAssignmentMerges(state: ScheduleState, classId: string, u: AssignmentUpdate, now: string)
    requires state.schedule.Some?
    ensures var r := Reduce(state, UpdateAssignment(classId, u), now);
      var before := state.schedule.value;
      && r.schedule.Some?
      && r.schedule.value.(assignments := before.assignments) == before
      && |r.schedule.value.assignments| == |before.assignments|
      && forall i :: 0 <= i < |before.assignments| ==>
        r.schedule.value.assignments[i] ==
          if before.assignments[i].classId == classId then Merge(before.assignments[i], u) else before.assignments[i]
  {
  }

  /** Repeating an `UPDATE_ASSIGNMENT` that keeps the class id changes nothing more. */
  lemma UpdateAssignmentIdempotent(state: ScheduleState, classId: string, u: AssignmentUpdate, now: string)
    requires u.classId.None? || u.classId == Some(classId)
    ensures var once := Reduce(state, UpdateAssignment(classId, u), now);
      Reduce(once, UpdateAssignment(classId, u), now) == once
  {
    if state.schedule.Some? {
      var before := state.schedule.value.assignments;
      var once := MergeInto(before, classId, u);
      var twice := MergeInto(once, classId, u);
      forall i | 0 <= i < |before|
        ensures twice[i] == once[i]
      {
        if before[i].classId == classId {
          assert once[i].classId == classId;
        }
      }
      assert twice == once;
    }
  }

  /** `CLEAR_SCHEDULE` restores the initial state, so clearing twice is clearing once. */
  lemma ClearIdempotent(state: ScheduleState, now: string)
    ensures Reduce(Reduce(state, ClearSchedule, now), ClearSchedule, now) == Reduce(state, ClearSchedule, now)
    ensures Reduce(state, ClearSchedule, now) == InitialState
  {
  }

  // ---------------------------------------------------------------- dispatch sequences

  /** The states the reducer passes through for `actions`, dispatched in order. */
  function Run(state: ScheduleState, actions: seq<Action>, now: string): ScheduleState
    decreases |actions|
  {
    if actions == [] then state else Run(Reduce(state, actions[0], now), actions[1..], now)
  }

  /** Dispatching two sequences one after the other is dispatching their concatenation. */
  lemma {:induction false} RunAppend(state: ScheduleState, a: seq<Action>, b: seq<Action>, now: string)
    ensures Run(state, a + b, now) == Run(Run(state, a, now), b, now)
    decreases |a|
  {
    if a == [] {
      assert a + b == b;
    } else {
      assert (a + b)[1..] == a[1..] + b;
      RunAppend(Reduce(state, a[0], now), a[1..], b, now);
    }
  }

  /** A value a service call rejected with: an `Error` with its message, or anything else. */
  datatype Thrown = ErrorValue(message: string) | NonErrorValue

  /** The awaited answer of a service call. */
  datatype ServiceOutcome = Returned(schedule: Schedule) | Threw(error: Thrown)

  /** `error instanceof Error ? error.message : fallback`. */
  function ErrorMessage(e: Thrown, fallback: string): string {
    match e
    case ErrorValue(m) => m
    case NonErrorValue => fallback
  }

  const LOAD_FALLBACK := "Failed to load schedule"
  const GENERATE_FALLBACK := "Failed to generate schedule"
  const UPDATE_FALLBACK := "Failed to update assignment"

  /** The actions of one request: loading on, then the schedule and a cleared error or the error
      message, then (in `finally`) loading off. */
  function RequestActions(outcome: ServiceOutcome, fallback: string): seq<Action> {
    [SetLoading(true)]
    + (match outcome
       case Returned(s) => [SetSchedule(s), SetError(None)]
       case Threw(e) => [SetError(Some(ErrorMessage(e, fallback)))])
    + [SetLoading(false)]
  }

  /** The actions of `updateAssignment`: none at all while no schedule is loaded. */
  function UpdateActions(state: ScheduleState, outcome: ServiceOutcome): (acts: seq<Action>)
    ensures state.schedule.None? ==> acts == [] && Run(state, acts, "") == state
  {
    if state.schedule.None? then [] else RequestActions(outcome, UPDATE_FALLBACK)
  }

  /** After a request completes, loading is off. On success the answer is the schedule, stamped
      with the clock, and the error is cleared; on failure the schedule and its stamp are untouched
      and the error is the rejection's message, or the fallback text. */
  lemma RequestSettles(state: ScheduleState, outcome: ServiceOutcome, fallback: string, now: string)
    ensures var r := Run(state, RequestActions(outcome, fallback), now);
      && !r.isLoading
      && (outcome.Returned? ==> r.schedule == Some(outcome.schedule) && r.error.None? && r.lastUpdate == Some(now))
      && (outcome.Threw? ==>
            r.schedule == state.schedule && r.lastUpdate == state.lastUpdate
            && r.error == Some(ErrorMessage(outcome.error, fallback)))
  {
    RunShape(state, outcome, fallback, now);
  }

  // ---------------------------------------------------------------- the provider

  /** `ScheduleProvider`: the state `useReducer` keeps and the callbacks that dispatch into it. */
  class ScheduleProvider {
    var state: ScheduleState

    constructor()
      ensures state == InitialState
    {
      state := InitialState;
    }

    /** `dispatch`. */
    method Dispatch(action: Action, now: string)
      modifies this
      ensures state == Reduce(old(state), action, now)
    {
      state := Reduce(state, action, now);
    }

    /** The body shared by `loadSchedule` and `generateSchedule`, with the fallback message of each. */
    method Request(outcome: ServiceOutcome, fallback: string, now: string)
      modifies this
      ensures state == Run(old(state), RequestActions(outcome, fallback), now)
    {
      ghost var start := state;
      Dispatch(SetLoading(true), now);
      match outcome {
        case Returned(s) =>
          Dispatch(SetSchedule(s), now);
          Dispatch(SetError(None), now);
        case Threw(e) =>
          Dispatch(SetError(Some(ErrorMessage(e, fallback))), now);
      }
      Dispatch(SetLoading(false), now);
      RunShape(start, outcome, fallback, now);
    }

    /** `loadSchedule`. */
    method LoadSchedule(outcome: ServiceOutcome, now: string)
      modifies this
      ensures state == Run(old(state), RequestActions(outcome, LOAD_FALLBACK), now)
    {
      Request(outcome, LOAD_FALLBACK, now);
    }

    /** `generateSchedule`. */
    method GenerateSchedule(outcome: ServiceOutcome, now: string)
      modifies this
      ensures state == Run(old(state), RequestActions(outcome, GENERATE_FALLBACK), now)
    {
      Request(outcome, GENERATE_FALLBACK, now);
    }

    /** `updateAssignment`; `outcome` is the answer of the update request, returned early when no
        schedule is loaded. */
    method UpdateAssignment(outcome: ServiceOutcome, now: string)
      modifies this
      ensures state == Run(old(state), UpdateActions(old(state), outcome), now)
    {
      if state.schedule.None? {
        return;
      }
      Request(outcome, UPDATE_FALLBACK, now);
    }

    /** `clearSchedule`. */
    method Clear(now: string)
      modifies this
      ensures state == InitialState
    {
      Dispatch(ClearSchedule, now);
    }
  }

  /** The state after the request's actions, written out step by step. */
  lemma RunShape(state: ScheduleState, outcome: ServiceOutcome, fallback: string, now: string)
    ensures outcome.Returned? ==> (Run(state, RequestActions(outcome, fallback), now) ==
      Reduce(Reduce(Reduce(Reduce(state, SetLoading(true), now), SetSchedule(outcome.schedule), now),
        SetError(None), now), SetLoading(false), now))
    ensures outcome.Threw? ==> (Run(state, RequestActions(outcome, fallback), now) ==
      Reduce(Reduce(Reduce(state, SetLoading(true), now), SetError(Some(ErrorMessage(outcome.error, fallback))), now),
        SetLoading(false), now))
  {
    var acts := RequestActions(outcome, fallback);
    var s1 := Reduce(state, SetLoading(true), now);
    assert Run(state, acts, now) == Run(s1, acts[1..], now);
    match outcome
    case Returned(s) =>
      var s2 := Reduce(s1, SetSchedule(s), now);
      var s3 := Reduce(s2, SetError(None), now);
      assert acts[1..] == [SetSchedule(s), SetError(None), SetLoading(false)];
      assert Run(s1, acts[1..], now) == Run(s2, [SetError(None), SetLoading(false)], now);
      assert Run(s2, [SetError(None), SetLoading(false)], now) == Run(s3, [SetLoading(false)], now);
      assert [SetLoading(false)][1..] == [];
    case Threw(e) =>
      var s2 := Reduce(s1, SetError(Some(ErrorMessage(e, fallback))), now);
      assert acts[1..] == [SetError(Some(ErrorMessage(e, fallback))), SetLoading(false)];
      assert Run(s1, acts[1..], now) == Run(s2, [SetLoading(false)], now);
      assert [SetLoading(false)][1..] == [];
  }
}
