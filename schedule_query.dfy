/**
 * The schedule query hooks: the key factory, the response checks of the two fetching queries,
 * and the cache callbacks of the mutations, including the optimistic update with rollback.
 * A cached schedule is an object that may lack any of the schedule's keys (`{}` and
 * `Partial<Schedule>` are cached next to full schedules), so it is modelled with every field
 * optional; a field is present exactly when its key is.
 */
module ScheduleQuery {
  import opened Wrappers
  import opened ScheduleTypes
  import opened QueryCache
  import opened ErrorTypes
  import ErrorHandlers

  // ---------------------------------------------------------------- keys

  const SCHEDULES := "schedules"

  /** `scheduleKeys.all`. */
  const ALL_KEY: QueryKey := [SCHEDULES]

  /** `scheduleKeys.lists()`. */
  function ListsKey(): QueryKey {
    ALL_KEY
  }

  /** `scheduleKeys.detail(id)`. */
  function DetailKey(id: string): QueryKey {
    ALL_KEY + [id]
  }

  /** The list key is `['schedules']`, a detail key is `['schedules', id]`; distinct ids have
      distinct detail keys, no detail key is the list key, and invalidating the list key reaches
      every detail query too. */
  lemma KeyFacts(id1: string, id2: string)
    ensures ListsKey() == ["schedules"] && DetailKey(id1) == ["schedules", id1]
    ensures DetailKey(id1) == DetailKey(id2) <==> id1 == id2
    ensures DetailKey(id1) != ListsKey()
    ensures Matches(ListsKey(), DetailKey(id1)) && !Matches(DetailKey(id1), ListsKey())
    ensures Matches(DetailKey(id1), DetailKey(id2)) <==> id1 == id2
  {
    if DetailKey(id1) == DetailKey(id2) {
      assert DetailKey(id1)[1] == id1;
    }
  }

  // ---------------------------------------------------------------- cached objects

  /** A schedule object with any subset of its keys. */
  datatype ScheduleFields = ScheduleFields(
    id: Option<string>, startDate: Option<string>, endDate: Option<string>,
    rotationWeeks: Option<int>, assignments: Option<seq<Assignment>>, periods: Option<seq<int>>)

  /** `{}`. */
  const EMPTY: ScheduleFields := ScheduleFields(None, None, None, None, None, None)

  /** A full schedule as an object. */
  function FieldsOf(s: Schedule): ScheduleFields {
    ScheduleFields(Some(s.id), Some(s.startDate), Some(s.endDate), Some(s.rotationWeeks),
                   Some(s.assignments), Some(s.periods))
  }

  /** The full schedule an object describes, when it has every key. */
  function AsSchedule(f: ScheduleFields): (s: Option<Schedule>)
    ensures s.Some? <==> (f.id.Some? && f.startDate.Some? && f.endDate.Some? && f.rotationWeeks.Some?
                          && f.assignments.Some? && f.periods.Some?)
    ensures s.Some? ==> FieldsOf(s.value) == f
  {
    if f.id.Some? && f.startDate.Some? && f.endDate.Some? && f.rotationWeeks.Some?
       && f.assignments.Some? && f.periods.Some?
    then Some(Schedule(f.id.value, f.startDate.value, f.endDate.value, f.rotationWeeks.value,
                       f.assignments.value, f.periods.value))
    else None
  }

  /** A full schedule reads back from its object. */
  lemma FieldsRoundTrip(s: Schedule)
    ensures AsSchedule(FieldsOf(s)) == Some(s)
    ensures FieldsOf(s) != EMPTY
  {
  }

  function Over<T>(a: Option<T>, b: Option<T>): Option<T> {
    if b.Some? then b else a
  }

  /** `{ ...a, ...b }`: every key of `b` with its value, and the keys of `a` that `b` lacks. */
  function Spread(a: ScheduleFields, b: ScheduleFields): ScheduleFields {
    ScheduleFields(Over(a.id, b.id), Over(a.startDate, b.startDate), Over(a.endDate, b.endDate),
                   Over(a.rotationWeeks, b.rotationWeeks), Over(a.assignments, b.assignments),
                   Over(a.periods, b.periods))
  }

  /** Spreading `{}` on either side changes nothing, spreading the same updates twice is the same
      as once, and spreading is associative. */
  lemma SpreadFacts(a: ScheduleFields, b: ScheduleFields, c: ScheduleFields)
    ensures Spread(a, EMPTY) == a && Spread(EMPTY, b) == b
    ensures Spread(Spread(a, b), b) == Spread(a, b)
    ensures Spread(Spread(a, b), c) == Spread(a, Spread(b, c))
  {
  }

  /** Every key of the updates wins, every other key keeps the previous value, and a full
      schedule replaces whatever it is spread over. */
  lemma SpreadKeeps(a: ScheduleFields, b: ScheduleFields)
    ensures b.id.Some? ==> Spread(a, b).id == b.id
    ensures b.id.None? ==> Spread(a, b).id == a.id
    ensures b.assignments.Some? ==> Spread(a, b).assignments == b.assignments
    ensures b.assignments.None? ==> Spread(a, b).assignments == a.assignments
    ensures AsSchedule(b).Some? ==> Spread(a, b) == b
  {
  }

  // ---------------------------------------------------------------- query functions

  /** What `ScheduleService.getSchedule` produced. */
  datatype DetailResponse = NoDetail | Detail(fields: ScheduleFields) | DetailThrew(error: Thrown)

  /** `response.id` is truthy. */
  predicate HasId(f: ScheduleFields) {
    f.id.Some? && f.id.value != ""
  }

  /** The `queryFn` of `useSchedule`. It never throws: a missing response, one without a truthy
      `id` and a failed fetch all give `{}`. */
  function FetchSchedule(response: DetailResponse): (r: ScheduleFields)
    ensures r == EMPTY || HasId(r)
    ensures response.Detail? && HasId(response.fields) ==> r == response.fields
    ensures !(response.Detail? && HasId(response.fields)) ==> r == EMPTY
  {
    match response
    case NoDetail => EMPTY
    case Detail(f) => if !HasId(f) then EMPTY else f
    case DetailThrew(_) => EMPTY
  }

  /** What `ScheduleService.getAllSchedules` produced: nothing, an array, another object, or
      an exception. */
  datatype ListResponse = NoList | ListArray(items: seq<ScheduleFields>) | NotArray | ListThrew(error: Thrown)

  const NO_DATA_MESSAGE := "No schedules data received"
  const NOT_ARRAY_MESSAGE := "Invalid response format: expected array of schedules"

  /** The `queryFn` of `useAllSchedules`: the array, the empty one included, or a rejection. */
  function FetchAllSchedules(response: ListResponse): (r: Result<seq<ScheduleFields>, Thrown>)
    ensures r.Success? <==> response.ListArray?
    ensures r.Success? ==> r.value == response.items
    ensures response.NoList? ==> r == Failure(ErrorHandlers.PlainErrorOf(NO_DATA_MESSAGE))
    ensures response.NotArray? ==> r == Failure(ErrorHandlers.PlainErrorOf(NOT_ARRAY_MESSAGE))
    ensures response.ListThrew? ==> r == Failure(response.error)
  {
    match response
    case NoList => Failure(ErrorHandlers.PlainErrorOf(NO_DATA_MESSAGE))
    case ListArray(items) => if |items| == 0 then Success([]) else Success(items)
    case NotArray => Failure(ErrorHandlers.PlainErrorOf(NOT_ARRAY_MESSAGE))
    case ListThrew(e) => Failure(e)
  }

  // ---------------------------------------------------------------- mutation callbacks

  /** The server's answer `{ data, success }`. The service method behind `useUpdateSchedule`
      returns its `data`; those behind `useUpdateAssignment` and `useResolveConflicts` return
      the whole answer, and their mutations cache it as it is. */
  datatype Envelope = Envelope(data: ScheduleFields, success: bool)

  /** A mutation that caches its answer under the mutated schedule's detail key. */
  datatype ScheduleMutation = UpdateSchedule | UpdateAssignment | ResolveConflicts

  /** What a mutation's request did: the server answered, or the request was rejected. */
  datatype MutationOutcome = Saved(response: Envelope) | Rejected(error: Thrown)

  /** The object a saved mutation caches, seen through the schedule's keys: the answer's `data`
      for `useUpdateSchedule`; for the other two the answer itself, whose only keys are `data`
      and `success`, so it has none of the schedule's keys. */
  function CachedAnswer(mutation: ScheduleMutation, response: Envelope): ScheduleFields {
    if mutation.UpdateSchedule? then response.data else EMPTY
  }

  /** When the server answers with a full schedule, the detail query can read that schedule back
      from what `useUpdateSchedule` caches, but not from what `useUpdateAssignment` or
      `useResolveConflicts` cache: their entry has no id and no assignments, and spreading any
      updates over it keeps only the updates. */
  lemma EnvelopeAnswerUnreadable(s: Schedule, success: bool, updates: ScheduleFields)
    ensures AsSchedule(CachedAnswer(UpdateSchedule, Envelope(FieldsOf(s), success))) == Some(s)
    ensures AsSchedule(CachedAnswer(UpdateAssignment, Envelope(FieldsOf(s), success))).None?
    ensures AsSchedule(CachedAnswer(ResolveConflicts, Envelope(FieldsOf(s), success))).None?
    ensures CachedAnswer(UpdateAssignment, Envelope(FieldsOf(s), success)).id.None?
    ensures CachedAnswer(UpdateAssignment, Envelope(FieldsOf(s), success)).assignments.None?
    ensures Spread(CachedAnswer(ResolveConflicts, Envelope(FieldsOf(s), success)), updates) == updates
  {
    FieldsRoundTrip(s);
    SpreadFacts(updates, updates, updates);
  }

  /** What the two envelope-caching mutations evidently mean to cache: the answer's `data`, as
      `useUpdateSchedule` does. */
  function IntendedCachedAnswer(mutation: ScheduleMutation, response: Envelope): (f: ScheduleFields)
    ensures f == CachedAnswer(UpdateSchedule, response)
  {
    response.data
  }

  /** With the intended caching, every mutation stores an entry from which the detail query reads
      back the full schedule the server answered. */
  lemma IntendedAnswerReadable(mutation: ScheduleMutation, s: Schedule, success: bool)
    ensures AsSchedule(IntendedCachedAnswer(mutation, Envelope(FieldsOf(s), success))) == Some(s)
  {
    FieldsRoundTrip(s);
  }

  /** A mutation of `useUpdateSchedule`, `useUpdateAssignment` or `useResolveConflicts` settling:
      on success the entry `CachedAnswer` gives is stored under the mutated schedule's detail
      key, and on failure the cache is untouched and the error is reported once. */
  method SettleScheduleMutation(client: QueryClient<ScheduleFields>, mutation: ScheduleMutation, scheduleId: string,
                                outcome: MutationOutcome)
      returns (reported: seq<Thrown>)
    modifies client
    ensures outcome.Saved? ==>
      client.data == old(client.data)[DetailKey(scheduleId) := CachedAnswer(mutation, outcome.response)]
    ensures outcome.Rejected? ==> client.data == old(client.data)
    ensures client.invalidated == old(client.invalidated)
    ensures reported == if outcome.Rejected? then [outcome.error] else []
  {
    match outcome {
      case Saved(response) =>
        var cached := if mutation.UpdateSchedule? then response.data else EMPTY;
        client.SetQueryData(DetailKey(scheduleId), cached);
        reported := [];
      case Rejected(error) =>
        reported := [error];
    }
  }

  /** `useGenerateSchedule` settling: on success the list queries are invalidated and the new
      schedule is stored under its own id's detail key. */
  method SettleGeneration(client: QueryClient<ScheduleFields>, outcome: Result<Schedule, Thrown>)
      returns (reported: seq<Thrown>)
    modifies client
    ensures outcome.Success? ==>
      && client.data == old(client.data)[DetailKey(outcome.value.id) := FieldsOf(outcome.value)]
      && client.invalidated == old(client.invalidated) + [ListsKey()]
    ensures outcome.Failure? ==> client.data == old(client.data) && client.invalidated == old(client.invalidated)
    ensures reported == if outcome.Failure? then [outcome.error] else []
  {
    match outcome {
      case Success(newSchedule) =>
        client.InvalidateQueries(ListsKey());
        client.SetQueryData(DetailKey(newSchedule.id), FieldsOf(newSchedule));
        reported := [];
      case Failure(error) =>
        reported := [error];
    }
  }

  // ---------------------------------------------------------------- optimistic update

  /** The snapshot `onMutate` takes: the cached detail entry, if any. */
  function Snapshot(data: map<QueryKey, ScheduleFields>, scheduleId: string): (s: Option<ScheduleFields>)
    ensures s.Some? <==> DetailKey(scheduleId) in data
  {
    if DetailKey(scheduleId) in data then Some(data[DetailKey(scheduleId)]) else None
  }

  /** The cache after `onMutate`: a cached detail entry (any object, `{}` included, is truthy)
      becomes `{ ...previous, ...updates }`; with no entry nothing is written. */
  function OptimisticWrite(data: map<QueryKey, ScheduleFields>, scheduleId: string, updates: ScheduleFields)
      : (r: map<QueryKey, ScheduleFields>)
    ensures r.Keys == data.Keys
    ensures forall k :: k in data && k != DetailKey(scheduleId) ==> r[k] == data[k]
    ensures DetailKey(scheduleId) in data ==>
      r[DetailKey(scheduleId)] == Spread(data[DetailKey(scheduleId)], updates)
  {
    var key := DetailKey(scheduleId);
    if key in data then data[key := Spread(data[key], updates)] else data
  }

  /** The cache after `onError`: a snapshot is written back; without one nothing is written. */
  function Rollback(data: map<QueryKey, ScheduleFields>, scheduleId: string, snapshot: Option<ScheduleFields>)
      : (r: map<QueryKey, ScheduleFields>)
    ensures snapshot.None? ==> r == data
    ensures snapshot.Some? ==> r == data[DetailKey(scheduleId) := snapshot.value]
  {
    if snapshot.Some? then data[DetailKey(scheduleId) := snapshot.value] else data
  }

  /** Rolling back with the snapshot `onMutate` took restores the whole cache as it was. */
  lemma RollbackRestores(data: map<QueryKey, ScheduleFields>, scheduleId: string, updates: ScheduleFields)
    ensures Rollback(OptimisticWrite(data, scheduleId, updates), scheduleId, Snapshot(data, scheduleId)) == data
  {
    var key := DetailKey(scheduleId);
    if key in data {
      var r := Rollback(OptimisticWrite(data, scheduleId, updates), scheduleId, Snapshot(data, scheduleId));
      assert r.Keys == data.Keys;
      assert forall k :: k in r ==> r[k] == data[k];
    }
  }

  /** `onMutate` of `useOptimisticUpdate`: it returns the snapshot and writes the merged entry.
      Cancelling the running fetches is outside the model. */
  method OnMutate(client: QueryClient<ScheduleFields>, scheduleId: string, updates: ScheduleFields)
      returns (previousSchedule: Option<ScheduleFields>)
    modifies client
    ensures previousSchedule == Snapshot(old(client.data), scheduleId)
    ensures client.data == OptimisticWrite(old(client.data), scheduleId, updates)
    ensures client.invalidated == old(client.invalidated)
  {
    var key := DetailKey(scheduleId);
    previousSchedule := client.GetQueryData(key);
    if previousSchedule.Some? {
      client.SetQueryData(key, Spread(previousSchedule.value, updates));
    }
  }

  /** `onError` of `useOptimisticUpdate`: the snapshot is written back and the error reported. */
  method OnOptimisticError(client: QueryClient<ScheduleFields>, scheduleId: string, error: Thrown,
                           previousSchedule: Option<ScheduleFields>)
      returns (reported: seq<Thrown>)
    modifies client
    ensures client.data == Rollback(old(client.data), scheduleId, previousSchedule)
    ensures client.invalidated == old(client.invalidated)
    ensures reported == [error]
  {
    if previousSchedule.Some? {
      client.SetQueryData(DetailKey(scheduleId), previousSchedule.value);
    }
    reported := [error];
  }

  /** A whole optimistic update: `onMutate`, the request, `onError` when it fails, and
      `onSettled`, which invalidates the detail query either way. A failed update leaves every
      entry as it was; a successful one leaves the merged entry until the refetch. */
  method OptimisticUpdate(client: QueryClient<ScheduleFields>, scheduleId: string, updates: ScheduleFields,
                          outcome: MutationOutcome)
      returns (reported: seq<Thrown>)
    modifies client
    ensures outcome.Rejected? ==> client.data == old(client.data) && reported == [outcome.error]
    ensures outcome.Saved? ==> client.data == OptimisticWrite(old(client.data), scheduleId, updates) && reported == []
    ensures client.invalidated == old(client.invalidated) + [DetailKey(scheduleId)]
  {
    ghost var before := client.data;
    var context := OnMutate(client, scheduleId, updates);
    reported := [];
    if outcome.Rejected? {
      reported := OnOptimisticError(client, scheduleId, outcome.error, context);
      RollbackRestores(before, scheduleId, updates);
    }
    client.InvalidateQueries(DetailKey(scheduleId));
  }
}
