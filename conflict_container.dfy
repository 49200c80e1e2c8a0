/**
 * The container of the class-conflict editor: the mutation that saves a class's conflict list,
 * with an optimistic write of the cached class, rollback from the snapshot on failure, and
 * invalidation of the class query once the mutation settles.
 */
module ConflictContainer {
  import opened Wrappers
  import opened QueryCache
  import opened ErrorTypes
  import opened ConflictGrid

  /** `Class`. */
  datatype ClassRecord = ClassRecord(id: string, name: string, gradeLevel: int, conflicts: seq<DailyConflicts>)

  /** The key `['class', classId]`. */
  function ClassKey(classId: string): QueryKey {
    ["class", classId]
  }

  /** The stand-in `ClassService.updateConflicts`, which always resolves with the class
      carrying the new list. */
  function MockUpdateConflicts(id: string, conflicts: seq<DailyConflicts>): (c: ClassRecord)
    ensures c.id == id && c.conflicts == conflicts && c.gradeLevel == 3
  {
    ClassRecord(id, "Class " + id, 3, conflicts)
  }

  /** The cache after `onMutate`: a cached class gets the new conflict list and keeps every other
      field; with no cached class nothing is written. */
  function WithConflicts(data: map<QueryKey, ClassRecord>, classId: string, newConflicts: seq<DailyConflicts>)
      : (r: map<QueryKey, ClassRecord>)
    ensures r.Keys == data.Keys
    ensures forall k :: k in data && k != ClassKey(classId) ==> r[k] == data[k]
    ensures ClassKey(classId) in data ==>
      var c := data[ClassKey(classId)];
      var n := r[ClassKey(classId)];
      n.conflicts == newConflicts && n.id == c.id && n.name == c.name && n.gradeLevel == c.gradeLevel
  {
    var key := ClassKey(classId);
    if key in data then data[key := data[key].(conflicts := newConflicts)] else data
  }

  /** The cache after `onError`: the snapshot is written back; without one nothing is written. */
  function Restored(data: map<QueryKey, ClassRecord>, classId: string, previousClass: Option<ClassRecord>)
      : (r: map<QueryKey, ClassRecord>)
    ensures previousClass.None? ==> r == data
    ensures previousClass.Some? ==> r == data[ClassKey(classId) := previousClass.value]
  {
    if previousClass.Some? then data[ClassKey(classId) := previousClass.value] else data
  }

  /** The snapshot `onMutate` takes. */
  function ClassSnapshot(data: map<QueryKey, ClassRecord>, classId: string): (s: Option<ClassRecord>)
    ensures s.Some? <==> ClassKey(classId) in data
    ensures s.Some? ==> s.value == data[ClassKey(classId)]
  {
    if ClassKey(classId) in data then Some(data[ClassKey(classId)]) else None
  }

  /** Restoring the snapshot undoes the optimistic write, whether or not a class was cached. */
  lemma RestoreUndoes(data: map<QueryKey, ClassRecord>, classId: string, newConflicts: seq<DailyConflicts>)
    ensures Restored(WithConflicts(data, classId, newConflicts), classId, ClassSnapshot(data, classId)) == data
  {
    var key := ClassKey(classId);
    if key in data {
      var r := Restored(WithConflicts(data, classId, newConflicts), classId, ClassSnapshot(data, classId));
      assert r.Keys == data.Keys;
      assert forall k :: k in r ==> r[k] == data[k];
    }
  }

  /** `onMutate`. Cancelling the running fetches is outside the model. */
  method OnMutate(client: QueryClient<ClassRecord>, classId: string, newConflicts: seq<DailyConflicts>)
      returns (previousClass: Option<ClassRecord>)
    modifies client
    ensures previousClass == ClassSnapshot(old(client.data), classId)
    ensures client.data == WithConflicts(old(client.data), classId, newConflicts)
    ensures client.invalidated == old(client.invalidated)
  {
    var key := ClassKey(classId);
    previousClass := client.GetQueryData(key);
    if previousClass.Some? {
      client.SetQueryData(key, previousClass.value.(conflicts := newConflicts));
    }
  }

  /** `onError`: the snapshot is written back and the error reported. */
  method OnError(client: QueryClient<ClassRecord>, classId: string, err: Thrown, previousClass: Option<ClassRecord>)
      returns (reported: seq<Thrown>)
    modifies client
    ensures client.data == Restored(old(client.data), classId, previousClass)
    ensures client.invalidated == old(client.invalidated)
    ensures reported == [err]
  {
    if previousClass.Some? {
      client.SetQueryData(ClassKey(classId), previousClass.value);
    }
    reported := [err];
  }

  /** `onSettled`: the class query is refetched after success and failure alike. */
  method OnSettled(client: QueryClient<ClassRecord>, classId: string)
    modifies client
    ensures client.data == old(client.data)
    ensures client.invalidated == old(client.invalidated) + [ClassKey(classId)]
  {
    client.InvalidateQueries(ClassKey(classId));
  }

  /** `handleConflictsChange`: one whole mutation, with the request's outcome given. A failure
      leaves the cache exactly as it was; a success leaves the optimistic entry until the
      refetch; the class query is invalidated either way. */
  method SaveConflicts(client: QueryClient<ClassRecord>, classId: string, conflicts: seq<DailyConflicts>,
                       outcome: Result<ClassRecord, Thrown>)
      returns (reported: seq<Thrown>)
    modifies client
    ensures outcome.Failure? ==> client.data == old(client.data) && reported == [outcome.error]
    ensures outcome.Success? ==> client.data == WithConflicts(old(client.data), classId, conflicts) && reported == []
    ensures client.invalidated == old(client.invalidated) + [ClassKey(classId)]
  {
    ghost var before := client.data;
    var context := OnMutate(client, classId, conflicts);
    reported := [];
    if outcome.Failure? {
      reported := OnError(client, classId, outcome.error, context);
      RestoreUndoes(before, classId, conflicts);
    }
    OnSettled(client, classId);
  }
}
