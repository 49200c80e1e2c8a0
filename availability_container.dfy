/**
 * The container around the availability editor: it turns an edited list of blocked periods into
 * one update per date, and turns the fetched per-date records back into a flat list.
 */
module AvailabilityContainer {
  import opened Wrappers
  import opened Seqs
  import opened Grouping
  import opened Availability

  /** The `TeacherAvailability` sent to the server for one date. */
  datatype AvailabilityUpdate = AvailabilityUpdate(id: string, date: string, blockedPeriods: seq<int>, reason: string)

  /** A fetched availability record; `blockedPeriods` may be missing. */
  datatype AvailabilityRecord = AvailabilityRecord(date: string, blockedPeriods: Option<seq<int>>)

  /** The `(date, period)` pairs of a list of blocked periods. */
  function Pairs(blocked: seq<Block>): (ps: seq<(string, int)>)
    ensures |ps| == |blocked|
    ensures forall i :: 0 <= i < |blocked| ==> ps[i] == (blocked[i].date, blocked[i].period)
  {
    seq(|blocked|, i requires 0 <= i < |blocked| => (blocked[i].date, blocked[i].period))
  }

  /** The `reduce` that groups blocked periods by date into a dictionary: `dates` is its key order. */
  method GroupByDate(blocked: seq<Block>) returns (dates: seq<string>, byDate: map<string, seq<int>>)
    ensures IsGroups(Pairs(blocked), dates, byDate)
  {
    dates, byDate := GroupBy(Pairs(blocked));
  }

  /** The update sent for one date. */
  function Update(date: string, periods: seq<int>): AvailabilityUpdate {
    AvailabilityUpdate("avail-" + date, date, periods, "Updated via UI")
  }

  /** The dates of a list of blocked periods, in order of first appearance. */
  function DatesOf(blocked: seq<Block>): seq<string> {
    Distinct(Keys(Pairs(blocked)))
  }

  /** The updates issued for an edited list: one per distinct date, in order of first appearance,
      carrying that date's periods in input order. */
  function Updates(blocked: seq<Block>): (us: seq<AvailabilityUpdate>)
    ensures |us| == |DatesOf(blocked)|
    ensures forall i :: 0 <= i < |us| ==>
      us[i] == Update(DatesOf(blocked)[i], ValuesOf(Pairs(blocked), DatesOf(blocked)[i]))
  {
    var dates := DatesOf(blocked);
    seq(|dates|, i requires 0 <= i < |dates| => Update(dates[i], ValuesOf(Pairs(blocked), dates[i])))
  }

  /** `handleAvailabilityChange`: the mutations issued, in order, by `Object.entries(...).forEach`. */
  method HandleAvailabilityChange(blocked: seq<Block>) returns (updates: seq<AvailabilityUpdate>)
    ensures updates == Updates(blocked)
  {
    var dates, byDate := GroupByDate(blocked);
    ghost var all := Updates(blocked);
    assert dates == DatesOf(blocked) && |all| == |dates|;
    updates := [];
    var j := 0;
    while j < |dates|
      invariant 0 <= j <= |dates|
      invariant updates == all[..j]
    {
      GroupsAt(Pairs(blocked), dates, byDate, j);
      assert all[j] == Update(dates[j], byDate[dates[j]]);
      assert all[..j + 1] == all[..j] + [all[j]];
      updates := updates + [Update(dates[j], byDate[dates[j]])];
      j := j + 1;
    }
    assert all[..j] == all;
  }

  /** Every date of the edited list gets an update. */
  lemma UpdateForEveryDate(blocked: seq<Block>, k: int)
    requires 0 <= k < |blocked|
    ensures exists i :: 0 <= i < |Updates(blocked)| && Updates(blocked)[i].date == blocked[k].date
  {
    var dates := DatesOf(blocked);
    assert Keys(Pairs(blocked))[k] == blocked[k].date;
    assert blocked[k].date in dates;
    var i :| 0 <= i < |dates| && dates[i] == blocked[k].date;
    assert Updates(blocked)[i].date == blocked[k].date;
  }

  /** Every update is for a date of the edited list. */
  lemma UpdateDateOccurs(blocked: seq<Block>, i: int)
    requires 0 <= i < |Updates(blocked)|
    ensures exists k :: 0 <= k < |blocked| && blocked[k].date == Updates(blocked)[i].date
  {
    var dates := DatesOf(blocked);
    assert dates[i] in dates;
    assert dates[i] in Keys(Pairs(blocked));
    var k :| 0 <= k < |blocked| && Keys(Pairs(blocked))[k] == dates[i];
  }

  /** The update ids are pairwise distinct. */
  lemma UpdatesDistinctIds(blocked: seq<Block>, i: int, j: int)
    requires 0 <= i < j < |Updates(blocked)|
    ensures Updates(blocked)[i].id != Updates(blocked)[j].id
  {
    var us := Updates(blocked);
    var p := "avail-";
    assert us[i].date == us[i].id[|p|..];
    assert us[j].date == us[j].id[|p|..];
  }

  /** The periods carried for a date are that date's periods of the edited list, in order. */
  lemma UpdatePeriods(blocked: seq<Block>, i: int, k: int)
    requires 0 <= i < |Updates(blocked)|
    requires 0 <= k < |Updates(blocked)[i].blockedPeriods|
    ensures Block(Updates(blocked)[i].date, Updates(blocked)[i].blockedPeriods[k]) in blocked
  {
    var ps := Pairs(blocked);
    var date := DatesOf(blocked)[i];
    assert Updates(blocked)[i].blockedPeriods == ValuesOf(ps, date);
    ValuesOfMember(ps, date, k);
  }

  lemma {:induction false} ValuesOfMember(ps: seq<(string, int)>, date: string, k: int)
    requires 0 <= k < |ValuesOf(ps, date)|
    ensures (date, ValuesOf(ps, date)[k]) in ps
  {
    var n := |ps| - 1;
    ValuesOfSnoc(ps[..n], ps[n].0, ps[n].1, date);
    assert ps == ps[..n] + [ps[n]];
    if k < |ValuesOf(ps[..n], date)| {
      ValuesOfMember(ps[..n], date, k);
    }
  }

  /** The `queryFn` default: a missing record, or one without `blockedPeriods`, reads as having
      no blocked periods. A missing record has no date either; the model gives it the empty one. */
  function Normalize(r: Option<AvailabilityRecord>): (n: AvailabilityRecord)
    ensures n.blockedPeriods.Some?
    ensures r.Some? ==> n.date == r.value.date
    ensures r.Some? && r.value.blockedPeriods.Some? ==> n == r.value
    ensures r.None? || r.value.blockedPeriods.None? ==> n.blockedPeriods == Some([])
  {
    match r
    case None => AvailabilityRecord("", Some([]))
    case Some(rec) => AvailabilityRecord(rec.date, Some(rec.blockedPeriods.GetOr([])))
  }

  /** The blocked periods a fetched record contributes to the flat list. */
  function BlocksOf(r: Option<AvailabilityRecord>): (bs: seq<Block>)
    ensures r.None? || r.value.blockedPeriods.None? ==> bs == []
    ensures r.Some? && r.value.blockedPeriods.Some? ==>
      |bs| == |r.value.blockedPeriods.value|
      && forall i :: 0 <= i < |bs| ==> bs[i] == Block(r.value.date, r.value.blockedPeriods.value[i])
  {
    match r
    case None => []
    case Some(rec) =>
      match rec.blockedPeriods
      case None => []
      case Some(periods) => seq(|periods|, i requires 0 <= i < |periods| => Block(rec.date, periods[i]))
  }

  /** The `flatMap` that turns the fetched records into the editor's list. */
  function Flatten(rs: seq<Option<AvailabilityRecord>>): seq<Block> {
    if rs == [] then [] else Flatten(rs[..|rs| - 1]) + BlocksOf(rs[|rs| - 1])
  }

  /** One pair per blocked period: the length of the flat list is the total number of periods. */
  lemma {:induction false} FlattenLength(rs: seq<Option<AvailabilityRecord>>)
    ensures |Flatten(rs)| == TotalPeriods(rs)
  {
    if rs != [] {
      FlattenLength(rs[..|rs| - 1]);
    }
  }

  function TotalPeriods(rs: seq<Option<AvailabilityRecord>>): nat {
    if rs == [] then 0
    else
      var r := rs[|rs| - 1];
      TotalPeriods(rs[..|rs| - 1]) + if r.Some? && r.value.blockedPeriods.Some? then |r.value.blockedPeriods.value| else 0
  }

  function NormalizeAll(rs: seq<Option<AvailabilityRecord>>): (ns: seq<Option<AvailabilityRecord>>)
    ensures |ns| == |rs|
    ensures forall i :: 0 <= i < |rs| ==> ns[i] == Some(Normalize(rs[i]))
  {
    seq(|rs|, i requires 0 <= i < |rs| => Some(Normalize(rs[i])))
  }

  /** Normalising the fetched records does not change the flat list. */
  lemma {:induction false} NormalizeKeepsFlatten(rs: seq<Option<AvailabilityRecord>>)
    ensures Flatten(NormalizeAll(rs)) == Flatten(rs)
  {
    if rs != [] {
      var n := |rs| - 1;
      NormalizeKeepsFlatten(rs[..n]);
      assert NormalizeAll(rs)[..n] == NormalizeAll(rs[..n]);
    }
  }

  /** The records the server holds once the updates for `dates` have been stored. */
  function Stored(dates: seq<string>, ps: seq<(string, int)>): (rs: seq<Option<AvailabilityRecord>>)
    ensures |rs| == |dates|
    ensures forall i :: 0 <= i < |dates| ==> rs[i] == Some(AvailabilityRecord(dates[i], Some(ValuesOf(ps, dates[i]))))
  {
    seq(|dates|, i requires 0 <= i < |dates| => Some(AvailabilityRecord(dates[i], Some(ValuesOf(ps, dates[i])))))
  }

  lemma PairsAppend(a: seq<Block>, b: seq<Block>)
    ensures Pairs(a + b) == Pairs(a) + Pairs(b)
  {
  }

  lemma {:induction false} StoredFlatten(dates: seq<string>, ps: seq<(string, int)>)
    ensures Pairs(Flatten(Stored(dates, ps))) == Ungroup(dates, ps)
  {
    if dates != [] {
      var n := |dates| - 1;
      assert Stored(dates, ps)[..n] == Stored(dates[..n], ps);
      StoredFlatten(dates[..n], ps);
      var last := Stored(dates, ps)[n];
      PairsAppend(Flatten(Stored(dates[..n], ps)), BlocksOf(last));
      assert Pairs(BlocksOf(last)) == Tag(dates[n], ValuesOf(ps, dates[n]));
    }
  }

  /** The records stored by a list of updates. */
  function StoredUpdates(us: seq<AvailabilityUpdate>): (rs: seq<Option<AvailabilityRecord>>)
    ensures |rs| == |us|
    ensures forall i :: 0 <= i < |us| ==> rs[i] == Some(AvailabilityRecord(us[i].date, Some(us[i].blockedPeriods)))
  {
    seq(|us|, i requires 0 <= i < |us| => Some(AvailabilityRecord(us[i].date, Some(us[i].blockedPeriods))))
  }

  /** The dates and their periods form the dictionary of the edited list. */
  lemma DatesGroup(blocked: seq<Block>)
    ensures IsGroups(Pairs(blocked), DatesOf(blocked), map d | d in DatesOf(blocked) :: ValuesOf(Pairs(blocked), d))
  {
  }

  /** Storing the updates for an edited list and flattening the stored records gives back the
      edited list's pairs, up to order. */
  lemma RoundTrip(blocked: seq<Block>)
    ensures multiset(Pairs(Flatten(StoredUpdates(Updates(blocked))))) == multiset(Pairs(blocked))
  {
    var ps := Pairs(blocked);
    var dates := DatesOf(blocked);
    assert StoredUpdates(Updates(blocked)) == Stored(dates, ps);
    StoredFlatten(dates, ps);
    DatesGroup(blocked);
    GroupsUngroup(ps, dates, map d | d in dates :: ValuesOf(ps, d));
  }
}
