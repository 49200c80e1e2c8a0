/**
 * The class card of the generated schedule: its conflict marker and the tooltip summary that
 * counts conflicts per type.
 */
module ClassCard {
  import opened Seqs
  import opened JsText
  import opened ScheduleTypes

  /** The card is marked (red border, conflict dot, tooltip) exactly when it has conflicts. */
  function HasConflicts(cs: seq<Conflict>): (b: bool)
    ensures b <==> cs != []
  {
    |cs| > 0
  }

  /** The red border is applied exactly when the card has conflicts. */
  function BorderClass(cs: seq<Conflict>): (s: string)
    ensures s == "border-2 border-red-400" <==> cs != []
    ensures cs == [] ==> s == "border"
  {
    if HasConflicts(cs) then "border-2 border-red-400" else "border"
  }

  function Kinds(cs: seq<Conflict>): (ks: seq<ConflictType>)
    ensures |ks| == |cs|
    ensures forall i :: 0 <= i < |cs| ==> ks[i] == cs[i].kind
  {
    if cs == [] then [] else Kinds(cs[..|cs| - 1]) + [cs[|cs| - 1].kind]
  }

  /** The number of conflicts of type `t`: `conflicts.filter(c => c.type === type).length`. */
  function CountOfKind(cs: seq<Conflict>, t: ConflictType): nat {
    multiset(Kinds(cs))[t]
  }

  /** One summary segment, `${count} ${type}` with an 's' when the count is above 1. */
  function Segment(count: nat, t: ConflictType): (s: string)
    ensures var head := IntToString(count) + " " + TypeName(t);
      head <= s && (|s| > |head| <==> count > 1) && (|s| > |head| ==> s[|head|..] == "s")
  {
    IntToString(count) + " " + TypeName(t) + (if count > 1 then "s" else "")
  }

  /** The (type, count) pairs of the summary: one per distinct type, in order of first
      appearance (the iteration order of a JavaScript `Set`). */
  function SummaryParts(cs: seq<Conflict>): (parts: seq<(ConflictType, nat)>)
    ensures |parts| == |Distinct(Kinds(cs))|
    ensures forall i :: 0 <= i < |parts| ==>
      parts[i].0 == Distinct(Kinds(cs))[i] && parts[i].1 == CountOfKind(cs, parts[i].0)
  {
    var ts := Distinct(Kinds(cs));
    seq(|ts|, i requires 0 <= i < |ts| => (ts[i], CountOfKind(cs, ts[i])))
  }

  /** The tooltip text: '' without conflicts, otherwise the segments joined by ", ". */
  function ConflictSummary(cs: seq<Conflict>): (s: string)
    ensures cs == [] ==> s == ""
  {
    if !HasConflicts(cs) then ""
    else
      var parts := SummaryParts(cs);
      Join(seq(|parts|, i requires 0 <= i < |parts| => Segment(parts[i].1, parts[i].0)), ", ")
  }

  /** Every conflict's type has a segment, and every segment's count is at least 1. */
  lemma SummaryPartsCover(cs: seq<Conflict>)
    ensures forall i :: 0 <= i < |cs| ==> cs[i].kind in Distinct(Kinds(cs))
    ensures forall j :: 0 <= j < |SummaryParts(cs)| ==> SummaryParts(cs)[j].1 >= 1
  {
    var ts := Distinct(Kinds(cs));
    forall i | 0 <= i < |cs| ensures cs[i].kind in ts {
      assert Kinds(cs)[i] == cs[i].kind;
    }
    forall j | 0 <= j < |SummaryParts(cs)| ensures SummaryParts(cs)[j].1 >= 1 {
      assert ts[j] in Kinds(cs);
    }
  }

  /** The segment counts add up to the number of conflicts. */
  lemma SummaryPartsSum(cs: seq<Conflict>)
    ensures PartsSum(SummaryParts(cs)) == |cs|
  {
    PartsSumCounts(SummaryParts(cs), Distinct(Kinds(cs)), multiset(Kinds(cs)));
    DistinctCountsSum(Kinds(cs));
  }

  function PartsSum(parts: seq<(ConflictType, nat)>): nat {
    if parts == [] then 0 else parts[0].1 + PartsSum(parts[1..])
  }

  lemma {:induction false} PartsSumCounts(parts: seq<(ConflictType, nat)>, ts: seq<ConflictType>, m: multiset<ConflictType>)
    requires |parts| == |ts|
    requires forall i :: 0 <= i < |parts| ==> parts[i].0 == ts[i] && parts[i].1 == m[ts[i]]
    ensures PartsSum(parts) == SumCounts(ts, m)
  {
    if parts != [] {
      PartsSumCounts(parts[1..], ts[1..], m);
    }
  }
}
