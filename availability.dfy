/**
 * The instructor-availability editor: clicking a (date, period) cell blocks or unblocks it, and
 * the list of blocked periods is kept sorted by date, then period.
 */
module Availability {
  import opened Seqs

  /** A blocked period of a teacher on a date (`YYYY-MM-DD`). */
  datatype Block = Block(date: string, period: int)

  /** `a.localeCompare(b)` on the ISO date strings, as a code-unit lexicographic comparison:
      negative, zero or positive. */
  function CompareStrings(a: string, b: string): (c: int)
    ensures -1 <= c <= 1
  {
    if a == [] && b == [] then 0
    else if a == [] then -1
    else if b == [] then 1
    else if a[0] < b[0] then -1
    else if a[0] > b[0] then 1
    else CompareStrings(a[1..], b[1..])
  }

  lemma {:induction false} CompareStringsZero(a: string, b: string)
    ensures CompareStrings(a, b) == 0 <==> a == b
  {
    if a != [] && b != [] && a[0] == b[0] {
      CompareStringsZero(a[1..], b[1..]);
      assert a == [a[0]] + a[1..] && b == [b[0]] + b[1..];
    }
  }

  lemma {:induction false} CompareStringsFlip(a: string, b: string)
    ensures CompareStrings(b, a) == -CompareStrings(a, b)
  {
    if a != [] && b != [] && a[0] == b[0] {
      CompareStringsFlip(a[1..], b[1..]);
    }
  }

  lemma {:induction false} CompareStringsTrans(a: string, b: string, c: string)
    requires CompareStrings(a, b) <= 0 && CompareStrings(b, c) <= 0
    ensures CompareStrings(a, c) <= 0
  {
    if a != [] && b != [] && c != [] && a[0] == b[0] && b[0] == c[0] {
      CompareStringsTrans(a[1..], b[1..], c[1..]);
    }
  }

  /** The sort comparator: by date, then by period. */
  function CompareBlocks(x: Block, y: Block): int {
    var d := CompareStrings(x.date, y.date);
    if d != 0 then d else x.period - y.period
  }

  function BlockLe(x: Block, y: Block): bool {
    CompareBlocks(x, y) <= 0
  }

  /** The comparator orders any two blocks consistently, and only equal blocks compare equal. */
  lemma BlockLeOrder()
    ensures IsTotalPreorder(BlockLe)
    ensures forall x, y :: BlockLe(x, y) && BlockLe(y, x) ==> x == y
  {
    forall x: Block, y: Block ensures BlockLe(x, y) || BlockLe(y, x) {
      CompareStringsFlip(x.date, y.date);
    }
    forall x: Block, y: Block, z: Block | BlockLe(x, y) && BlockLe(y, z) ensures BlockLe(x, z) {
      CompareStringsFlip(x.date, y.date);
      CompareStringsFlip(y.date, z.date);
      CompareStringsZero(x.date, y.date);
      CompareStringsZero(y.date, z.date);
      CompareStringsTrans(x.date, y.date, z.date);
      CompareStringsZero(x.date, z.date);
    }
    forall x: Block, y: Block | BlockLe(x, y) && BlockLe(y, x) ensures x == y {
      CompareStringsFlip(x.date, y.date);
      CompareStringsZero(x.date, y.date);
    }
  }

  /** `handleAvailabilityChange`'s updater: a blocked (date, period) is unblocked (every copy is
      filtered out), an unblocked one is appended; the list is then sorted. */
  function ToggleBlock(prev: seq<Block>, date: string, period: int): (r: seq<Block>)
    ensures |r| <= |prev| + 1
  {
    var b := Block(date, period);
    var next := if b in prev then Filter(prev, x => x != b) else prev + [b];
    SortBy(next, BlockLe)
  }

  /** The state update and the callback invocations: one, with the new list. */
  function HandleAvailabilityChange(prev: seq<Block>, date: string, period: int): (out: (seq<Block>, seq<seq<Block>>))
    ensures out.1 == [out.0] && out.0 == ToggleBlock(prev, date, period)
  {
    var next := ToggleBlock(prev, date, period);
    (next, [next])
  }

  lemma {:induction false} FilterOutCounts(s: seq<Block>, b: Block, y: Block)
    ensures multiset(Filter(s, x => x != b))[y] == if y == b then 0 else multiset(s)[y]
  {
    if s != [] {
      FilterOutCounts(s[1..], b, y);
      assert s == [s[0]] + s[1..];
    }
  }

  /** The new list is sorted by date, then period. */
  lemma ToggleBlockSorted(prev: seq<Block>, date: string, period: int)
    ensures SortedBy(ToggleBlock(prev, date, period), BlockLe)
  {
    BlockLeOrder();
    var b := Block(date, period);
    SortBySorted(if b in prev then Filter(prev, x => x != b) else prev + [b], BlockLe);
  }

  /** The toggled block is removed entirely if it was there and present once otherwise; every other
      block keeps its number of occurrences. */
  lemma ToggleBlockCounts(prev: seq<Block>, date: string, period: int, y: Block)
    ensures var b := Block(date, period);
      multiset(ToggleBlock(prev, date, period))[y]
        == if y == b then (if b in prev then 0 else 1) else multiset(prev)[y]
  {
    var b := Block(date, period);
    if b in prev {
      FilterOutCounts(prev, b, y);
    } else {
      assert multiset(prev)[b] == 0;
    }
  }

  /** A toggle flips the membership of its own cell and of no other. */
  lemma ToggleBlockFlips(prev: seq<Block>, date: string, period: int, y: Block)
    ensures y in ToggleBlock(prev, date, period)
      <==> if y == Block(date, period) then y !in prev else y in prev
  {
    ToggleBlockCounts(prev, date, period, y);
    assert y in ToggleBlock(prev, date, period) <==> y in multiset(ToggleBlock(prev, date, period));
  }
}
