/**
 * Sequence utilities that stand in for the dictionary, list and array library calls of the
 * modelled code: distinct keys in first-appearance order (Python dict / JavaScript Map insertion
 * order), per-key counts, filtering, and a comparison sort (Python `list.sort`, JavaScript
 * `Array.prototype.sort` with a comparator).
 */
module Seqs {

  // ---------------------------------------------------------------- distinct keys, counts

  predicate NoDup<T(==)>(s: seq<T>) {
    forall i, j :: 0 <= i < j < |s| ==> s[i] != s[j]
  }

  /** Splitting a duplicate-free sequence into its front and its last element: the front is
      duplicate-free, and `x` occurs in the whole exactly when it is the last element or occurs,
      then alone, in the front. */
  lemma NoDupInit<T>(s: seq<T>, x: T)
    requires NoDup(s) && s != []
    ensures NoDup(s[..|s| - 1])
    ensures x in s <==> x in s[..|s| - 1] || x == s[|s| - 1]
    ensures x == s[|s| - 1] ==> x !in s[..|s| - 1]
  {
    assert s == s[..|s| - 1] + [s[|s| - 1]];
  }

  /** The distinct elements of `s` in order of first appearance: the key order of a dictionary
      filled by walking `s` from left to right. */
  function Distinct<T(==)>(s: seq<T>): (d: seq<T>)
    ensures forall x :: x in d ==> x in s
    ensures forall x :: x in s ==> x in d
    ensures NoDup(d)
    ensures |d| <= |s|
  {
    if s == [] then []
    else
      var d' := Distinct(s[..|s| - 1]);
      if s[|s| - 1] in d' then d' else d' + [s[|s| - 1]]
  }

  /** The key order after one more element has been inserted. */
  lemma DistinctSnoc<T>(s: seq<T>, x: T)
    ensures Distinct(s + [x]) == if x in Distinct(s) then Distinct(s) else Distinct(s) + [x]
  {
    assert (s + [x])[..|s + [x]| - 1] == s;
  }

  /** The sum of the counts `m[k]` over the keys `ks`. */
  function SumCounts<T>(ks: seq<T>, m: multiset<T>): nat {
    if ks == [] then 0 else m[ks[0]] + SumCounts(ks[1..], m)
  }

  lemma SumCountsAdd<T>(ks: seq<T>, m: multiset<T>, x: T)
    requires NoDup(ks)
    ensures SumCounts(ks, m + multiset{x}) == SumCounts(ks, m) + (if x in ks then 1 else 0)
  {
    if ks != [] {
      SumCountsAdd(ks[1..], m, x);
      assert x in ks[1..] ==> x != ks[0];
      assert x in ks <==> x == ks[0] || x in ks[1..];
    }
  }

  lemma SumCountsSnoc<T>(ks: seq<T>, m: multiset<T>, x: T)
    ensures SumCounts(ks + [x], m) == SumCounts(ks, m) + m[x]
  {
    if ks != [] {
      assert (ks + [x])[1..] == ks[1..] + [x];
      SumCountsSnoc(ks[1..], m, x);
    }
  }

  /** The per-key counts of a grouping add up to the number of grouped elements. */
  lemma {:induction false} DistinctCountsSum<T>(s: seq<T>)
    ensures SumCounts(Distinct(s), multiset(s)) == |s|
  {
    if s != [] {
      var s', x := s[..|s| - 1], s[|s| - 1];
      assert s == s' + [x];
      DistinctCountsSum(s');
      var d' := Distinct(s');
      SumCountsAdd(d', multiset(s'), x);
      if x !in d' {
        SumCountsSnoc(d', multiset(s), x);
        assert multiset(s')[x] == 0;
      }
    }
  }

  /** The keys of the dictionary `m` are the elements of `keys`. */
  ghost predicate SameKeys<K, V>(keys: seq<K>, m: map<K, V>) {
    && (forall k :: k in m ==> k in keys)
    && (forall k :: k in keys ==> k in m)
  }

  /** `keys`/`counts` is the dictionary `{k: number of occurrences of k in ks}` built by walking
      `ks` from left to right: keys in order of first appearance. */
  ghost predicate IsTally<K>(ks: seq<K>, keys: seq<K>, counts: map<K, nat>) {
    && keys == Distinct(ks)
    && SameKeys(keys, counts)
    && (forall k :: k in counts ==> counts[k] == multiset(ks)[k])
  }

  /** One step of `if k not in counts: counts[k] = 0` followed by `counts[k] += 1`, from
      `keys0`/`counts0` to `keys`/`counts`. */
  lemma TallyStep<K>(ks: seq<K>, keys0: seq<K>, counts0: map<K, nat>, k: K, keys: seq<K>, counts: map<K, nat>)
    requires IsTally(ks, keys0, counts0)
    requires keys == if k in counts0 then keys0 else keys0 + [k]
    requires counts == var c := if k in counts0 then counts0 else counts0[k := 0]; c[k := c[k] + 1]
    ensures IsTally(ks + [k], keys, counts)
  {
    if k in counts0 {
      TallyStepKnown(ks, keys0, counts0, k);
    } else {
      assert counts == counts0[k := 1];
      TallyStepNew(ks, keys0, counts0, k);
    }
  }

  lemma TallyStepKnown<K>(ks: seq<K>, keys: seq<K>, counts: map<K, nat>, k: K)
    requires IsTally(ks, keys, counts) && k in counts
    ensures IsTally(ks + [k], keys, counts[k := counts[k] + 1])
  {
    DistinctSnoc(ks, k);
    assert k in keys;
    var ms := multiset(ks + [k]);
    assert ms == multiset(ks) + multiset{k};
    var c := counts[k := counts[k] + 1];
    assert SameKeys(keys, c);
    forall k' | k' in c ensures c[k'] == ms[k'] {
      if k' != k {
        assert k' in counts;
      }
    }
  }

  lemma TallyStepNew<K>(ks: seq<K>, keys: seq<K>, counts: map<K, nat>, k: K)
    requires IsTally(ks, keys, counts) && k !in counts
    ensures IsTally(ks + [k], keys + [k], counts[k := 1])
  {
    DistinctSnoc(ks, k);
    assert k !in keys && k !in ks;
    var ms := multiset(ks + [k]);
    assert ms == multiset(ks) + multiset{k};
    assert keys + [k] == Distinct(ks + [k]);
    var c := counts[k := 1];
    assert SameKeys(keys + [k], c);
    forall k' | k' in c ensures c[k'] == ms[k'] {
      if k' != k {
        assert k' in counts;
      }
    }
  }

  /** The key at position `j` of a tally is counted with its number of occurrences. */
  lemma TallyAt<K>(ks: seq<K>, keys: seq<K>, counts: map<K, nat>, j: nat)
    requires IsTally(ks, keys, counts) && j < |keys|
    ensures keys[j] in counts && counts[keys[j]] == multiset(ks)[keys[j]]
  {
  }

  /** `TallyStep` at position `i` of a walk over `ks`. */
  lemma TallyStepAt<K>(ks: seq<K>, i: nat, keys0: seq<K>, counts0: map<K, nat>, keys: seq<K>, counts: map<K, nat>)
    requires i < |ks| && IsTally(ks[..i], keys0, counts0)
    requires keys == if ks[i] in counts0 then keys0 else keys0 + [ks[i]]
    requires counts == var c := if ks[i] in counts0 then counts0 else counts0[ks[i] := 0]; c[ks[i] := c[ks[i]] + 1]
    ensures IsTally(ks[..i + 1], keys, counts)
  {
    assert ks[..i + 1] == ks[..i] + [ks[i]];
    TallyStep(ks[..i], keys0, counts0, ks[i], keys, counts);
  }

  /** The counting loop `for k in ks: if k not in counts: counts[k] = 0; counts[k] += 1`. */
  method Tally<K>(ks: seq<K>) returns (keys: seq<K>, counts: map<K, nat>)
    ensures IsTally(ks, keys, counts)
  {
    keys, counts := [], map[];
    TallyEmpty<K>();
    for i := 0 to |ks|
      invariant IsTally(ks[..i], keys, counts)
    {
      var k := ks[i];
      ghost var keys0, counts0 := keys, counts;
      if k !in counts {
        counts := counts[k := 0];
        keys := keys + [k];
      }
      counts := counts[k := counts[k] + 1];
      TallyStepAt(ks, i, keys0, counts0, keys, counts);
    }
    WholePrefix(ks);
  }

  lemma WholePrefix<T>(s: seq<T>)
    ensures s[..|s|] == s
  {
  }

  lemma TallyEmpty<K>()
    ensures IsTally<K>([], [], map[])
  {
  }

  /** The sum of the values of `m` at the keys `keys`. */
  function MapSum<K>(keys: seq<K>, m: map<K, nat>): nat
    requires forall k :: k in keys ==> k in m
  {
    if keys == [] then 0 else m[keys[0]] + MapSum(keys[1..], m)
  }

  lemma {:induction false} MapSumCounts<K>(keys: seq<K>, m: map<K, nat>, ms: multiset<K>)
    requires forall k :: k in keys ==> k in m && m[k] == ms[k]
    ensures MapSum(keys, m) == SumCounts(keys, ms)
  {
    if keys != [] {
      MapSumCounts(keys[1..], m, ms);
    }
  }

  /** The counts of a tally add up to the number of tallied elements. */
  lemma TallySum<K>(ks: seq<K>, keys: seq<K>, counts: map<K, nat>)
    requires IsTally(ks, keys, counts)
    ensures MapSum(keys, counts) == |ks|
  {
    MapSumCounts(keys, counts, multiset(ks));
    DistinctCountsSum(ks);
  }

  // ---------------------------------------------------------------- counting and filtering

  /** The number of elements of `s` that satisfy `p`. */
  function Count<T>(s: seq<T>, p: T -> bool): nat {
    if s == [] then 0 else Count(s[..|s| - 1], p) + (if p(s[|s| - 1]) then 1 else 0)
  }

  lemma {:induction false} CountAppend<T>(a: seq<T>, b: seq<T>, p: T -> bool)
    ensures Count(a + b, p) == Count(a, p) + Count(b, p)
  {
    if b == [] {
      assert a + b == a;
    } else {
      assert (a + b)[..|a + b| - 1] == a + b[..|b| - 1];
      CountAppend(a, b[..|b| - 1], p);
    }
  }

  /** Counting over a sequence extended by at most one element. */
  lemma CountAppendSmall<T>(a: seq<T>, b: seq<T>, p: T -> bool)
    requires |b| <= 1
    ensures Count(a + b, p) == Count(a, p) + (if b != [] && p(b[0]) then 1 else 0)
  {
    if b == [] {
      assert a + b == a;
    } else {
      assert (a + b)[..|a + b| - 1] == a;
    }
  }

  lemma {:induction false} CountNone<T>(s: seq<T>, p: T -> bool)
    requires forall i :: 0 <= i < |s| ==> !p(s[i])
    ensures Count(s, p) == 0
  {
    if s != [] {
      CountNone(s[..|s| - 1], p);
    }
  }

  lemma {:induction false} CountAll<T>(s: seq<T>, p: T -> bool)
    requires forall i :: 0 <= i < |s| ==> p(s[i])
    ensures Count(s, p) == |s|
  {
    if s != [] {
      CountAll(s[..|s| - 1], p);
    }
  }

  /** `Array.prototype.filter` / a list comprehension with a condition. */
  function Filter<T>(s: seq<T>, p: T -> bool): (r: seq<T>)
    ensures |r| <= |s|
    ensures forall x :: x in r ==> x in s && p(x)
    ensures forall x :: x in s && p(x) ==> x in r
  {
    if s == [] then [] else (if p(s[0]) then [s[0]] else []) + Filter(s[1..], p)
  }

  lemma {:induction false} FilterAppend<T>(a: seq<T>, b: seq<T>, p: T -> bool)
    ensures Filter(a + b, p) == Filter(a, p) + Filter(b, p)
  {
    if a != [] {
      assert (a + b)[1..] == a[1..] + b;
      FilterAppend(a[1..], b, p);
    } else {
      assert a + b == b;
    }
  }

  lemma {:induction false} FilterNone<T>(s: seq<T>, p: T -> bool)
    requires forall i :: 0 <= i < |s| ==> !p(s[i])
    ensures Filter(s, p) == []
  {
    if s != [] {
      FilterNone(s[1..], p);
    }
  }

  lemma {:induction false} FilterAll<T>(s: seq<T>, p: T -> bool)
    requires forall i :: 0 <= i < |s| ==> p(s[i])
    ensures Filter(s, p) == s
  {
    if s != [] {
      FilterAll(s[1..], p);
      assert [s[0]] + s[1..] == s;
    }
  }

  /** Filters with conditions that agree on the elements of `s` keep the same elements. */
  lemma {:induction false} FilterCongruent<T>(s: seq<T>, p: T -> bool, q: T -> bool)
    requires forall i :: 0 <= i < |s| ==> p(s[i]) == q(s[i])
    ensures Filter(s, p) == Filter(s, q)
  {
    if s != [] {
      FilterCongruent(s[1..], p, q);
    }
  }

  /** `a` is `b` with some elements left out, the rest kept in order. */
  predicate IsSubsequence<T(==)>(a: seq<T>, b: seq<T>)
    decreases |b|
  {
    if a == [] then true
    else if b == [] then false
    else if a[0] == b[0] then IsSubsequence(a[1..], b[1..])
    else IsSubsequence(a, b[1..])
  }

  lemma {:induction false} FilterIsSubsequence<T>(s: seq<T>, p: T -> bool)
    ensures IsSubsequence(Filter(s, p), s)
  {
    if s != [] {
      FilterIsSubsequence(s[1..], p);
      assert [s[0]] + s[1..] == s;
      if !p(s[0]) {
        assert Filter(s, p) == Filter(s[1..], p);
        SkipKeepsSubsequence(Filter(s[1..], p), s[0], s[1..]);
      }
    }
  }

  lemma {:induction false} SkipKeepsSubsequence<T>(a: seq<T>, x: T, b: seq<T>)
    requires IsSubsequence(a, b)
    ensures IsSubsequence(a, [x] + b)
    decreases |b|, 1
  {
    assert ([x] + b)[1..] == b;
    if a != [] && a[0] == x {
      DropHeadKeepsSubsequence(a, b);
    }
  }

  lemma {:induction false} DropHeadKeepsSubsequence<T>(a: seq<T>, b: seq<T>)
    requires a != [] && IsSubsequence(a, b)
    ensures IsSubsequence(a[1..], b)
    decreases |b|, 0
  {
    assert b != [];
    if a[0] == b[0] {
      SkipKeepsSubsequence(a[1..], b[0], b[1..]);
    } else {
      DropHeadKeepsSubsequence(a, b[1..]);
      SkipKeepsSubsequence(a[1..], b[0], b[1..]);
    }
    assert [b[0]] + b[1..] == b;
  }

  // ---------------------------------------------------------------- sorting

  /** `le` is a total preorder: what a comparator must be for a sort to be well defined. */
  ghost predicate IsTotalPreorder<T(!new)>(le: (T, T) -> bool) {
    && (forall a, b :: le(a, b) || le(b, a))
    && (forall a, b, c :: le(a, b) && le(b, c) ==> le(a, c))
  }

  predicate SortedBy<T>(s: seq<T>, le: (T, T) -> bool) {
    forall i, j :: 0 <= i < j < |s| ==> le(s[i], s[j])
  }

  function InsertBy<T>(x: T, s: seq<T>, le: (T, T) -> bool): (r: seq<T>)
    ensures multiset(r) == multiset(s) + multiset{x}
    ensures |r| == |s| + 1
  {
    if s == [] then [x]
    else if le(x, s[0]) then [x] + s
    else
      assert s == [s[0]] + s[1..];
      [s[0]] + InsertBy(x, s[1..], le)
  }

  /** A comparison sort: the sorted permutation of `s`. */
  function SortBy<T>(s: seq<T>, le: (T, T) -> bool): (r: seq<T>)
    ensures multiset(r) == multiset(s)
    ensures |r| == |s|
  {
    if s == [] then []
    else
      assert s == s[..|s| - 1] + [s[|s| - 1]];
      InsertBy(s[|s| - 1], SortBy(s[..|s| - 1], le), le)
  }

  lemma {:induction false} InsertBySorted<T(!new)>(x: T, s: seq<T>, le: (T, T) -> bool)
    requires IsTotalPreorder(le) && SortedBy(s, le)
    ensures SortedBy(InsertBy(x, s, le), le)
  {
    if s != [] && !le(x, s[0]) {
      InsertBySorted(x, s[1..], le);
      var r := InsertBy(x, s[1..], le);
      forall y | y in r ensures le(s[0], y) {
        assert y in multiset(r);
        if y != x {
          assert y in s[1..];
        }
      }
    }
  }

  lemma {:induction false} SortBySorted<T(!new)>(s: seq<T>, le: (T, T) -> bool)
    requires IsTotalPreorder(le)
    ensures SortedBy(SortBy(s, le), le)
  {
    if s != [] {
      SortBySorted(s[..|s| - 1], le);
      InsertBySorted(s[|s| - 1], SortBy(s[..|s| - 1], le), le);
    }
  }

  // ---------------------------------------------------------------- integers

  function IntLe(a: int, b: int): bool { a <= b }

  /** Ascending numeric sort: Python `list.sort()` on integers, JavaScript `sort((a, b) => a - b)`. */
  function SortInts(s: seq<int>): seq<int> {
    SortBy(s, IntLe)
  }

  /** `SortInts(s)` is the ascending permutation of `s`. */
  lemma SortIntsFacts(s: seq<int>)
    ensures multiset(SortInts(s)) == multiset(s) && |SortInts(s)| == |s|
    ensures forall i, j :: 0 <= i < j < |SortInts(s)| ==> SortInts(s)[i] <= SortInts(s)[j]
  {
    SortBySorted(s, IntLe);
  }
}
