/**
 * The helper functions of the solver's pytest suite: they count the classes of a solution per
 * `(week, day)`, re-implement the validator's consecutive-period and break checks as yes/no
 * answers, and read the period cells of a conflicts CSV file.
 */
module PytestHelpers {
  import opened Wrappers
  import opened Seqs
  import opened JsText
  import opened Days
  import opened Grouping
  import opened SolutionValidator
  import opened ValidatorFacts

  /** The dictionary key `f"{week}_{day}"` of an assignment, the week defaulting to 1. */
  function KeyOf(a: Assignment): string {
    DayKeyText(DayKeyOf(a))
  }

  function KeyTexts(sol: seq<Assignment>): (ks: seq<string>)
    ensures |ks| == |sol|
    ensures forall i :: 0 <= i < |sol| ==> ks[i] == KeyOf(sol[i])
  {
    seq(|sol|, i requires 0 <= i < |sol| => KeyOf(sol[i]))
  }

  // ---------------------------------------------------------------- count_classes_per_day

  /** `count_classes_per_day`: the number of assignments per day key, keys in order of first
      appearance. */
  method CountClassesPerDay(sol: seq<Assignment>) returns (keys: seq<string>, counts: map<string, nat>)
    ensures IsTally(KeyTexts(sol), keys, counts)
  {
    keys, counts := Tally(KeyTexts(sol));
  }

  /** The counts add up to the number of assignments. */
  lemma CountsSumToLength(sol: seq<Assignment>, keys: seq<string>, counts: map<string, nat>)
    requires IsTally(KeyTexts(sol), keys, counts)
    ensures MapSum(keys, counts) == |sol|
  {
    TallySum(KeyTexts(sol), keys, counts);
  }

  /** A key is counted exactly when some assignment has it, and then with a positive count. */
  lemma CountedKeysOccur(sol: seq<Assignment>, keys: seq<string>, counts: map<string, nat>, key: string)
    requires IsTally(KeyTexts(sol), keys, counts)
    ensures key in counts <==> exists i :: 0 <= i < |sol| && KeyOf(sol[i]) == key
    ensures key in counts ==> counts[key] > 0
  {
    var ks := KeyTexts(sol);
    if key in counts {
      assert key in ks;
      var i :| 0 <= i < |ks| && ks[i] == key;
    }
    if i :| 0 <= i < |sol| && KeyOf(sol[i]) == key {
      assert ks[i] == key;
      assert key in ks;
    }
  }

  // ---------------------------------------------------------------- grouping periods by day key

  /** The `(day_key, period)` pairs that fill `day_assignments`. */
  function DayPairs(sol: seq<Assignment>): (ps: seq<(string, int)>)
    ensures |ps| == |sol|
    ensures forall i :: 0 <= i < |sol| ==> ps[i] == (KeyOf(sol[i]), sol[i].period)
  {
    seq(|sol|, i requires 0 <= i < |sol| => (KeyOf(sol[i]), sol[i].period))
  }

  /** The `day_assignments` loop shared by both checks. */
  method GroupByDay(sol: seq<Assignment>) returns (keys: seq<string>, groups: map<string, seq<int>>)
    ensures IsGroups(DayPairs(sol), keys, groups)
  {
    keys, groups := GroupBy(DayPairs(sol));
  }

  lemma DayPairsSnoc(sol: seq<Assignment>)
    requires sol != []
    ensures DayPairs(sol) == DayPairs(sol[..|sol| - 1]) + [(KeyOf(sol[|sol| - 1]), sol[|sol| - 1].period)]
  {
  }

  /** The periods filed under the text key of a day are the validator's periods of that day. */
  lemma {:induction false} ValuesOfDayKey(sol: seq<Assignment>, k: DayKey)
    ensures ValuesOf(DayPairs(sol), DayKeyText(k)) == PeriodsOn(sol, k)
  {
    if sol != [] {
      var n := |sol| - 1;
      var a := sol[n];
      DayPairsSnoc(sol);
      ValuesOfSnoc(DayPairs(sol[..n]), KeyOf(a), a.period, DayKeyText(k));
      ValuesOfDayKey(sol[..n], k);
      if KeyOf(a) == DayKeyText(k) {
        DayKeyTextInjective(DayKeyOf(a), k);
      }
    }
  }

  lemma {:induction false} DayKeyWitness(asg: seq<Assignment>, k: DayKey) returns (i: nat)
    requires k in DayKeys(asg)
    ensures i < |asg| && DayKeyOf(asg[i]) == k
  {
    var n := |asg| - 1;
    if DayKeyOf(asg[n]) == k {
      i := n;
    } else {
      i := DayKeyWitness(asg[..n], k);
    }
  }

  lemma {:induction false} DayKeyOccurs(asg: seq<Assignment>, i: nat)
    requires i < |asg|
    ensures DayKeyOf(asg[i]) in DayKeys(asg)
  {
    var n := |asg| - 1;
    if i < n {
      DayKeyOccurs(asg[..n], i);
    }
  }

  /** Every day of the solution has its group. */
  lemma GroupOfDay(sol: seq<Assignment>, keys: seq<string>, groups: map<string, seq<int>>, k: DayKey) returns (t: nat)
    requires IsGroups(DayPairs(sol), keys, groups) && k in DayKeys(sol)
    ensures t < |keys| && keys[t] in groups && groups[keys[t]] == PeriodsOn(sol, k)
  {
    var i := DayKeyWitness(sol, k);
    assert Keys(DayPairs(sol))[i] == DayKeyText(k);
    assert DayKeyText(k) in keys;
    t :| 0 <= t < |keys| && keys[t] == DayKeyText(k);
    ValuesOfDayKey(sol, k);
  }

  /** Every group is the group of a day of the solution. */
  lemma DayOfGroup(sol: seq<Assignment>, keys: seq<string>, groups: map<string, seq<int>>, t: nat) returns (k: DayKey)
    requires IsGroups(DayPairs(sol), keys, groups) && t < |keys|
    ensures k in DayKeys(sol) && keys[t] in groups && groups[keys[t]] == PeriodsOn(sol, k)
  {
    assert keys[t] in Keys(DayPairs(sol));
    var i :| 0 <= i < |sol| && Keys(DayPairs(sol))[i] == keys[t];
    k := DayKeyOf(sol[i]);
    DayKeyOccurs(sol, i);
    ValuesOfDayKey(sol, k);
  }

  /** When no group of the dictionary has a long run, no day of the solution has one. */
  lemma NoGroupHasLongRun(sol: seq<Assignment>, max: int, keys: seq<string>, groups: map<string, seq<int>>)
    requires IsGroups(DayPairs(sol), keys, groups)
    requires forall t :: 0 <= t < |keys| ==> keys[t] in groups && !HasLongRun(SortInts(groups[keys[t]]), max)
    ensures forall k :: k in DayKeys(sol) ==> !HasLongRun(SortInts(PeriodsOn(sol, k)), max)
  {
    forall k | k in DayKeys(sol) ensures !HasLongRun(SortInts(PeriodsOn(sol, k)), max) {
      var t := GroupOfDay(sol, keys, groups, k);
    }
  }

  /** When no group of the dictionary has two adjacent periods, no day of the solution has. */
  lemma NoGroupHasStep(sol: seq<Assignment>, keys: seq<string>, groups: map<string, seq<int>>)
    requires IsGroups(DayPairs(sol), keys, groups)
    requires forall t :: 0 <= t < |keys| ==> keys[t] in groups && NoAdjacent(SortInts(groups[keys[t]]))
    ensures forall k :: k in DayKeys(sol) ==> NoAdjacent(SortInts(PeriodsOn(sol, k)))
  {
    forall k | k in DayKeys(sol) ensures NoAdjacent(SortInts(PeriodsOn(sol, k))) {
      var t := GroupOfDay(sol, keys, groups, k);
    }
  }

  /** A group with a long run makes the validator report a consecutive-classes violation. */
  lemma ConsecutiveOracleFails(sol: seq<Assignment>, max: int, keys: seq<string>, groups: map<string, seq<int>>, j: nat)
    requires IsGroups(DayPairs(sol), keys, groups) && j < |keys| && keys[j] in groups
    requires HasLongRun(SortInts(groups[keys[j]]), max)
    ensures ConsecutiveViolations(sol, max) != []
  {
    var k := DayOfGroup(sol, keys, groups, j);
    NoConsecutiveReports(sol, max);
  }

  /** A group with two adjacent periods makes the validator report a break violation. */
  lemma BreakOracleFails(sol: seq<Assignment>, keys: seq<string>, groups: map<string, seq<int>>, j: nat)
    requires IsGroups(DayPairs(sol), keys, groups) && j < |keys| && keys[j] in groups
    requires !NoAdjacent(SortInts(groups[keys[j]]))
    ensures BreakViolations(sol) != []
  {
    var k := DayOfGroup(sol, keys, groups, j);
    NoBreakReports(sol);
  }

  // ---------------------------------------------------------------- check_consecutive_classes

  /** The inner loop of `check_consecutive_classes` over one sorted period list: count the run of
      +1 steps and answer as soon as it exceeds `max`. */
  method RunTooLong(p: seq<int>, max: int) returns (found: bool)
    ensures found <==> HasLongRun(p, max)
  {
    OverflowRunIff(p, max);
    if |p| == 0 {
      return false;
    }
    var count := 1;
    var i := 1;
    while i < |p|
      invariant 1 <= i <= |p|
      invariant count == RunLen(p, i - 1) && FirstOverflow(p, max, i) == None
    {
      ScanStep(p, max, i);
      if p[i] == p[i - 1] + 1 {
        count := count + 1;
        if count > max {
          FirstOverflowStable(p, max, i + 1, |p|);
          return true;
        }
      } else {
        count := 1;
      }
      i := i + 1;
    }
    return false;
  }

  /** The outer loop of `check_consecutive_classes`: sort each group and stop at the first one
      with a long run. */
  method NoLongRunInGroups(keys: seq<string>, groups: map<string, seq<int>>, max: int) returns (ok: bool)
    requires forall t :: 0 <= t < |keys| ==> keys[t] in groups
    ensures ok <==> forall t :: 0 <= t < |keys| ==> !HasLongRun(SortInts(groups[keys[t]]), max)
  {
    var j := 0;
    while j < |keys|
      invariant 0 <= j <= |keys|
      invariant forall t :: 0 <= t < j ==> !HasLongRun(SortInts(groups[keys[t]]), max)
    {
      var found := RunTooLong(SortInts(groups[keys[j]]), max);
      if found {
        return false;
      }
      j := j + 1;
    }
    return true;
  }

  /** Judging the groups of the dictionary is judging the days of the solution as the validator
      does. */
  lemma ConsecutiveOracle(sol: seq<Assignment>, max: int, keys: seq<string>, groups: map<string, seq<int>>)
    requires IsGroups(DayPairs(sol), keys, groups)
    requires forall t :: 0 <= t < |keys| ==> keys[t] in groups
    ensures (forall t :: 0 <= t < |keys| ==> !HasLongRun(SortInts(groups[keys[t]]), max))
      <==> ConsecutiveViolations(sol, max) == []
  {
    if forall t :: 0 <= t < |keys| ==> !HasLongRun(SortInts(groups[keys[t]]), max) {
      NoGroupHasLongRun(sol, max, keys, groups);
      NoConsecutiveReports(sol, max);
    } else {
      var t :| 0 <= t < |keys| && HasLongRun(SortInts(groups[keys[t]]), max);
      ConsecutiveOracleFails(sol, max, keys, groups, t);
    }
  }

  /** `check_consecutive_classes(solution, max_consecutive)` answers yes exactly when the
      validator reports no consecutive-classes violation for the same cap. */
  method CheckConsecutiveClasses(sol: seq<Assignment>, max: int) returns (ok: bool)
    ensures ok <==> ConsecutiveViolations(sol, max) == []
  {
    var keys, groups := GroupByDay(sol);
    GroupKeysPresent(sol, keys, groups);
    ok := NoLongRunInGroups(keys, groups, max);
    ConsecutiveOracle(sol, max, keys, groups);
  }

  lemma GroupKeysPresent(sol: seq<Assignment>, keys: seq<string>, groups: map<string, seq<int>>)
    requires IsGroups(DayPairs(sol), keys, groups)
    ensures forall t :: 0 <= t < |keys| ==> keys[t] in groups
  {
  }

  // ---------------------------------------------------------------- check_break_after_class

  /** The inner loop of `check_break_after_class` over one sorted period list. */
  method HasStep(p: seq<int>) returns (found: bool)
    ensures found <==> !NoAdjacent(p)
  {
    var i := 0;
    while i + 1 < |p|
      invariant 0 <= i
      invariant forall t :: 1 <= t <= i ==> !StepAt(p, t)
    {
      if p[i + 1] == p[i] + 1 {
        assert StepAt(p, i + 1);
        return true;
      }
      i := i + 1;
    }
    return false;
  }

  /** The outer loop of `check_break_after_class`: sort each group and stop at the first one
      with two adjacent periods. */
  method NoStepInGroups(keys: seq<string>, groups: map<string, seq<int>>) returns (ok: bool)
    requires forall t :: 0 <= t < |keys| ==> keys[t] in groups
    ensures ok <==> forall t :: 0 <= t < |keys| ==> NoAdjacent(SortInts(groups[keys[t]]))
  {
    var j := 0;
    while j < |keys|
      invariant 0 <= j <= |keys|
      invariant forall t :: 0 <= t < j ==> NoAdjacent(SortInts(groups[keys[t]]))
    {
      var found := HasStep(SortInts(groups[keys[j]]));
      if found {
        return false;
      }
      j := j + 1;
    }
    return true;
  }

  lemma BreakOracle(sol: seq<Assignment>, keys: seq<string>, groups: map<string, seq<int>>)
    requires IsGroups(DayPairs(sol), keys, groups)
    requires forall t :: 0 <= t < |keys| ==> keys[t] in groups
    ensures (forall t :: 0 <= t < |keys| ==> NoAdjacent(SortInts(groups[keys[t]])))
      <==> BreakViolations(sol) == []
  {
    if forall t :: 0 <= t < |keys| ==> NoAdjacent(SortInts(groups[keys[t]])) {
      NoGroupHasStep(sol, keys, groups);
      NoBreakReports(sol);
    } else {
      var t :| 0 <= t < |keys| && !NoAdjacent(SortInts(groups[keys[t]]));
      BreakOracleFails(sol, keys, groups, t);
    }
  }

  /** `check_break_after_class(solution)` answers yes exactly when the validator reports no
      break violation. */
  method CheckBreakAfterClass(sol: seq<Assignment>) returns (ok: bool)
    ensures ok <==> BreakViolations(sol) == []
  {
    var keys, groups := GroupByDay(sol);
    GroupKeysPresent(sol, keys, groups);
    ok := NoStepInGroups(keys, groups);
    BreakOracle(sol, keys, groups);
  }
}
