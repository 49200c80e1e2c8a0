/**
 * Grouping key/value pairs into a dictionary of lists, the JavaScript
 * `reduce((acc, x) => { (acc[k] ??= []).push(v); return acc }, {})` and Python
 * `d.setdefault(k, []).append(v)` idiom: keys in order of first appearance, each key's values
 * in input order.
 */
module Grouping {
  import opened Seqs

  function Keys<K, V>(ps: seq<(K, V)>): (ks: seq<K>)
    ensures |ks| == |ps|
    ensures forall i :: 0 <= i < |ps| ==> ks[i] == ps[i].0
  {
    if ps == [] then [] else Keys(ps[..|ps| - 1]) + [ps[|ps| - 1].0]
  }

  /** The values paired with `k`, in input order. */
  function ValuesOf<K(==), V>(ps: seq<(K, V)>, k: K): seq<V> {
    if ps == [] then []
    else ValuesOf(ps[..|ps| - 1], k) + (if ps[|ps| - 1].0 == k then [ps[|ps| - 1].1] else [])
  }

  lemma ValuesOfSnoc<K, V>(ps: seq<(K, V)>, k: K, v: V, k': K)
    ensures ValuesOf(ps + [(k, v)], k') == ValuesOf(ps, k') + if k == k' then [v] else []
  {
    assert (ps + [(k, v)])[..|ps|] == ps;
  }

  lemma {:induction false} ValuesOfAbsent<K, V>(ps: seq<(K, V)>, k: K)
    requires k !in Keys(ps)
    ensures ValuesOf(ps, k) == []
  {
    if ps != [] {
      assert Keys(ps[..|ps| - 1]) == Keys(ps)[..|ps| - 1];
      ValuesOfAbsent(ps[..|ps| - 1], k);
    }
  }

  /** `keys`/`groups` is the dictionary built from `ps`. */
  ghost predicate IsGroups<K, V>(ps: seq<(K, V)>, keys: seq<K>, groups: map<K, seq<V>>) {
    && keys == Distinct(Keys(ps))
    && SameKeys(keys, groups)
    && (forall k :: k in groups ==> groups[k] == ValuesOf(ps, k))
  }

  lemma GroupsEmpty<K, V>()
    ensures IsGroups<K, V>([], [], map[])
  {
  }

  lemma KeysSnoc<K, V>(ps: seq<(K, V)>, k: K, v: V)
    ensures Keys(ps + [(k, v)]) == Keys(ps) + [k]
  {
    assert (ps + [(k, v)])[..|ps|] == ps;
  }

  lemma GroupsStepKnown<K, V>(ps: seq<(K, V)>, keys: seq<K>, groups: map<K, seq<V>>, k: K, v: V)
    requires IsGroups(ps, keys, groups) && k in groups
    ensures IsGroups(ps + [(k, v)], keys, groups[k := groups[k] + [v]])
  {
    KeysSnoc(ps, k, v);
    DistinctSnoc(Keys(ps), k);
    assert k in keys;
    var g := groups[k := groups[k] + [v]];
    assert SameKeys(keys, g);
    forall k' | k' in g ensures g[k'] == ValuesOf(ps + [(k, v)], k') {
      ValuesOfSnoc(ps, k, v, k');
      if k' != k {
        assert k' in groups;
      }
    }
  }

  lemma GroupsStepNew<K, V>(ps: seq<(K, V)>, keys: seq<K>, groups: map<K, seq<V>>, k: K, v: V)
    requires IsGroups(ps, keys, groups) && k !in groups
    ensures IsGroups(ps + [(k, v)], keys + [k], groups[k := [v]])
  {
    KeysSnoc(ps, k, v);
    DistinctSnoc(Keys(ps), k);
    assert k !in keys && k !in Keys(ps);
    ValuesOfAbsent(ps, k);
    var g := groups[k := [v]];
    assert SameKeys(keys + [k], g);
    forall k' | k' in g ensures g[k'] == ValuesOf(ps + [(k, v)], k') {
      ValuesOfSnoc(ps, k, v, k');
      if k' != k {
        assert k' in groups;
      }
    }
  }

  /** One step of `if k not in groups: groups[k] = []` followed by `groups[k].append(v)`, from
      `keys0`/`groups0` to `keys`/`groups`. */
  lemma GroupsStep<K, V>(ps: seq<(K, V)>, keys0: seq<K>, groups0: map<K, seq<V>>, k: K, v: V,
                         keys: seq<K>, groups: map<K, seq<V>>)
    requires IsGroups(ps, keys0, groups0)
    requires keys == if k in groups0 then keys0 else keys0 + [k]
    requires groups == var g := if k in groups0 then groups0 else groups0[k := []]; g[k := g[k] + [v]]
    ensures IsGroups(ps + [(k, v)], keys, groups)
  {
    if k in groups0 {
      assert groups == groups0[k := groups0[k] + [v]];
      GroupsStepKnown(ps, keys0, groups0, k, v);
    } else {
      var g := groups0[k := []];
      assert g[k] + [v] == [v];
      assert g[k := [v]] == groups0[k := [v]];
      GroupsStepNew(ps, keys0, groups0, k, v);
    }
  }

  /** `GroupsStep` at position `i` of a walk over `ps`. */
  lemma GroupsStepAt<K, V>(ps: seq<(K, V)>, i: nat, keys0: seq<K>, groups0: map<K, seq<V>>,
                           keys: seq<K>, groups: map<K, seq<V>>)
    requires i < |ps| && IsGroups(ps[..i], keys0, groups0)
    requires keys == if ps[i].0 in groups0 then keys0 else keys0 + [ps[i].0]
    requires groups == var k := ps[i].0;
      var g := if k in groups0 then groups0 else groups0[k := []]; g[k := g[k] + [ps[i].1]]
    ensures IsGroups(ps[..i + 1], keys, groups)
  {
    assert ps[..i + 1] == ps[..i] + [(ps[i].0, ps[i].1)];
    GroupsStep(ps[..i], keys0, groups0, ps[i].0, ps[i].1, keys, groups);
  }

  /** The grouping loop `for (k, v) in ps: if k not in groups: groups[k] = []; groups[k].append(v)`. */
  method GroupBy<K, V>(ps: seq<(K, V)>) returns (keys: seq<K>, groups: map<K, seq<V>>)
    ensures IsGroups(ps, keys, groups)
  {
    keys, groups := [], map[];
    GroupsEmpty<K, V>();
    for i := 0 to |ps|
      invariant IsGroups(ps[..i], keys, groups)
    {
      var (k, v) := ps[i];
      ghost var keys0, groups0 := keys, groups;
      if k !in groups {
        groups := groups[k := []];
        keys := keys + [k];
      }
      groups := groups[k := groups[k] + [v]];
      GroupsStepAt(ps, i, keys0, groups0, keys, groups);
    }
    assert ps[..|ps|] == ps;
  }

  lemma GroupsAt<K, V>(ps: seq<(K, V)>, keys: seq<K>, groups: map<K, seq<V>>, j: nat)
    requires IsGroups(ps, keys, groups) && j < |keys|
    ensures keys[j] in groups && groups[keys[j]] == ValuesOf(ps, keys[j])
  {
    assert keys[j] in keys;
  }

  // ---------------------------------------------------------------- flattening the groups

  /** `[(k, v) for v in vs]`. */
  function Tag<K, V>(k: K, vs: seq<V>): (r: seq<(K, V)>)
    ensures |r| == |vs|
    ensures forall i :: 0 <= i < |vs| ==> r[i] == (k, vs[i])
  {
    seq(|vs|, i requires 0 <= i < |vs| => (k, vs[i]))
  }

  /** The groups of `keys` flattened back into pairs, key by key. */
  function Ungroup<K(==), V>(keys: seq<K>, ps: seq<(K, V)>): seq<(K, V)> {
    if keys == [] then []
    else Ungroup(keys[..|keys| - 1], ps) + Tag(keys[|keys| - 1], ValuesOf(ps, keys[|keys| - 1]))
  }

  /** A pair whose key is not among `keys` leaves the flattening unchanged. */
  lemma {:induction false} UngroupSnocOther<K, V>(keys: seq<K>, ps: seq<(K, V)>, k: K, v: V)
    requires k !in keys
    ensures Ungroup(keys, ps + [(k, v)]) == Ungroup(keys, ps)
  {
    if keys != [] {
      var pre, last := keys[..|keys| - 1], keys[|keys| - 1];
      assert k !in pre;
      UngroupSnocOther(pre, ps, k, v);
      ValuesOfSnoc(ps, k, v, last);
    }
  }

  /** A pair whose key is among `keys` joins the flattening once. */
  lemma {:induction false} UngroupSnocKey<K, V>(keys: seq<K>, ps: seq<(K, V)>, k: K, v: V)
    requires NoDup(keys) && k in keys
    ensures multiset(Ungroup(keys, ps + [(k, v)])) == multiset(Ungroup(keys, ps)) + multiset{(k, v)}
  {
    var pre, last := keys[..|keys| - 1], keys[|keys| - 1];
    NoDupInit(keys, k);
    if k == last {
      UngroupSnocLast(keys, ps, v);
    } else {
      UngroupSnocKey(pre, ps, k, v);
      UngroupSnocEarlier(keys, ps, k, v);
    }
  }

  /** A pair of the last key extends the last group only. */
  lemma UngroupSnocLast<K, V>(keys: seq<K>, ps: seq<(K, V)>, v: V)
    requires keys != [] && keys[|keys| - 1] !in keys[..|keys| - 1]
    ensures var k := keys[|keys| - 1]; Ungroup(keys, ps + [(k, v)]) == Ungroup(keys, ps) + [(k, v)]
  {
    var pre, k := keys[..|keys| - 1], keys[|keys| - 1];
    var ps' := ps + [(k, v)];
    UngroupSnocOther(pre, ps, k, v);
    ValuesOfSnoc(ps, k, v, k);
    var t, t' := Tag(k, ValuesOf(ps, k)), Tag(k, ValuesOf(ps', k));
    assert t' == t + [(k, v)];
    assert Ungroup(keys, ps') == Ungroup(pre, ps) + t';
  }

  /** A pair of an earlier key leaves the last group as it was. */
  lemma UngroupSnocEarlier<K, V>(keys: seq<K>, ps: seq<(K, V)>, k: K, v: V)
    requires keys != [] && k != keys[|keys| - 1]
    requires var pre := keys[..|keys| - 1];
      multiset(Ungroup(pre, ps + [(k, v)])) == multiset(Ungroup(pre, ps)) + multiset{(k, v)}
    ensures multiset(Ungroup(keys, ps + [(k, v)])) == multiset(Ungroup(keys, ps)) + multiset{(k, v)}
  {
    var pre, last := keys[..|keys| - 1], keys[|keys| - 1];
    var ps' := ps + [(k, v)];
    ValuesOfSnoc(ps, k, v, last);
    var t := Tag(last, ValuesOf(ps, last));
    assert Tag(last, ValuesOf(ps', last)) == t;
    assert Ungroup(keys, ps') == Ungroup(pre, ps') + t;
    assert Ungroup(keys, ps) == Ungroup(pre, ps) + t;
  }

  /** Flattening the groups gives back the pairs grouped, as a multiset, when every key of the
      pairs is one of `keys`. */
  lemma {:induction false} UngroupPermutes<K, V>(keys: seq<K>, ps: seq<(K, V)>)
    requires NoDup(keys)
    requires forall i :: 0 <= i < |ps| ==> ps[i].0 in keys
    ensures multiset(Ungroup(keys, ps)) == multiset(ps)
  {
    if ps == [] {
      UngroupEmpty(keys, ps);
    } else {
      var pre, last := ps[..|ps| - 1], ps[|ps| - 1];
      assert ps == pre + [(last.0, last.1)];
      UngroupPermutes(keys, pre);
      UngroupSnocKey(keys, pre, last.0, last.1);
    }
  }

  lemma {:induction false} UngroupEmpty<K, V>(keys: seq<K>, ps: seq<(K, V)>)
    requires ps == []
    ensures Ungroup(keys, ps) == []
  {
    if keys != [] {
      UngroupEmpty(keys[..|keys| - 1], ps);
    }
  }

  /** The dictionary's groups, flattened in key order, are a permutation of the pairs. */
  lemma GroupsUngroup<K, V>(ps: seq<(K, V)>, keys: seq<K>, groups: map<K, seq<V>>)
    requires IsGroups(ps, keys, groups)
    ensures multiset(Ungroup(keys, ps)) == multiset(ps)
  {
    forall i | 0 <= i < |ps| ensures ps[i].0 in keys {
      assert Keys(ps)[i] == ps[i].0;
    }
    UngroupPermutes(keys, ps);
  }
}
