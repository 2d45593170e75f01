/**
 * Python's `defaultdict(list)` as the scripts use it: `d[k].append(v)`
 * creates the entry on first use, and iteration follows the order in which
 * keys were first inserted.
 */
module Grouping {

  /** A dictionary that remembers the order of first insertion. */
  datatype Dict<K(==, !new), V> = Dict(keys: seq<K>, entries: map<K, V>)

  predicate Distinct<K(==, !new)>(s: seq<K>)
  {
    forall i, j :: 0 <= i < j < |s| ==> s[i] != s[j]
  }

  ghost predicate Valid<K(!new), V>(d: Dict<K, V>)
  {
    Distinct(d.keys) && forall k :: k in d.entries <==> k in d.keys
  }

  function Empty<K(==, !new), V>(): (d: Dict<K, V>)
    ensures Valid(d)
  {
    Dict([], map[])
  }

  /** `d[k].append(v)` on a `defaultdict(list)`. */
  function AppendTo<K(==, !new), V>(d: Dict<K, seq<V>>, k: K, v: V): (r: Dict<K, seq<V>>)
  {
    if k in d.entries then Dict(d.keys, d.entries[k := d.entries[k] + [v]])
    else Dict(d.keys + [k], d.entries[k := [v]])
  }

  lemma AppendToValid<K(!new), V>(d: Dict<K, seq<V>>, k: K, v: V)
    requires Valid(d)
    ensures Valid(AppendTo(d, k, v))
  {
  }

  /** The values paired with `k`, in order. */
  function Select<K(==, !new), V>(ps: seq<(K, V)>, k: K): seq<V>
  {
    if ps == [] then []
    else Select(ps[..|ps| - 1], k) + (if ps[|ps| - 1].0 == k then [ps[|ps| - 1].1] else [])
  }

  /** The keys of `ps` in order of first occurrence. */
  function FirstOccurrences<K(==, !new), V>(ps: seq<(K, V)>): seq<K>
  {
    if ps == [] then []
    else
      var keys := FirstOccurrences(ps[..|ps| - 1]);
      if ps[|ps| - 1].0 in keys then keys else keys + [ps[|ps| - 1].0]
  }

  predicate HasKey<K(==, !new), V>(ps: seq<(K, V)>, k: K)
  {
    exists i :: 0 <= i < |ps| && ps[i].0 == k
  }

  lemma {:induction false} SelectAbsent<K(!new), V>(ps: seq<(K, V)>, k: K)
    requires !HasKey(ps, k)
    ensures Select(ps, k) == []
  {
    if ps != [] {
      var init := ps[..|ps| - 1];
      assert forall i :: 0 <= i < |init| ==> init[i] == ps[i];
      SelectAbsent(init, k);
    }
  }

  /** Appending every pair of `ps`, in order, to an empty `defaultdict(list)`. */
  function Group<K(==, !new), V>(ps: seq<(K, V)>): Dict<K, seq<V>>
  {
    if ps == [] then Empty()
    else AppendTo(Group(ps[..|ps| - 1]), ps[|ps| - 1].0, ps[|ps| - 1].1)
  }

  lemma HasKeySnoc<K(!new), V>(ps: seq<(K, V)>, p: (K, V), k: K)
    ensures HasKey(ps + [p], k) <==> HasKey(ps, k) || p.0 == k
  {
    if HasKey(ps, k) {
      var i :| 0 <= i < |ps| && ps[i].0 == k;
      assert (ps + [p])[i] == ps[i];
    }
    if p.0 == k {
      assert (ps + [p])[|ps|] == p;
    }
    if HasKey(ps + [p], k) && !(p.0 == k) {
      var i :| 0 <= i < |ps + [p]| && (ps + [p])[i].0 == k;
      assert i < |ps| && ps[i] == (ps + [p])[i];
    }
  }

  /**
   * Grouping keeps every pair and invents none: a key is present exactly
   * when some pair carries it, its list is the pair values with that key
   * in order (so never empty), and the keys come in order of first
   * occurrence.
   */
  lemma {:induction false} GroupSpec<K(!new), V>(ps: seq<(K, V)>)
    ensures var d := Group(ps);
      && Valid(d)
      && d.keys == FirstOccurrences(ps)
      && (forall k :: k in d.entries <==> HasKey(ps, k))
      && (forall k :: k in d.entries ==> d.entries[k] == Select(ps, k) && |d.entries[k]| > 0)
  {
    if ps != [] {
      var init, p := ps[..|ps| - 1], ps[|ps| - 1];
      assert ps == init + [p];
      GroupSpec(init);
      AppendToValid(Group(init), p.0, p.1);
      forall k
        ensures HasKey(ps, k) <==> HasKey(init, k) || p.0 == k
      {
        HasKeySnoc(init, p, k);
      }
      if !HasKey(init, p.0) {
        SelectAbsent(init, p.0);
      }
    }
  }

  /** `for k, v in ps: d[k].append(v)` on a dictionary that already holds entries. */
  function AppendAll<K(==, !new), V>(d: Dict<K, seq<V>>, ps: seq<(K, V)>): Dict<K, seq<V>>
  {
    if ps == [] then d
    else AppendTo(AppendAll(d, ps[..|ps| - 1]), ps[|ps| - 1].0, ps[|ps| - 1].1)
  }

  lemma AppendAllSnoc<K(!new), V>(d: Dict<K, seq<V>>, ps: seq<(K, V)>, p: (K, V))
    ensures AppendAll(d, ps + [p]) == AppendTo(AppendAll(d, ps), p.0, p.1)
  {
    assert (ps + [p])[..|ps|] == ps;
  }

  /** Appending more pairs to a grouping is grouping all the pairs. */
  lemma {:induction false} AppendAllGroup<K(!new), V>(a: seq<(K, V)>, b: seq<(K, V)>)
    ensures AppendAll(Group(a), b) == Group(a + b)
    decreases |b|
  {
    if b == [] {
      assert a + b == a;
    } else {
      AppendAllGroup(a, b[..|b| - 1]);
      assert (a + b)[..|a + b| - 1] == a + b[..|b| - 1];
    }
  }

  /** `d[k]` on a nested `defaultdict` entry, reading `absent` while `k` is missing. */
  function Get<K(==, !new), V>(d: Dict<K, V>, k: K, absent: V): V
  {
    if k in d.entries then d.entries[k] else absent
  }

  /** `d[k] = v`: a new key goes last, an existing one keeps its place. */
  function Store<K(==, !new), V>(d: Dict<K, V>, k: K, v: V): Dict<K, V>
  {
    if k in d.entries then Dict(d.keys, d.entries[k := v]) else Dict(d.keys + [k], d.entries[k := v])
  }

  lemma StoreValid<K(!new), V>(d: Dict<K, V>, k: K, v: V)
    requires Valid(d)
    ensures Valid(Store(d, k, v)) && k in Store(d, k, v).entries && Store(d, k, v).keys != []
  {
  }

  /** Storing twice under one key keeps the second value only. */
  lemma StoreStore<K(!new), V>(d: Dict<K, V>, k: K, v1: V, v2: V)
    ensures Store(Store(d, k, v1), k, v2) == Store(d, k, v2)
  {
    assert d.entries[k := v1][k := v2] == d.entries[k := v2];
  }

  /** The values of every pair, in order. */
  function Values<K(==, !new), V>(ps: seq<(K, V)>): seq<V>
  {
    if ps == [] then [] else Values(ps[..|ps| - 1]) + [ps[|ps| - 1].1]
  }

  /** The concatenation of the lists stored under `keys`, in that order (`list.extend` in a loop). */
  function Flatten<K(==, !new), V>(keys: seq<K>, entries: map<K, seq<V>>): seq<V>
    requires forall i :: 0 <= i < |keys| ==> keys[i] in entries
  {
    if keys == [] then [] else entries[keys[0]] + Flatten(keys[1..], entries)
  }

  /** One more key: `all.extend(d[k])`. */
  lemma {:induction false} FlattenSnoc<K(!new), V>(keys: seq<K>, entries: map<K, seq<V>>, j: nat)
    requires j < |keys|
    requires forall i :: 0 <= i < |keys| ==> keys[i] in entries
    ensures Flatten(keys[..j + 1], entries) == Flatten(keys[..j], entries) + entries[keys[j]]
    decreases j
  {
    if j == 0 {
      assert keys[..1][1..] == [];
    } else {
      FlattenSnoc(keys[1..], entries, j - 1);
      assert keys[..j + 1][1..] == keys[1..][..j];
      assert keys[..j][1..] == keys[1..][..j - 1];
    }
  }

  lemma {:induction false} FlattenAppend<K(!new), V>(keys: seq<K>, entries: map<K, seq<V>>, k: K, v: V)
    requires Distinct(keys) && k in keys
    requires forall i :: 0 <= i < |keys| ==> keys[i] in entries
    ensures forall i :: 0 <= i < |keys| ==> keys[i] in entries[k := entries[k] + [v]]
    ensures multiset(Flatten(keys, entries[k := entries[k] + [v]])) == multiset(Flatten(keys, entries)) + multiset{v}
  {
    var e' := entries[k := entries[k] + [v]];
    if keys[0] == k {
      assert k !in keys[1..] by {
        forall i | 0 <= i < |keys[1..]|
          ensures keys[1..][i] != k
        {
          assert keys[1..][i] == keys[i + 1];
        }
      }
      FlattenSame(keys[1..], entries, e');
    } else {
      assert k in keys[1..];
      FlattenAppend(keys[1..], entries, k, v);
    }
  }

  lemma {:induction false} FlattenSame<K(!new), V>(keys: seq<K>, e1: map<K, seq<V>>, e2: map<K, seq<V>>)
    requires forall i :: 0 <= i < |keys| ==> keys[i] in e1 && keys[i] in e2 && e1[keys[i]] == e2[keys[i]]
    ensures Flatten(keys, e1) == Flatten(keys, e2)
  {
    if keys != [] {
      FlattenSame(keys[1..], e1, e2);
    }
  }

  lemma {:induction false} FlattenNew<K(!new), V>(keys: seq<K>, entries: map<K, seq<V>>, k: K, v: V)
    requires k !in keys
    requires forall i :: 0 <= i < |keys| ==> keys[i] in entries
    ensures Flatten(keys + [k], entries[k := [v]]) == Flatten(keys, entries) + [v]
  {
    if keys == [] {
      assert ([] + [k])[1..] == [];
    } else {
      assert (keys + [k])[1..] == keys[1..] + [k];
      FlattenNew(keys[1..], entries, k, v);
    }
  }

  /**
   * Flattening a grouping loses nothing and adds nothing: the concatenated
   * lists hold exactly the values of the pairs.
   */
  lemma {:induction false} FlattenGroup<K(!new), V>(ps: seq<(K, V)>)
    ensures var d := Group(ps);
      (forall i :: 0 <= i < |d.keys| ==> d.keys[i] in d.entries)
      && multiset(Flatten(d.keys, d.entries)) == multiset(Values(ps))
  {
    if ps != [] {
      var init, p := ps[..|ps| - 1], ps[|ps| - 1];
      GroupSpec(init);
      FlattenGroup(init);
      var d := Group(init);
      if p.0 in d.entries {
        FlattenAppend(d.keys, d.entries, p.0, p.1);
      } else {
        FlattenNew(d.keys, d.entries, p.0, p.1);
      }
    }
  }

  // ------------------------------------------------------------ statistics

  /** `sum(xs)`. */
  function RealSum(xs: seq<real>): real
  {
    if xs == [] then 0.0 else RealSum(xs[..|xs| - 1]) + xs[|xs| - 1]
  }

  /** `statistics.mean(xs)`, or `sum(xs) / len(xs)`, for the non-empty lists it is given here. */
  function Mean(xs: seq<real>): real
  {
    if xs == [] then 0.0 else RealSum(xs) / (|xs| as real)
  }
}
