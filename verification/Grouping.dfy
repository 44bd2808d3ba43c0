// Grouping replicas by what they sent, in ascending order of their ids: the counting loops that
// the reply collectors share.

module Grouping {

  // What these replicas sent.
  function Restrict<V>(sent: map<nat, V>, ids: set<nat>): map<nat, V> {
    map i | i in sent && i in ids :: sent[i]
  }

  // The replicas below bound that sent this key.
  function Group<K(==)>(keys: map<nat, K>, key: K, bound: nat): set<nat> {
    set i | i in keys && i < bound && keys[i] == key
  }

  predicate Joins<K(==)>(keys: map<nat, K>, i: nat, key: K) {
    i in keys && keys[i] == key
  }

  lemma GroupMore<K>(keys: map<nat, K>, key: K, i: nat)
    ensures Group(keys, key, i + 1) == if Joins(keys, i, key) then Group(keys, key, i) + {i} else Group(keys, key, i)
  {
  }

  function Lookup<K(==)>(groups: map<K, set<nat>>, key: K): set<nat> {
    if key in groups then groups[key] else {}
  }

  function Insert<K(==)>(groups: map<K, set<nat>>, key: K, i: nat): map<K, set<nat>> {
    groups[key := Lookup(groups, key) + {i}]
  }

  // The groups of all replicas below bound.
  ghost predicate Grouped<K(!new)>(keys: map<nat, K>, groups: map<K, set<nat>>, bound: nat) {
    forall key :: Lookup(groups, key) == Group(keys, key, bound)
  }

  lemma GroupedMore<K(!new)>(keys: map<nat, K>, groups: map<K, set<nat>>, i: nat)
    requires Grouped(keys, groups, i)
    ensures Grouped(keys, if i in keys then Insert(groups, keys[i], i) else groups, i + 1)
  {
    var more := if i in keys then Insert(groups, keys[i], i) else groups;
    forall key ensures Lookup(more, key) == Group(keys, key, i + 1) {
      GroupMore(keys, key, i);
    }
  }

  // The largest group has size m, and best is its key.
  ghost predicate Largest<K(!new)>(keys: map<nat, K>, best: K, m: nat, bound: nat) {
    |Group(keys, best, bound)| == m && forall key :: |Group(keys, key, bound)| <= m
  }

  lemma LargestMore<K(!new)>(keys: map<nat, K>, best: K, m: nat, i: nat)
    requires Largest(keys, best, m, i)
    ensures i in keys && |Group(keys, keys[i], i + 1)| > m ==>
              Largest(keys, keys[i], |Group(keys, keys[i], i + 1)|, i + 1)
    ensures i !in keys || |Group(keys, keys[i], i + 1)| <= m ==> Largest(keys, best, m, i + 1)
  {
    var next := i + 1;
    GroupMore(keys, best, i);
    forall key ensures Joins(keys, i, key) || |Group(keys, key, next)| <= m {
      GroupMore(keys, key, i);
      assert |Group(keys, key, i)| <= m;
    }
    if Joins(keys, i, best) {
      assert |Group(keys, best, next)| == m + 1;
    }
  }

  // Both hold of the replicas below bound.
  ghost predicate Scanned<K(!new)>(keys: map<nat, K>, groups: map<K, set<nat>>, best: K, m: nat, bound: nat) {
    Grouped(keys, groups, bound) && Largest(keys, best, m, bound)
  }

  lemma ScannedNone<K(!new)>(keys: map<nat, K>, best: K)
    ensures Scanned(keys, map[], best, 0, 0)
  {
    var none: map<K, set<nat>> := map[];
    assert forall key :: Lookup(none, key) == Group(keys, key, 0);
  }

  lemma ScannedSkip<K(!new)>(keys: map<nat, K>, groups: map<K, set<nat>>, best: K, m: nat, i: nat)
    requires Scanned(keys, groups, best, m, i) && i !in keys
    ensures Scanned(keys, groups, best, m, i + 1)
  {
    GroupedMore(keys, groups, i);
    LargestMore(keys, best, m, i);
  }

  lemma ScannedMore<K(!new)>(keys: map<nat, K>, groups: map<K, set<nat>>, best: K, m: nat, i: nat)
    requires Scanned(keys, groups, best, m, i) && i in keys
    ensures var more := Insert(groups, keys[i], i);
            var size := |more[keys[i]]|;
            && more[keys[i]] == Group(keys, keys[i], i + 1)
            && size <= m + 1
            && Scanned(keys, more, if size > m then keys[i] else best, if size > m then size else m, i + 1)
  {
    GroupedMore(keys, groups, i);
    LargestMore(keys, best, m, i);
    GroupMore(keys, keys[i], i);
    assert |Group(keys, keys[i], i)| <= m;
  }
}
