/**
 A JavaScript Map on values: its entries in iteration order. Setting a new key appends, setting a known key
 keeps its place.
 */
module JsMap {
  import opened Wrappers

  type OrderedMap<K, V> = seq<(K, V)>

  ghost predicate Distinct<K, V>(m: OrderedMap<K, V>) {
    forall i, j :: 0 <= i < j < |m| ==> m[i].0 != m[j].0
  }

  /** The place of a key, or the number of entries. */
  function Find<K(==), V>(m: OrderedMap<K, V>, k: K): (i: nat)
    ensures i <= |m|
    ensures i < |m| ==> m[i].0 == k
    ensures forall j :: 0 <= j < i ==> m[j].0 != k
  {
    if m == [] || m[0].0 == k then 0 else 1 + Find(m[1..], k)
  }

  function Get<K(==), V>(m: OrderedMap<K, V>, k: K): Option<V> {
    var i := Find(m, k);
    if i < |m| then Some(m[i].1) else None
  }

  function Set<K(==), V>(m: OrderedMap<K, V>, k: K, v: V): OrderedMap<K, V> {
    var i := Find(m, k);
    if i < |m| then m[i := (k, v)] else m + [(k, v)]
  }

  function Delete<K(==), V>(m: OrderedMap<K, V>, k: K): OrderedMap<K, V> {
    var i := Find(m, k);
    if i < |m| then m[..i] + m[i + 1..] else m
  }

  /** With distinct keys, the entry of a key is the one that a lookup finds. */
  lemma FindAt<K, V>(m: OrderedMap<K, V>, i: nat)
    requires Distinct(m) && i < |m|
    ensures Find(m, m[i].0) == i && Get(m, m[i].0) == Some(m[i].1)
  {
    assert Find(m, m[i].0) <= i;
  }

  lemma SetGets<K, V>(m: OrderedMap<K, V>, k: K, v: V, k': K)
    requires Distinct(m)
    ensures Distinct(Set(m, k, v))
    ensures Get(Set(m, k, v), k') == if k' == k then Some(v) else Get(m, k')
  {
    var i, m' := Find(m, k), Set(m, k, v);
    assert Distinct(m');
    if k' == k {
      FindAt(m', i);
    } else if Find(m, k') < |m| {
      FindAt(m', Find(m, k'));
    } else {
      assert Find(m', k') == |m'|;
    }
  }

  lemma DeleteGets<K, V>(m: OrderedMap<K, V>, k: K, k': K)
    requires Distinct(m)
    ensures Distinct(Delete(m, k))
    ensures Get(Delete(m, k), k') == if k' == k then None else Get(m, k')
  {
    DeleteKeepsOrder(m, k);
    if k' == k {
      DeletedIsGone(m, k);
    } else {
      OthersStay(m, k, k');
    }
  }

  /** The entries after a deleted one move up by one place. */
  lemma DeleteKeepsOrder<K, V>(m: OrderedMap<K, V>, k: K)
    requires Distinct(m)
    ensures Distinct(Delete(m, k))
    ensures var i, m' := Find(m, k), Delete(m, k);
            |m'| == (if i < |m| then |m| - 1 else |m|)
            && forall j :: 0 <= j < |m'| ==> m'[j] == m[if i <= j then j + 1 else j]
  {
  }

  lemma DeletedIsGone<K, V>(m: OrderedMap<K, V>, k: K)
    requires Distinct(m)
    ensures Get(Delete(m, k), k) == None
  {
    hide Delete;
    DeleteKeepsOrder(m, k);
  }

  lemma OthersStay<K, V>(m: OrderedMap<K, V>, k: K, k': K)
    requires Distinct(m) && k' != k
    ensures Get(Delete(m, k), k') == Get(m, k')
  {
    hide Delete;
    DeleteKeepsOrder(m, k);
    var i, p, m' := Find(m, k), Find(m, k'), Delete(m, k);
    if p < |m| {
      FindAt(m', if i < p then p - 1 else p);
    }
  }

  lemma SetTwice<K, V>(m: OrderedMap<K, V>, k: K, v: V, w: V)
    requires Distinct(m)
    ensures Set(Set(m, k, v), k, w) == Set(m, k, w)
  {
    SetGets(m, k, v, k);
    FindAt(Set(m, k, v), Find(m, k));
  }

  lemma SetThenDelete<K, V>(m: OrderedMap<K, V>, k: K, v: V)
    requires Distinct(m)
    ensures Delete(Set(m, k, v), k) == Delete(m, k)
  {
    SetGets(m, k, v, k);
    FindAt(Set(m, k, v), Find(m, k));
  }
}
