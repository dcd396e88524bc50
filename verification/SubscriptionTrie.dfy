/**
 The nested maps of subscriptions: topic, then serialNumber, then manufacturer, down to the maps from
 subscription ids to handlers. Inner maps are values, the maps at the leaves are objects.
 */
module SubscriptionTrie {
  import opened Wrappers
  import opened JsMap
  import opened JsString
  import opened TopicFormat

  type Id = int
  type Handler = int

  function At<K, V>(m: map<K, V>, k: K): Option<V> {
    if k in m then Some(m[k]) else None
  }

  /** A map from ids to handlers, with the property that holds its MQTT topic. */
  class SubMap {
    // The path at which this map hangs.
    ghost const pattern: Path
    var entries: OrderedMap<Id, Handler>
    var mqttTopic: Option<JsString>

    constructor (ghost pattern: Path)
      ensures this.pattern == pattern && entries == [] && mqttTopic == None
    {
      this.pattern := pattern;
      entries := [];
      mqttTopic := None;
    }
  }

  /** The entries are those of a map, once each. */
  ghost predicate Represents(entries: OrderedMap<Id, Handler>, m: map<Id, Handler>) {
    && Distinct(entries) && |entries| == |m|
    && forall id :: Get(entries, id) == At(m, id)
  }

  lemma SetRepresents(entries: OrderedMap<Id, Handler>, m: map<Id, Handler>, id: Id, h: Handler)
    requires Represents(entries, m) && id !in m
    ensures Represents(Set(entries, id, h), m[id := h]) && |Set(entries, id, h)| == |m| + 1
  {
    assert Get(entries, id) == At(m, id);
    forall other ensures Get(Set(entries, id, h), other) == At(m[id := h], other) {
      SetGets(entries, id, h, other);
      assert Get(entries, other) == At(m, other);
    }
    SetGets(entries, id, h, id);
  }

  lemma DeleteRepresents(entries: OrderedMap<Id, Handler>, m: map<Id, Handler>, id: Id)
    requires Represents(entries, m)
    ensures Get(entries, id).Some? <==> id in m
    ensures id in m ==> Represents(Delete(entries, id), m - {id})
    ensures id in m ==> (|Delete(entries, id)| == 0 <==> m - {id} == map[])
  {
    assert Get(entries, id) == At(m, id);
    if id in m {
      assert (m - {id}).Keys == m.Keys - {id};
      DeleteGets(entries, id, id);
      forall other ensures Get(Delete(entries, id), other) == At(m - {id}, other) {
        DeleteGets(entries, id, other);
        assert Get(entries, other) == At(m, other);
      }
    }
  }

  lemma EntriesCount(entries: OrderedMap<Id, Handler>, m: map<Id, Handler>, id: Id, h: Handler)
    requires Represents(entries, m)
    ensures multiset(entries)[(id, h)] == if At(m, id) == Some(h) then 1 else 0
  {
    assert Get(entries, id) == At(m, id);
    forall i | 0 <= i < |entries| && entries[i] == (id, h) ensures Get(entries, id) == Some(h) {
      FindAt(entries, i);
    }
    if At(m, id) == Some(h) {
      EntryOnce(entries, Find(entries, id));
    }
  }

  lemma EntryOnce(m: seq<(Id, Handler)>, i: nat)
    requires Distinct(m) && i < |m|
    ensures multiset(m)[m[i]] == 1
  {
    var a, b := m[..i], m[i + 1..];
    assert m == a + [m[i]] + b;
    assert m[i] !in a && m[i] !in b;
  }

  datatype Trie = Leaf(leaf: SubMap) | Inner(children: OrderedMap<Key, Trie>)

  /** A trie of depth `n`, all of whose leaves hang where their patterns say. */
  ghost predicate Shaped(t: Trie, n: nat, suffix: seq<Key>)
    decreases n
  {
    if n == 0 then t.Leaf? && t.leaf.pattern == suffix
    else
      && t.Inner? && Distinct(t.children)
      && forall i :: 0 <= i < |t.children| ==> Shaped(t.children[i].1, n - 1, [t.children[i].0] + suffix)
  }

  function Child(t: Trie, k: Key): Option<Trie> {
    if t.Inner? then Get(t.children, k) else None
  }

  function Lookup(t: Trie, n: nat, p: Path): Option<SubMap>
    requires n <= 3
    decreases n
  {
    if n == 0 then if t.Leaf? then Some(t.leaf) else None
    else if Child(t, p[n - 1]) == None then None else Lookup(Child(t, p[n - 1]).value, n - 1, p)
  }

  /** Adds a leaf, with the inner maps on the way to it. */
  function Insert(t: Trie, n: nat, p: Path, leaf: SubMap): Trie
    requires n <= 3
    decreases n
  {
    if n == 0 then Leaf(leaf)
    else
      var child := if Child(t, p[n - 1]) == None then Inner([]) else Child(t, p[n - 1]).value;
      Inner(Set(if t.Inner? then t.children else [], p[n - 1], Insert(child, n - 1, p, leaf)))
  }

  /** The leaves that a lookup visits: at each level the branch of the key, then the branch of undefined. */
  function Found(t: Trie, n: nat, path: Path): seq<SubMap>
    requires n <= 3
    decreases n
  {
    if n == 0 then if t.Leaf? then [t.leaf] else []
    else
      (if Child(t, path[n - 1]) == None then [] else Found(Child(t, path[n - 1]).value, n - 1, path))
      + (if Child(t, None) == None then [] else Found(Child(t, None).value, n - 1, path))
  }

  function Branch(t: Trie, n: nat, path: Path, k: Key): seq<SubMap>
    requires 0 < n <= 3
  {
    if Child(t, k) == None then [] else Found(Child(t, k).value, n - 1, path)
  }

  lemma FoundBranches(t: Trie, n: nat, path: Path)
    requires 0 < n <= 3
    ensures Found(t, n, path) == Branch(t, n, path, path[n - 1]) + Branch(t, n, path, None)
  {
  }

  /** All leaves in the order of a walk. */
  function Leaves(t: Trie, n: nat): seq<SubMap>
    decreases n, 0
  {
    if n == 0 then if t.Leaf? then [t.leaf] else []
    else if t.Inner? then LeavesBelow(t.children, n - 1) else []
  }

  function LeavesBelow(children: OrderedMap<Key, Trie>, n: nat): seq<SubMap>
    decreases n, 1, |children|
  {
    if children == [] then [] else Leaves(children[0].1, n) + LeavesBelow(children[1..], n)
  }

  /* Lookup and insertion */

  lemma ChildShaped(t: Trie, n: nat, suffix: seq<Key>, k: Key)
    requires n > 0 && Shaped(t, n, suffix) && Child(t, k).Some?
    ensures Shaped(Child(t, k).value, n - 1, [k] + suffix)
  {
    var i := Find(t.children, k);
    assert t.children[i].0 == k;
  }

  /** A leaf that is found hangs at its pattern. */
  lemma {:induction false} LookupHits(t: Trie, n: nat, suffix: seq<Key>, p: Path)
    requires n + |suffix| == 3 && Shaped(t, n, suffix) && Lookup(t, n, p).Some?
    ensures Lookup(t, n, p).value.pattern == p[..n] + suffix
    ensures Lookup(t, n, p).value.pattern[n..] == suffix
    decreases n
  {
    if n > 0 {
      var k := p[n - 1];
      ChildShaped(t, n, suffix, k);
      LookupHits(Child(t, k).value, n - 1, [k] + suffix, p);
      assert p[..n] + suffix == p[..n - 1] + ([k] + suffix);
    }
  }

  lemma ChildHits(child: Trie, n: nat, suffix: seq<Key>, k: Key, p: Path)
    requires 0 < n && n + |suffix| == 3 && Shaped(child, n - 1, [k] + suffix) && Lookup(child, n - 1, p).Some?
    ensures Lookup(child, n - 1, p).value.pattern[n - 1] == k
  {
    LookupHits(child, n - 1, [k] + suffix, p);
  }

  /** Setting one child to something well shaped. */
  lemma SetShaped(children: OrderedMap<Key, Trie>, n: nat, suffix: seq<Key>, k: Key, child: Trie)
    requires n > 0 && Shaped(child, n - 1, [k] + suffix)
    requires children == [] || Shaped(Inner(children), n, suffix)
    ensures Shaped(Inner(Set(children, k, child)), n, suffix)
  {
    SetGets(children, k, child, k);
    var i, grown := Find(children, k), Set(children, k, child);
    forall j | 0 <= j < |grown| ensures Shaped(grown[j].1, n - 1, [grown[j].0] + suffix) {
      if j != i {
        assert grown[j] == children[j];
      }
    }
  }

  lemma {:induction false} InsertShaped(t: Trie, n: nat, suffix: seq<Key>, p: Path, leaf: SubMap)
    requires n + |suffix| == 3 && (Shaped(t, n, suffix) || (n > 0 && t == Inner([])) || n == 0)
    requires leaf.pattern == p && p[n..] == suffix
    ensures Shaped(Insert(t, n, p, leaf), n, suffix)
    decreases n
  {
    if n > 0 {
      hide Set;
      var k := p[n - 1];
      var child := if Child(t, k) == None then Inner([]) else Child(t, k).value;
      if Child(t, k).Some? {
        ChildShaped(t, n, suffix, k);
      }
      assert p[n - 1..] == [k] + suffix;
      InsertShaped(child, n - 1, [k] + suffix, p, leaf);
      SetShaped(t.children, n, suffix, k, Insert(child, n - 1, p, leaf));
    }
  }

  /** Two paths agree on the first `n` properties. */
  predicate Agree(p: Path, q: Path, n: nat)
    requires n <= 3
  {
    n == 0 || (Agree(p, q, n - 1) && p[n - 1] == q[n - 1])
  }

  function Grown(t: Trie, n: nat, p: Path, leaf: SubMap): Trie
    requires 0 < n <= 3
  {
    Insert(if Child(t, p[n - 1]) == None then Inner([]) else Child(t, p[n - 1]).value, n - 1, p, leaf)
  }

  lemma InsertedChild(t: Trie, n: nat, p: Path, leaf: SubMap, k: Key)
    requires 0 < n <= 3 && t.Inner? && Distinct(t.children)
    ensures Child(Insert(t, n, p, leaf), k) == if k == p[n - 1] then Some(Grown(t, n, p, leaf)) else Child(t, k)
  {
    SetGets(t.children, p[n - 1], Grown(t, n, p, leaf), k);
  }

  lemma {:induction false} InsertLooksUp(t: Trie, n: nat, suffix: seq<Key>, p: Path, leaf: SubMap, q: Path)
    requires n + |suffix| == 3 && (Shaped(t, n, suffix) || t == Inner([]))
    ensures Lookup(Insert(t, n, p, leaf), n, q) == if Agree(p, q, n) then Some(leaf) else Lookup(t, n, q)
    decreases n
  {
    if n > 0 {
      var k := p[n - 1];
      InsertedChild(t, n, p, leaf, q[n - 1]);
      if k == q[n - 1] {
        if Child(t, k) == None {
          InsertLooksUp(Inner([]), n - 1, [k] + suffix, p, leaf, q);
          assert Lookup(Inner([]), n - 1, q) == None;
        } else {
          ChildShaped(t, n, suffix, k);
          InsertLooksUp(Child(t, k).value, n - 1, [k] + suffix, p, leaf, q);
        }
      }
    }
  }

  /* What a lookup visits */

  function Pow2(n: nat): (r: nat)
    ensures r > 0 && (r == 1 <==> n == 0)
  {
    if n == 0 then 1 else 2 * Pow2(n - 1)
  }

  /** The number of undefined properties among the first `n`. */
  function Undefined(path: Path, n: nat): nat
    requires n <= 3
  {
    if n == 0 then 0 else Undefined(path, n - 1) + if path[n - 1] == None then 1 else 0
  }

  /** How often a lookup visits a leaf: once, and twice for each property that is undefined. */
  function Visits(t: Trie, n: nat, path: Path, l: SubMap, p: Path): nat
    requires n <= 3
  {
    if Lookup(t, n, p) == Some(l) && AppliesTo(p, path, n) then Pow2(Undefined(path, n)) else 0
  }

  function ChildVisits(t: Trie, n: nat, path: Path, l: SubMap, p: Path, k: Key): nat
    requires 0 < n <= 3
  {
    if Child(t, k) == None then 0 else Visits(Child(t, k).value, n - 1, path, l, p)
  }

  lemma OffBranch(t: Trie, n: nat, suffix: seq<Key>, path: Path, l: SubMap, k: Key)
    requires 0 < n && n + |suffix| == 3 && Shaped(t, n, suffix) && k != l.pattern[n - 1]
    ensures ChildVisits(t, n, path, l, l.pattern, k) == 0
  {
    if Child(t, k).Some? && Lookup(Child(t, k).value, n - 1, l.pattern) == Some(l) {
      ChildShaped(t, n, suffix, k);
      ChildHits(Child(t, k).value, n, suffix, k, l.pattern);
    }
  }

  lemma OnBranch(t: Trie, n: nat, path: Path, l: SubMap, p: Path)
    requires 0 < n <= 3
    ensures ChildVisits(t, n, path, l, p, p[n - 1]) ==
            if Lookup(t, n, p) == Some(l) && AppliesTo(p, path, n - 1) then Pow2(Undefined(path, n - 1)) else 0
  {
  }

  lemma VisitsAdd(t: Trie, n: nat, suffix: seq<Key>, path: Path, l: SubMap)
    requires 0 < n && n + |suffix| == 3 && Shaped(t, n, suffix)
    ensures Visits(t, n, path, l, l.pattern) ==
            ChildVisits(t, n, path, l, l.pattern, path[n - 1]) + ChildVisits(t, n, path, l, l.pattern, None)
  {
    hide Child, Lookup, Shaped;
    var p := l.pattern;
    OnBranch(t, n, path, l, p);
    assert AppliesTo(p, path, n) <==> AppliesTo(p, path, n - 1) && (p[n - 1] == None || p[n - 1] == path[n - 1]);
    if p[n - 1] != path[n - 1] {
      OffBranch(t, n, suffix, path, l, path[n - 1]);
    }
    if p[n - 1] != None {
      OffBranch(t, n, suffix, path, l, None);
    }
  }

  lemma {:induction false} FoundCounts(t: Trie, n: nat, suffix: seq<Key>, path: Path, l: SubMap)
    requires n + |suffix| == 3 && Shaped(t, n, suffix)
    ensures multiset(Found(t, n, path))[l] == Visits(t, n, path, l, l.pattern)
    decreases n
  {
    if n > 0 {
      VisitsAdd(t, n, suffix, path, l);
      forall k | Child(t, k).Some?
        ensures multiset(Found(Child(t, k).value, n - 1, path))[l] == ChildVisits(t, n, path, l, l.pattern, k)
      {
        ChildShaped(t, n, suffix, k);
        FoundCounts(Child(t, k).value, n - 1, [k] + suffix, path, l);
      }
    }
  }

  /* What a walk visits */

  lemma {:induction false} LeavesAreLookups(t: Trie, n: nat, suffix: seq<Key>, l: SubMap)
    requires n + |suffix| == 3 && Shaped(t, n, suffix)
    ensures l in Leaves(t, n) <==> Lookup(t, n, l.pattern) == Some(l)
    decreases n, 0
  {
    if n > 0 {
      BelowAreLookups(t.children, n, suffix, l);
    }
  }

  lemma {:induction false} BelowAreLookups(children: OrderedMap<Key, Trie>, n: nat, suffix: seq<Key>, l: SubMap)
    requires 0 < n && n + |suffix| == 3 && Shaped(Inner(children), n, suffix)
    ensures l in LeavesBelow(children, n - 1) <==> Lookup(Inner(children), n, l.pattern) == Some(l)
    decreases n - 1, 1, |children|
  {
    if children != [] {
      var (k, child) := children[0];
      var t, rest := Inner(children), Inner(children[1..]);
      assert Shaped(rest, n, suffix);
      LeavesAreLookups(child, n - 1, [k] + suffix, l);
      BelowAreLookups(children[1..], n, suffix, l);
      if l.pattern[n - 1] == k {
        assert Child(t, k) == Some(child);
        assert Find(children[1..], k) == |children[1..]|;
      } else {
        assert Child(t, l.pattern[n - 1]) == Child(rest, l.pattern[n - 1]);
        if Lookup(child, n - 1, l.pattern) == Some(l) {
          ChildHits(child, n, suffix, k, l.pattern);
        }
      }
    }
  }

  /** No two leaves of a list have the same pattern. */
  ghost predicate PatternsDiffer(leaves: seq<SubMap>) {
    forall i, j :: 0 <= i < j < |leaves| ==> leaves[i].pattern != leaves[j].pattern
  }

  lemma {:induction false} LeavesDiffer(t: Trie, n: nat, suffix: seq<Key>)
    requires n + |suffix| == 3 && Shaped(t, n, suffix)
    ensures PatternsDiffer(Leaves(t, n))
    decreases n, 0
  {
    if n > 0 {
      BelowDiffer(t.children, n, suffix);
    }
  }

  lemma LeafKeyed(t: Trie, n: nat, suffix: seq<Key>, l: SubMap)
    requires n + |suffix| == 3 && Shaped(t, n, suffix) && l in Leaves(t, n)
    ensures l.pattern[n..] == suffix
  {
    LeavesAreLookups(t, n, suffix, l);
    LookupHits(t, n, suffix, l.pattern);
    assert l.pattern == l.pattern[..n] + suffix;
  }

  lemma {:induction false} BelowDiffer(children: OrderedMap<Key, Trie>, n: nat, suffix: seq<Key>)
    requires 0 < n && n + |suffix| == 3 && Shaped(Inner(children), n, suffix)
    ensures PatternsDiffer(LeavesBelow(children, n - 1))
    decreases n - 1, 1, |children|
  {
    if children != [] {
      var (k, child) := children[0];
      var rest := Inner(children[1..]);
      assert Shaped(rest, n, suffix);
      LeavesDiffer(child, n - 1, [k] + suffix);
      BelowDiffer(children[1..], n, suffix);
      var a, b := Leaves(child, n - 1), LeavesBelow(children[1..], n - 1);
      forall i, j | 0 <= i < |a| && 0 <= j < |b| ensures a[i].pattern != b[j].pattern {
        LeafKeyed(child, n - 1, [k] + suffix, a[i]);
        BelowAreLookups(children[1..], n, suffix, b[j]);
        assert Find(children[1..], k) == |children[1..]|;
        assert a[i].pattern[n - 1] == k;
      }
    }
  }
}
