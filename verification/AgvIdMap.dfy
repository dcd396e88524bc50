/** The nested map from AGV identifiers to values, and the flat map that it stands for. */
module AgvIdMap {
  import opened Wrappers
  import opened JsMap
  import opened JsString

  datatype AgvId = AgvId(manufacturer: JsString, serialNumber: JsString)

  type Nested<T> = OrderedMap<JsString, OrderedMap<JsString, T>>

  /** Keys are unique on both levels, and no inner map is empty. */
  ghost predicate WellFormed<T>(m: Nested<T>) {
    Distinct(m) && forall i :: 0 <= i < |m| ==> Distinct(m[i].1) && m[i].1 != []
  }

  function Lookup<T>(m: Nested<T>, id: AgvId): Option<T> {
    match Get(m, id.manufacturer)
    case None => None
    case Some(inner) => Get(inner, id.serialNumber)
  }

  function Inner<T>(m: Nested<T>, manufacturer: JsString): OrderedMap<JsString, T> {
    if Get(m, manufacturer).Some? then Get(m, manufacturer).value else []
  }

  function Put<T>(m: Nested<T>, id: AgvId, v: T): Nested<T> {
    Set(m, id.manufacturer, Set(Inner(m, id.manufacturer), id.serialNumber, v))
  }

  function Remove<T>(m: Nested<T>, id: AgvId): Nested<T> {
    match Get(m, id.manufacturer)
    case None => m
    case Some(inner) =>
      var rest := Delete(inner, id.serialNumber);
      if rest == [] then Delete(m, id.manufacturer) else Set(m, id.manufacturer, rest)
  }

  /* Iteration */

  function Group<T>(manufacturer: JsString, inner: OrderedMap<JsString, T>): (g: seq<(AgvId, T)>)
    ensures |g| == |inner|
    ensures forall i :: 0 <= i < |g| ==> g[i] == (AgvId(manufacturer, inner[i].0), inner[i].1)
  {
    seq(|inner|, i requires 0 <= i < |inner| => (AgvId(manufacturer, inner[i].0), inner[i].1))
  }

  /** All pairs in iteration order. */
  function Entries<T>(m: Nested<T>): seq<(AgvId, T)> {
    if m == [] then [] else Group(m[0].0, m[0].1) + Entries(m[1..])
  }

  lemma {:induction false} EntriesConcat<T>(a: Nested<T>, b: Nested<T>)
    ensures Entries(a + b) == Entries(a) + Entries(b)
  {
    if a == [] {
      assert a + b == b;
    } else {
      assert (a + b)[1..] == a[1..] + b;
      EntriesConcat(a[1..], b);
    }
  }

  lemma EntriesOne<T>(k: JsString, inner: OrderedMap<JsString, T>)
    ensures Entries([(k, inner)]) == Group(k, inner)
  {
    assert [(k, inner)][1..] == [];
  }

  lemma TailLookup<T>(m: Nested<T>, id: AgvId)
    requires WellFormed(m) && m != []
    ensures WellFormed(m[1..])
    ensures Lookup(m, id) == if id.manufacturer == m[0].0 then Get(m[0].1, id.serialNumber) else Lookup(m[1..], id)
    ensures id.manufacturer == m[0].0 ==> Lookup(m[1..], id) == None
  {
    if id.manufacturer == m[0].0 {
      assert Find(m, id.manufacturer) == 0;
      assert Find(m[1..], id.manufacturer) == |m[1..]|;
    }
  }

  /** The pairs that the iteration yields are exactly those that a lookup finds. */
  lemma {:induction false} EntriesAreLookups<T>(m: Nested<T>, id: AgvId, v: T)
    requires WellFormed(m)
    ensures (id, v) in Entries(m) <==> Lookup(m, id) == Some(v)
  {
    if m != [] {
      TailLookup(m, id);
      EntriesAreLookups(m[1..], id, v);
      var g := Group(m[0].0, m[0].1);
      var k := Find(m[0].1, id.serialNumber);
      if id.manufacturer == m[0].0 && k < |g| {
        assert g[k].0 == id;
      }
      if (id, v) in g {
        var i :| 0 <= i < |g| && g[i] == (id, v);
        FindAt(m[0].1, i);
      }
    }
  }

  /** The iteration yields no identifier twice. */
  lemma {:induction false} EntriesDistinct<T>(m: Nested<T>)
    requires WellFormed(m)
    ensures Distinct(Entries(m))
  {
    if m != [] {
      var g, rest := Group(m[0].0, m[0].1), Entries(m[1..]);
      assert WellFormed(m[1..]);
      EntriesDistinct(m[1..]);
      forall i, j | 0 <= i < |g| && 0 <= j < |rest| ensures g[i].0 != rest[j].0 {
        TailLookup(m, rest[j].0);
        EntriesAreLookups(m[1..], rest[j].0, rest[j].1);
      }
    }
  }

  /* The flat map */

  function Ids<T>(entries: seq<(AgvId, T)>): set<AgvId> {
    set i | 0 <= i < |entries| :: entries[i].0
  }

  lemma {:induction false} IdCount<T>(entries: seq<(AgvId, T)>)
    requires Distinct(entries)
    ensures |Ids(entries)| == |entries|
  {
    if entries != [] {
      var front, last := entries[..|entries| - 1], entries[|entries| - 1];
      IdCount(front);
      assert Ids(entries) == Ids(front) + {last.0};
    }
  }

  lemma Listed<T>(m: Nested<T>, id: AgvId)
    requires WellFormed(m)
    ensures id in Ids(Entries(m)) <==> Lookup(m, id).Some?
  {
    if id in Ids(Entries(m)) {
      var i :| 0 <= i < |Entries(m)| && Entries(m)[i].0 == id;
      EntriesAreLookups(m, id, Entries(m)[i].1);
    }
    if Lookup(m, id).Some? {
      EntriesAreLookups(m, id, Lookup(m, id).value);
      var i :| 0 <= i < |Entries(m)| && Entries(m)[i] == (id, Lookup(m, id).value);
    }
  }

  /** The flat map keyed by (manufacturer, serialNumber). */
  ghost function Flat<T>(m: Nested<T>): (f: map<AgvId, T>)
    requires WellFormed(m)
    ensures forall id :: Lookup(m, id) == if id in f then Some(f[id]) else None
    ensures |f| == |Entries(m)|
  {
    assert forall id :: id in Ids(Entries(m)) <==> Lookup(m, id).Some? by {
      forall id ensures id in Ids(Entries(m)) <==> Lookup(m, id).Some? {
        Listed(m, id);
      }
    }
    EntriesDistinct(m);
    IdCount(Entries(m));
    var f := map id | id in Ids(Entries(m)) :: Lookup(m, id).value;
    assert f.Keys == Ids(Entries(m));
    f
  }

  lemma PutLooksUp<T>(m: Nested<T>, id: AgvId, v: T, other: AgvId)
    requires WellFormed(m)
    ensures WellFormed(Put(m, id, v))
    ensures Lookup(Put(m, id, v), other) == if other == id then Some(v) else Lookup(m, other)
  {
    var inner := Inner(m, id.manufacturer);
    SetGets(inner, id.serialNumber, v, other.serialNumber);
    SetGets(m, id.manufacturer, Set(inner, id.serialNumber, v), other.manufacturer);
  }

  lemma RemoveLooksUp<T>(m: Nested<T>, id: AgvId, other: AgvId)
    requires WellFormed(m)
    ensures WellFormed(Remove(m, id))
    ensures Lookup(Remove(m, id), other) == if other == id then None else Lookup(m, other)
  {
    if Get(m, id.manufacturer).Some? {
      var inner := Get(m, id.manufacturer).value;
      var rest := Delete(inner, id.serialNumber);
      DeleteGets(inner, id.serialNumber, other.serialNumber);
      DeleteGets(m, id.manufacturer, other.manufacturer);
      SetGets(m, id.manufacturer, rest, other.manufacturer);
      if rest == [] {
        assert Get(rest, other.serialNumber) == None;
      }
    }
  }

  function At<T>(f: map<AgvId, T>, id: AgvId): Option<T> {
    if id in f then Some(f[id]) else None
  }

  lemma FlatIs<T>(m: Nested<T>, f: map<AgvId, T>)
    requires WellFormed(m) && forall id :: Lookup(m, id) == At(f, id)
    ensures Flat(m) == f
  {
    var g := Flat(m);
    forall id ensures id in g <==> id in f
              ensures id in g ==> g[id] == f[id] {
      assert Lookup(m, id) == At(f, id);
    }
  }

  /** The nested operations are the operations of the flat map. */
  lemma PutRefinesFlat<T>(m: Nested<T>, id: AgvId, v: T)
    requires WellFormed(m)
    ensures WellFormed(Put(m, id, v)) && Flat(Put(m, id, v)) == Flat(m)[id := v]
  {
    var m', f := Put(m, id, v), Flat(m)[id := v];
    PutLooksUp(m, id, v, id);
    forall other ensures Lookup(m', other) == At(f, other) {
      PutLooksUp(m, id, v, other);
    }
    FlatIs(m', f);
  }

  lemma RemoveRefinesFlat<T>(m: Nested<T>, id: AgvId)
    requires WellFormed(m)
    ensures WellFormed(Remove(m, id)) && Flat(Remove(m, id)) == Flat(m) - {id}
  {
    var m', f := Remove(m, id), Flat(m) - {id};
    RemoveLooksUp(m, id, id);
    forall other ensures Lookup(m', other) == At(f, other) {
      RemoveLooksUp(m, id, other);
    }
    FlatIs(m', f);
  }

  /* Order of iteration */

  /** Where a new identifier is inserted: at the end of its manufacturer's group, or at the very end. */
  function InsertionPoint<T>(m: Nested<T>, manufacturer: JsString): nat {
    var i := Find(m, manufacturer);
    if i < |m| then |Entries(m[..i + 1])| else |Entries(m)|
  }

  lemma EntriesAround<T>(front: Nested<T>, k: JsString, inner: OrderedMap<JsString, T>, back: Nested<T>)
    ensures Entries(front + [(k, inner)] + back) == Entries(front) + Group(k, inner) + Entries(back)
    ensures Entries(front + [(k, inner)]) == Entries(front) + Group(k, inner)
  {
    EntriesConcat(front + [(k, inner)], back);
    EntriesConcat(front, [(k, inner)]);
    EntriesOne(k, inner);
  }

  /** One more entry at the end of a group. */
  lemma GroupGrows<T>(front: Nested<T>, id: AgvId, inner: OrderedMap<JsString, T>, back: Nested<T>, v: T)
    ensures var e := Entries(front + [(id.manufacturer, inner)] + back);
            var p := |Entries(front + [(id.manufacturer, inner)])|;
            p <= |e| && Entries(front + [(id.manufacturer, inner + [(id.serialNumber, v)])] + back) ==
                        e[..p] + [(id, v)] + e[p..]
  {
    hide Entries;
    var k, grown := id.manufacturer, inner + [(id.serialNumber, v)];
    EntriesAround(front, k, inner, back);
    EntriesAround(front, k, grown, back);
    assert Group(k, grown) == Group(k, inner) + [(id, v)];
  }

  /** Updating an entry in place splits the list there. */
  lemma UpdateSplits<A>(m: seq<A>, i: nat, x: A)
    requires i < |m|
    ensures m[i := x] == m[..i] + [x] + m[i + 1..]
    ensures m == m[..i] + [m[i]] + m[i + 1..] && m[..i + 1] == m[..i] + [m[i]]
  {
  }

  lemma PutInGroup<T>(m: Nested<T>, id: AgvId, v: T)
    requires Lookup(m, id) == None && Find(m, id.manufacturer) < |m|
    ensures var i := Find(m, id.manufacturer);
            Put(m, id, v) == m[i := (id.manufacturer, m[i].1 + [(id.serialNumber, v)])]
  {
  }

  lemma PutNewGroup<T>(m: Nested<T>, id: AgvId, v: T)
    requires Find(m, id.manufacturer) == |m|
    ensures Put(m, id, v) == m + [(id.manufacturer, [(id.serialNumber, v)])]
  {
    assert Set([], id.serialNumber, v) == [(id.serialNumber, v)];
  }

  lemma NewIdIsInserted<T>(m: Nested<T>, id: AgvId, v: T)
    requires WellFormed(m) && Lookup(m, id) == None
    ensures var p := InsertionPoint(m, id.manufacturer);
            p <= |Entries(m)| && Entries(Put(m, id, v)) == Entries(m)[..p] + [(id, v)] + Entries(m)[p..]
  {
    var i := Find(m, id.manufacturer);
    if i < |m| {
      PutInGroup(m, id, v);
      UpdateSplits(m, i, (id.manufacturer, m[i].1 + [(id.serialNumber, v)]));
      GroupGrows(m[..i], id, m[i].1, m[i + 1..], v);
    } else {
      PutNewGroup(m, id, v);
      EntriesAround(m, id.manufacturer, [(id.serialNumber, v)], []);
      SingletonGroup(id, v);
      LastInserted(Entries(m), (id, v));
    }
  }

  lemma SingletonGroup<T>(id: AgvId, v: T)
    ensures Group(id.manufacturer, [(id.serialNumber, v)]) == [(id, v)]
  {
  }

  lemma LastInserted<A>(e: seq<A>, x: A)
    ensures e[..|e|] + [x] + e[|e|..] == e + [x]
  {
  }

  lemma {:induction false} SomeEntries<T>(m: Nested<T>)
    requires forall i :: 0 <= i < |m| ==> m[i].1 != []
    ensures |Entries(m)| >= |m|
  {
    if m != [] {
      SomeEntries(m[1..]);
    }
  }

  lemma InsertedLast<T>(e: seq<T>, p: nat, x: T)
    requires p <= |e| && x !in e
    ensures e[..p] + [x] + e[p..] == e + [x] <==> p == |e|
  {
    if p < |e| {
      assert (e[..p] + [x] + e[p..])[p] == x && (e + [x])[p] == e[p];
    }
  }

  lemma InsertionPointLast<T>(m: Nested<T>, k: JsString)
    requires WellFormed(m)
    ensures InsertionPoint(m, k) <= |Entries(m)|
    ensures InsertionPoint(m, k) == |Entries(m)| <==> Find(m, k) >= |m| - 1
  {
    var i := Find(m, k);
    if i < |m| {
      assert m == m[..i + 1] + m[i + 1..];
      EntriesConcat(m[..i + 1], m[i + 1..]);
      SomeEntries(m[i + 1..]);
    }
  }

  /** A new identifier comes last in the iteration exactly if its manufacturer is new or the last one. */
  lemma InsertionOrderExactly<T>(m: Nested<T>, id: AgvId, v: T)
    requires WellFormed(m) && Lookup(m, id) == None
    ensures Entries(Put(m, id, v)) == Entries(m) + [(id, v)] <==> Find(m, id.manufacturer) >= |m| - 1
  {
    NewIdIsInserted(m, id, v);
    EntriesAreLookups(m, id, v);
    InsertionPointLast(m, id.manufacturer);
    InsertedLast(Entries(m), InsertionPoint(m, id.manufacturer), (id, v));
  }

  /* Order of iteration after a run of insertions */

  /** The map after some calls of `set`. */
  function PutAll<T>(sets: seq<(AgvId, T)>): Nested<T> {
    if sets == [] then [] else Put(PutAll(sets[..|sets| - 1]), sets[|sets| - 1].0, sets[|sets| - 1].1)
  }

  /** The identifiers in the order in which they were first inserted. */
  function FirstInsertions<T>(sets: seq<(AgvId, T)>): seq<AgvId> {
    if sets == [] then []
    else
      var before, id := FirstInsertions(sets[..|sets| - 1]), sets[|sets| - 1].0;
      if id in before then before else before + [id]
  }

  function IdsOf<T>(entries: seq<(AgvId, T)>): (ids: seq<AgvId>)
    ensures |ids| == |entries| && forall i :: 0 <= i < |ids| ==> ids[i] == entries[i].0
  {
    seq(|entries|, i requires 0 <= i < |entries| => entries[i].0)
  }

  /** No identifier of another manufacturer is between two of the same manufacturer. */
  predicate Consecutive(ids: seq<AgvId>) {
    forall i, j, k :: 0 <= i < j < k < |ids| && ids[i].manufacturer == ids[k].manufacturer ==>
      ids[j].manufacturer == ids[i].manufacturer
  }

  lemma RestIsForeign<T>(m: Nested<T>, e: (AgvId, T))
    requires WellFormed(m) && m != [] && e in Entries(m[1..])
    ensures e.0.manufacturer != m[0].0
  {
    TailLookup(m, e.0);
    EntriesAreLookups(m[1..], e.0, e.1);
  }

  /** The iteration is grouped by manufacturer. */
  lemma {:induction false} IterationIsConsecutive<T>(m: Nested<T>)
    requires WellFormed(m)
    ensures Consecutive(IdsOf(Entries(m)))
  {
    if m != [] {
      var g, rest := Group(m[0].0, m[0].1), Entries(m[1..]);
      var ids := IdsOf(Entries(m));
      assert WellFormed(m[1..]);
      IterationIsConsecutive(m[1..]);
      forall k | |g| <= k < |ids| ensures ids[k].manufacturer != m[0].0 && ids[k] == IdsOf(rest)[k - |g|] {
        RestIsForeign(m, rest[k - |g|]);
      }
    }
  }

  lemma IdListed<T>(m: Nested<T>, id: AgvId)
    requires WellFormed(m)
    ensures id in IdsOf(Entries(m)) <==> Lookup(m, id).Some?
  {
    Listed(m, id);
    var e := Entries(m);
    if id in Ids(e) {
      var i :| 0 <= i < |e| && e[i].0 == id;
      assert IdsOf(e)[i] == id;
    }
  }

  lemma GroupKeepsIds<T>(k: JsString, inner: OrderedMap<JsString, T>, other: OrderedMap<JsString, T>)
    requires |inner| == |other| && forall i :: 0 <= i < |inner| ==> inner[i].0 == other[i].0
    ensures IdsOf(Group(k, inner)) == IdsOf(Group(k, other))
  {
  }

  lemma IdsOfConcat<T>(a: seq<(AgvId, T)>, b: seq<(AgvId, T)>)
    ensures IdsOf(a + b) == IdsOf(a) + IdsOf(b)
  {
  }

  /** Setting a known identifier keeps its place. */
  lemma KnownIdKeepsPlace<T>(m: Nested<T>, id: AgvId, v: T)
    requires WellFormed(m) && Lookup(m, id).Some?
    ensures IdsOf(Entries(Put(m, id, v))) == IdsOf(Entries(m))
  {
    var i := Find(m, id.manufacturer);
    var inner := m[i].1;
    var updated := Set(inner, id.serialNumber, v);
    UpdateSplits(m, i, (id.manufacturer, updated));
    EntriesAround(m[..i], id.manufacturer, inner, m[i + 1..]);
    EntriesAround(m[..i], id.manufacturer, updated, m[i + 1..]);
    GroupKeepsIds(id.manufacturer, inner, updated);
    var front, back := Entries(m[..i]), Entries(m[i + 1..]);
    IdsOfConcat(front + Group(id.manufacturer, inner), back);
    IdsOfConcat(front + Group(id.manufacturer, updated), back);
    IdsOfConcat(front, Group(id.manufacturer, inner));
    IdsOfConcat(front, Group(id.manufacturer, updated));
  }

  lemma FirstEntry<T>(m: Nested<T>)
    requires m != [] && m[0].1 != []
    ensures |Entries(m)| > 0 && Entries(m)[0].0.manufacturer == m[0].0
  {
    assert Entries(m)[0] == Group(m[0].0, m[0].1)[0];
  }

  /** A new identifier of a manufacturer that is neither new nor the last one comes behind a foreign one. */
  lemma ForeignBetween<T>(m: Nested<T>, id: AgvId)
    requires WellFormed(m) && Find(m, id.manufacturer) < |m| - 1
    ensures !Consecutive(IdsOf(Entries(m)) + [id])
  {
    hide Entries;
    var q := Find(m, id.manufacturer);
    var front, back := Entries(m[..q + 1]), Entries(m[q + 1..]);
    UpdateSplits(m, q, m[q]);
    EntriesAround(m[..q], m[q].0, m[q].1, m[q + 1..]);
    FirstEntry(m[q + 1..]);
    var ids := IdsOf(Entries(m)) + [id];
    var n := |front|;
    assert Entries(m) == front + back;
    assert ids[n - 1].manufacturer == id.manufacturer;
    assert ids[n] == back[0].0;
    assert ids[|ids| - 1] == id;
  }

  lemma {:induction false} PutAllWellFormed<T>(sets: seq<(AgvId, T)>)
    ensures WellFormed(PutAll(sets))
  {
    if sets != [] {
      PutAllWellFormed(sets[..|sets| - 1]);
      PutLooksUp(PutAll(sets[..|sets| - 1]), sets[|sets| - 1].0, sets[|sets| - 1].1, sets[|sets| - 1].0);
    }
  }

  lemma PrefixConsecutive(ids: seq<AgvId>, id: AgvId)
    requires Consecutive(ids + [id])
    ensures Consecutive(ids)
  {
    forall i, j, k | 0 <= i < j < k < |ids| && ids[i].manufacturer == ids[k].manufacturer
      ensures ids[j].manufacturer == ids[i].manufacturer
    {
      assert (ids + [id])[i] == ids[i] && (ids + [id])[j] == ids[j] && (ids + [id])[k] == ids[k];
    }
  }

  lemma {:induction false} ConsecutiveIsIterated<T>(sets: seq<(AgvId, T)>)
    requires Consecutive(FirstInsertions(sets))
    ensures IdsOf(Entries(PutAll(sets))) == FirstInsertions(sets)
  {
    if sets != [] {
      var front := sets[..|sets| - 1];
      var (id, v) := sets[|sets| - 1];
      var m, before := PutAll(front), FirstInsertions(front);
      PutAllWellFormed(front);
      if id !in before {
        PrefixConsecutive(before, id);
      }
      ConsecutiveIsIterated(front);
      IdListed(m, id);
      if id in before {
        KnownIdKeepsPlace(m, id, v);
      } else {
        InsertionOrderExactly(m, id, v);
        if Find(m, id.manufacturer) < |m| - 1 {
          ForeignBetween(m, id);
        }
        IdsOfConcat(Entries(m), [(id, v)]);
      }
    }
  }

  /**
   After any run of `set`s alone, the iteration is in the order of first insertion exactly if the identifiers of
   each manufacturer were inserted consecutively.
   */
  lemma SetsIterateExactly<T>(sets: seq<(AgvId, T)>)
    ensures IdsOf(Entries(PutAll(sets))) == FirstInsertions(sets) <==> Consecutive(FirstInsertions(sets))
  {
    if Consecutive(FirstInsertions(sets)) {
      ConsecutiveIsIterated(sets);
    } else {
      PutAllWellFormed(sets);
      IterationIsConsecutive(PutAll(sets));
    }
  }

  /* Order of iteration in a run of all operations */

  datatype Edit<T> = Setting(id: AgvId, value: T) | Deleting(id: AgvId) | Clearing

  function Edited<T>(m: Nested<T>, e: Edit<T>): Nested<T> {
    match e
    case Setting(id, v) => Put(m, id, v)
    case Deleting(id) => Remove(m, id)
    case Clearing => []
  }

  function Without(ids: seq<AgvId>, id: AgvId): seq<AgvId> {
    if ids == [] then [] else (if ids[0] == id then [] else [ids[0]]) + Without(ids[1..], id)
  }

  /** What an operation makes of the identifiers in the order of their insertion. */
  function Reordered<T>(order: seq<AgvId>, e: Edit<T>): seq<AgvId> {
    match e
    case Setting(id, _) => if id in order then order else order + [id]
    case Deleting(id) => Without(order, id)
    case Clearing => []
  }

  /** In every state of the run, the iteration is in the order of insertion. */
  ghost predicate IteratesAsInserted<T>(m: Nested<T>, order: seq<AgvId>, edits: seq<Edit<T>>)
    decreases |edits|
  {
    && IdsOf(Entries(m)) == order
    && (edits != [] ==> IteratesAsInserted(Edited(m, edits[0]), Reordered(order, edits[0]), edits[1..]))
  }

  /** Every new identifier is of a manufacturer that is new or the last one. */
  predicate InsertsInTurn<T>(m: Nested<T>, edits: seq<Edit<T>>)
    decreases |edits|
  {
    edits != [] ==>
      && (edits[0].Setting? && Lookup(m, edits[0].id) == None ==> Find(m, edits[0].id.manufacturer) >= |m| - 1)
      && InsertsInTurn(Edited(m, edits[0]), edits[1..])
  }

  lemma {:induction false} WithoutConcat(a: seq<AgvId>, b: seq<AgvId>, id: AgvId)
    ensures Without(a + b, id) == Without(a, id) + Without(b, id)
  {
    if a == [] {
      assert a + b == b;
    } else {
      assert (a + b)[1..] == a[1..] + b;
      WithoutConcat(a[1..], b, id);
    }
  }

  lemma {:induction false} WithoutAbsent(ids: seq<AgvId>, id: AgvId)
    requires id !in ids
    ensures Without(ids, id) == ids
  {
    if ids != [] {
      WithoutAbsent(ids[1..], id);
    }
  }

  lemma WithoutItself(id: AgvId)
    ensures Without([id], id) == []
  {
    assert [id][1..] == [];
  }

  lemma WithoutOne(a: seq<AgvId>, id: AgvId, b: seq<AgvId>)
    requires id !in a && id !in b
    ensures Without(a + [id] + b, id) == a + b
  {
    hide Without;
    WithoutConcat(a + [id], b, id);
    WithoutConcat(a, [id], id);
    WithoutItself(id);
    WithoutAbsent(a, id);
    WithoutAbsent(b, id);
  }

  lemma {:induction false} ForeignEntries<T>(m: Nested<T>, k: JsString, id: AgvId)
    requires id.manufacturer == k && forall i :: 0 <= i < |m| ==> m[i].0 != k
    ensures id !in IdsOf(Entries(m))
  {
    if m != [] {
      ForeignEntries(m[1..], k, id);
      IdsOfConcat(Group(m[0].0, m[0].1), Entries(m[1..]));
    }
  }

  /** A group around one of its entries. */
  lemma GroupAround<T>(k: JsString, inner: OrderedMap<JsString, T>, j: nat)
    requires j < |inner|
    ensures IdsOf(Group(k, inner)) ==
            IdsOf(Group(k, inner[..j])) + [AgvId(k, inner[j].0)] + IdsOf(Group(k, inner[j + 1..]))
    ensures IdsOf(Group(k, inner[..j] + inner[j + 1..])) == IdsOf(Group(k, inner[..j])) + IdsOf(Group(k, inner[j + 1..]))
  {
  }

  lemma OthersInGroup<T>(k: JsString, inner: OrderedMap<JsString, T>, j: nat)
    requires Distinct(inner) && j < |inner|
    ensures AgvId(k, inner[j].0) !in IdsOf(Group(k, inner[..j]))
    ensures AgvId(k, inner[j].0) !in IdsOf(Group(k, inner[j + 1..]))
  {
  }

  /** Deleting from a group. */
  lemma GroupShrinks<T>(k: JsString, inner: OrderedMap<JsString, T>, id: AgvId)
    requires id.manufacturer == k && Distinct(inner) && Find(inner, id.serialNumber) < |inner|
    ensures IdsOf(Group(k, Delete(inner, id.serialNumber))) == Without(IdsOf(Group(k, inner)), id)
  {
    hide Group, IdsOf, Without, Distinct;
    var j := Find(inner, id.serialNumber);
    GroupAround(k, inner, j);
    OthersInGroup(k, inner, j);
    WithoutOne(IdsOf(Group(k, inner[..j])), id, IdsOf(Group(k, inner[j + 1..])));
  }

  /** The identifiers around the group of a manufacturer are not of that manufacturer. */
  lemma AroundGroup<T>(m: Nested<T>, i: nat, id: AgvId)
    requires WellFormed(m) && i < |m| && m[i].0 == id.manufacturer
    ensures m == m[..i] + [(id.manufacturer, m[i].1)] + m[i + 1..]
    ensures Without(IdsOf(Entries(m)), id) ==
            IdsOf(Entries(m[..i])) + Without(IdsOf(Group(id.manufacturer, m[i].1)), id) + IdsOf(Entries(m[i + 1..]))
  {
    hide Without, Entries;
    var k, front, back := id.manufacturer, m[..i], m[i + 1..];
    UpdateSplits(m, i, (k, m[i].1));
    EntriesAround(front, k, m[i].1, back);
    IdsOfConcat(Entries(front) + Group(k, m[i].1), Entries(back));
    IdsOfConcat(Entries(front), Group(k, m[i].1));
    var f, g, b := IdsOf(Entries(front)), IdsOf(Group(k, m[i].1)), IdsOf(Entries(back));
    WithoutConcat(f + g, b, id);
    WithoutConcat(f, g, id);
    ForeignEntries(front, k, id);
    ForeignEntries(back, k, id);
    WithoutAbsent(f, id);
    WithoutAbsent(b, id);
  }

  /** Deleting removes one identifier from the iteration and keeps the order of the others. */
  lemma RemoveKeepsOrder<T>(m: Nested<T>, id: AgvId)
    requires WellFormed(m)
    ensures IdsOf(Entries(Remove(m, id))) == Without(IdsOf(Entries(m)), id)
  {
    hide Entries, Without, Delete, IdsOf, Group, Remove;
    if Lookup(m, id) == None {
      IdListed(m, id);
      WithoutAbsent(IdsOf(Entries(m)), id);
      RemoveUnknown(m, id);
    } else {
      var i := Find(m, id.manufacturer);
      var k, inner, front, back := id.manufacturer, m[i].1, m[..i], m[i + 1..];
      var rest := Delete(inner, id.serialNumber);
      AroundGroup(m, i, id);
      GroupShrinks(k, inner, id);
      EntriesAround(front, k, rest, back);
      IdsOfConcat(Entries(front) + Group(k, rest), Entries(back));
      IdsOfConcat(Entries(front), Group(k, rest));
      RemoveSplits(m, id);
      if rest == [] {
        EntriesConcat(front, back);
        IdsOfConcat(Entries(front), Entries(back));
      }
    }
  }

  lemma RemoveUnknown<T>(m: Nested<T>, id: AgvId)
    requires WellFormed(m) && Lookup(m, id) == None
    ensures Remove(m, id) == m
  {
  }

  lemma RemoveSplits<T>(m: Nested<T>, id: AgvId)
    requires WellFormed(m) && Lookup(m, id).Some?
    ensures var i := Find(m, id.manufacturer);
            var rest := Delete(m[i].1, id.serialNumber);
            Remove(m, id) == if rest == [] then m[..i] + m[i + 1..] else m[..i] + [(id.manufacturer, rest)] + m[i + 1..]
  {
    UpdateSplits(m, Find(m, id.manufacturer), (id.manufacturer, Delete(m[Find(m, id.manufacturer)].1, id.serialNumber)));
  }

  /** One operation keeps the order of insertion exactly if it inserts in turn. */
  lemma EditKeepsOrder<T>(m: Nested<T>, e: Edit<T>)
    requires WellFormed(m)
    ensures WellFormed(Edited(m, e))
    ensures IdsOf(Entries(Edited(m, e))) == Reordered(IdsOf(Entries(m)), e) <==>
            (e.Setting? && Lookup(m, e.id) == None ==> Find(m, e.id.manufacturer) >= |m| - 1)
  {
    hide WellFormed, Entries, Put, Remove, Find;
    match e
    case Setting(id, v) =>
      PutLooksUp(m, id, v, id);
      IdListed(m, id);
      if Lookup(m, id).Some? {
        KnownIdKeepsPlace(m, id, v);
      } else {
        NewIdInOrder(m, id, v);
      }
    case Deleting(id) =>
      RemoveLooksUp(m, id, id);
      RemoveKeepsOrder(m, id);
    case Clearing => NothingIterated<T>();
  }

  lemma NothingIterated<T>()
    ensures WellFormed<T>([]) && IdsOf(Entries<T>([])) == []
  {
  }

  lemma NewIdInOrder<T>(m: Nested<T>, id: AgvId, v: T)
    requires WellFormed(m) && Lookup(m, id) == None
    ensures IdsOf(Entries(Put(m, id, v))) == IdsOf(Entries(m)) + [id] <==> Find(m, id.manufacturer) >= |m| - 1
  {
    hide Entries, Put, WellFormed;
    var e, p := Entries(m), InsertionPoint(m, id.manufacturer);
    NewIdIsInserted(m, id, v);
    InsertionPointLast(m, id.manufacturer);
    IdListed(m, id);
    IdsInserted(e, p, (id, v));
    InsertedLast(IdsOf(e), p, id);
  }

  lemma IdsInserted<T>(e: seq<(AgvId, T)>, p: nat, x: (AgvId, T))
    requires p <= |e|
    ensures IdsOf(e[..p] + [x] + e[p..]) == IdsOf(e)[..p] + [x.0] + IdsOf(e)[p..]
  {
  }

  /**
   Over every run of `set`, `delete` and `clear`, the iteration is in the order of insertion in all states exactly
   if each new identifier finds its manufacturer new or last.
   */
  lemma {:induction false} IterationOrderExactly<T>(m: Nested<T>, edits: seq<Edit<T>>)
    requires WellFormed(m)
    ensures IteratesAsInserted(m, IdsOf(Entries(m)), edits) <==> InsertsInTurn(m, edits)
    decreases |edits|
  {
    hide WellFormed, Edited, Entries, Reordered, Find;
    if edits != [] {
      var m' := Edited(m, edits[0]);
      EditKeepsOrder(m, edits[0]);
      IterationOrderExactly(m', edits[1..]);
    }
  }

  lemma ThreeInserted(a: JsString, b: JsString, one: JsString, two: JsString)
    requires a != b && one != two
    ensures Put([], AgvId(a, one), 0) == [(a, [(one, 0)])]
    ensures Put([(a, [(one, 0)])], AgvId(b, one), 1) == [(a, [(one, 0)]), (b, [(one, 1)])]
    ensures Put([(a, [(one, 0)]), (b, [(one, 1)])], AgvId(a, two), 2) == [(a, [(one, 0), (two, 2)]), (b, [(one, 1)])]
  {
    var m1: Nested<int> := [(a, [(one, 0)])];
    var m2: Nested<int> := [(a, [(one, 0)]), (b, [(one, 1)])];
    PutNewGroup([], AgvId(a, one), 0);
    assert Find(m1, b) == 1;
    PutNewGroup(m1, AgvId(b, one), 1);
    assert Find(m2, a) == 0 && Find(m2[0].1, two) == 1;
    PutInGroup(m2, AgvId(a, two), 2);
    assert [(one, 0)] + [(two, 2)] == [(one, 0), (two, 2)];
  }

  lemma ThreeIterated(a: JsString, b: JsString, one: JsString, two: JsString)
    ensures Entries([(a, [(one, 0), (two, 2)]), (b, [(one, 1)])]) ==
            [(AgvId(a, one), 0), (AgvId(a, two), 2), (AgvId(b, one), 1)]
  {
    var inner: OrderedMap<JsString, int> := [(one, 0), (two, 2)];
    EntriesConcat([(a, inner)], [(b, [(one, 1)])]);
    assert [(a, inner)] + [(b, [(one, 1)])] == [(a, inner), (b, [(one, 1)])];
    EntriesOne(a, inner);
    EntriesOne(b, [(one, 1)]);
    assert Group(a, inner) == [(AgvId(a, one), 0), (AgvId(a, two), 2)];
    assert Group(b, [(one, 1)]) == [(AgvId(b, one), 1)];
  }

  /** Two AGVs of one manufacturer with one of another in between are not iterated as inserted. */
  method OutOfInsertionOrder() returns (entries: seq<(AgvId, int)>)
    ensures entries == [(AgvId(Js("A"), Js("1")), 0), (AgvId(Js("A"), Js("2")), 2), (AgvId(Js("B"), Js("1")), 1)]
  {
    hide Put, Entries, WellFormed, Flat;
    var a, b, one, two := Js("A"), Js("B"), Js("1"), Js("2");
    assert a[0] != b[0] && one[0] != two[0];
    ThreeInserted(a, b, one, two);
    ThreeIterated(a, b, one, two);
    var states := new AgvIdMap<int>();
    states.Set(AgvId(a, one), 0);
    states.Set(AgvId(b, one), 1);
    states.Set(AgvId(a, two), 2);
    entries := states.Iterate();
  }

  class AgvIdMap<T> {
    var nested: Nested<T>

    ghost predicate Valid()
      reads this
    {
      WellFormed(nested)
    }

    ghost function Contents(): map<AgvId, T>
      reads this
      requires Valid()
    {
      Flat(nested)
    }

    constructor ()
      ensures Valid() && Contents() == map[] && nested == []
    {
      nested := [];
    }

    /** Adds up the sizes of the inner maps. */
    method Size() returns (size: nat)
      requires Valid()
      ensures size == |Contents()|
    {
      size := 0;
      var i := 0;
      while i < |nested|
        invariant 0 <= i <= |nested| && size + |Entries(nested[i..])| == |Entries(nested)|
      {
        assert nested[i..][1..] == nested[i + 1..];
        size := size + |nested[i].1|;
        i := i + 1;
      }
    }

    method Get(id: AgvId) returns (v: Option<T>)
      requires Valid()
      ensures v == if id in Contents() then Some(Contents()[id]) else None
    {
      var inner := JsMap.Get(nested, id.manufacturer);
      if inner == None {
        return None;
      }
      v := JsMap.Get(inner.value, id.serialNumber);
    }

    method Set(id: AgvId, v: T)
      requires Valid()
      modifies this
      ensures Valid() && Contents() == old(Contents())[id := v] && nested == Put(old(nested), id, v)
    {
      PutRefinesFlat(nested, id, v);
      SetTwice(nested, id.manufacturer, [], JsMap.Set(Inner(nested, id.manufacturer), id.serialNumber, v));
      var inner := JsMap.Get(nested, id.manufacturer);
      if inner == None {
        nested := JsMap.Set(nested, id.manufacturer, []);
        inner := Some([]);
      }
      nested := JsMap.Set(nested, id.manufacturer, JsMap.Set(inner.value, id.serialNumber, v));
    }

    method Delete(id: AgvId)
      requires Valid()
      modifies this
      ensures Valid() && Contents() == old(Contents()) - {id} && nested == Remove(old(nested), id)
    {
      RemoveRefinesFlat(nested, id);
      SetThenDelete(nested, id.manufacturer, []);
      var inner := JsMap.Get(nested, id.manufacturer);
      if inner == None {
        return;
      }
      var rest := JsMap.Delete(inner.value, id.serialNumber);
      nested := JsMap.Set(nested, id.manufacturer, rest);
      if rest == [] {
        nested := JsMap.Delete(nested, id.manufacturer);
      }
    }

    method Clear()
      modifies this
      ensures Valid() && Contents() == map[] && nested == []
    {
      nested := [];
    }

    /** The inner loop of the iteration. */
    static method IterateGroup(manufacturer: JsString, inner: OrderedMap<JsString, T>) returns (entries: seq<(AgvId, T)>)
      ensures entries == Group(manufacturer, inner)
    {
      entries := [];
      var j := 0;
      while j < |inner|
        invariant 0 <= j <= |inner| && entries == Group(manufacturer, inner)[..j]
      {
        entries := entries + [(AgvId(manufacturer, inner[j].0), inner[j].1)];
        j := j + 1;
      }
    }

    /** The pairs that a for-of loop visits. */
    method Iterate() returns (entries: seq<(AgvId, T)>)
      requires Valid()
      ensures entries == Entries(nested) && Distinct(entries) && |entries| == |Contents()|
    {
      hide WellFormed, Flat;
      entries := [];
      var i := 0;
      while i < |nested|
        invariant 0 <= i <= |nested| && entries + Entries(nested[i..]) == Entries(nested)
      {
        var group := IterateGroup(nested[i].0, nested[i].1);
        entries := entries + group;
        assert nested[i..][1..] == nested[i + 1..];
        i := i + 1;
      }
      EntriesDistinct(nested);
    }
  }
}
