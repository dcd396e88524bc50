/** The index of subscriptions and the flat collection of live subscriptions that it stands for. */
module SubscriptionManager {
  import opened Wrappers
  import opened JsMap
  import opened JsString
  import opened MqttUtils
  import opened TopicFormat
  import opened SubscriptionTrie

  datatype Subscription = Subscription(pattern: Path, handler: Handler)

  /** The live subscriptions. */
  type Live = map<Id, Subscription>

  datatype Added = Added(id: Id, mqttTopic: JsString, requiresSubscribe: bool)

  datatype Removed = Removed(mqttTopic: JsString, requiresUnsubscribe: bool)

  function Patterns(live: Live): set<Path> {
    set id | id in live :: live[id].pattern
  }

  /** The MQTT filters of the live subscriptions. */
  function Filters(f: Format, live: Live): set<JsString>
    requires |f.indices| == 5
  {
    set id | id in live :: Filter(f, live[id].pattern)
  }

  /* What is found */

  /**
   How often a subscription is found: not at all if it does not apply; otherwise once, and twice as often for
   each property that could not be resolved.
   */
  function Expected(live: Live, path: Path, id: Id, h: Handler): nat {
    if id in live && live[id].handler == h && Applies(live[id].pattern, path) then Pow2(Undefined(path, 3)) else 0
  }

  predicate Resolved(path: Path) {
    path[0].Some? && path[1].Some? && path[2].Some?
  }

  /** Exactly the live subscriptions that apply, with the multiplicities above. */
  ghost predicate FindsExpected(found: seq<(Id, Handler)>, live: Live, path: Path) {
    forall id, h :: multiset(found)[(id, h)] == Expected(live, path, id, h)
  }

  /** Once each. */
  ghost predicate FindsOnce(found: seq<(Id, Handler)>, live: Live, path: Path) {
    && (forall i, j :: 0 <= i < j < |found| ==> found[i].0 != found[j].0)
    && (forall id, h :: (id, h) in found <==> id in live && live[id].handler == h && Applies(live[id].pattern, path))
  }

  lemma {:induction false} TwiceCounts<T>(s: seq<T>, i: nat, j: nat)
    requires i < j < |s| && s[i] == s[j]
    ensures multiset(s)[s[i]] >= 2
  {
    assert s == s[..j] + s[j..];
    assert s[..j][i] == s[i] && s[j..][0] == s[i];
    assert multiset(s)[s[i]] == multiset(s[..j])[s[i]] + multiset(s[j..])[s[i]];
  }

  lemma UndefinedProperties(path: Path)
    ensures Undefined(path, 3) == 0 <==> Resolved(path)
  {
    assert Undefined(path, 3) == Undefined(path, 2) + if path[2] == None then 1 else 0;
    assert Undefined(path, 2) == Undefined(path, 1) + if path[1] == None then 1 else 0;
    assert Undefined(path, 1) == if path[0] == None then 1 else 0;
  }

  lemma OnceEach(found: seq<(Id, Handler)>, live: Live, path: Path, i: nat)
    requires FindsExpected(found, live, path) && Resolved(path) && i < |found|
    ensures found[i].0 in live && found[i].1 == live[found[i].0].handler && multiset(found)[found[i]] == 1
  {
    UndefinedProperties(path);
    assert (found[i].0, found[i].1) in found;
    assert multiset(found)[(found[i].0, found[i].1)] == Expected(live, path, found[i].0, found[i].1);
  }

  /** The lookup is the simple filter if all three properties are resolved. */
  lemma ResolvedFindsOnce(found: seq<(Id, Handler)>, live: Live, path: Path)
    requires FindsExpected(found, live, path) && Resolved(path)
    ensures FindsOnce(found, live, path)
  {
    UndefinedProperties(path);
    forall id: Id, h: Handler ensures (id, h) in found <==> Expected(live, path, id, h) == 1 {
      assert (id, h) in found <==> multiset(found)[(id, h)] > 0;
      assert multiset(found)[(id, h)] == Expected(live, path, id, h);
    }
    forall i, j | 0 <= i < j < |found| ensures found[i].0 != found[j].0 {
      OnceEach(found, live, path, i);
      OnceEach(found, live, path, j);
      if found[i] == found[j] {
        TwiceCounts(found, i, j);
      }
    }
  }

  /** A subscription that applies is found exactly once precisely if all three properties are resolved. */
  lemma OnceExactlyIfResolved(found: seq<(Id, Handler)>, live: Live, path: Path, id: Id)
    requires FindsExpected(found, live, path)
    requires id in live && Applies(live[id].pattern, path)
    ensures multiset(found)[(id, live[id].handler)] == 1 <==> Resolved(path)
  {
    UndefinedProperties(path);
    assert multiset(found)[(id, live[id].handler)] == Expected(live, path, id, live[id].handler);
  }

  /* Entries and topics of leaves */

  /** The entries of each leaf. */
  type Entries = map<SubMap, OrderedMap<Id, Handler>>

  /** The entries of a list of leaves, one after the other. */
  function EntriesOf(leaves: seq<SubMap>, entries: Entries): seq<(Id, Handler)> {
    if leaves == [] then []
    else (if leaves[0] in entries then entries[leaves[0]] else []) + EntriesOf(leaves[1..], entries)
  }

  lemma {:induction false} EntriesOfConcat(a: seq<SubMap>, b: seq<SubMap>, entries: Entries)
    ensures EntriesOf(a + b, entries) == EntriesOf(a, entries) + EntriesOf(b, entries)
  {
    if a == [] {
      assert a + b == b;
    } else {
      assert (a + b)[1..] == a[1..] + b;
      EntriesOfConcat(a[1..], b, entries);
    }
  }

  ghost predicate Listed(leaves: seq<SubMap>, entries: Entries) {
    forall i :: 0 <= i < |leaves| ==> leaves[i] in entries
  }

  /** An entry of one leaf only is counted once for each visit of that leaf. */
  lemma {:induction false} VisitedEntries(leaves: seq<SubMap>, entries: Entries, l: SubMap, e: (Id, Handler))
    requires Listed(leaves, entries) && l in entries && multiset(entries[l])[e] == 1
    requires forall i :: 0 <= i < |leaves| && leaves[i] != l ==> e !in entries[leaves[i]]
    ensures multiset(EntriesOf(leaves, entries))[e] == multiset(leaves)[l]
  {
    if leaves != [] {
      assert leaves == [leaves[0]] + leaves[1..];
      VisitedEntries(leaves[1..], entries, l, e);
      assert multiset(entries[leaves[0]])[e] == if leaves[0] == l then 1 else 0;
    }
  }

  lemma {:induction false} NoEntries(leaves: seq<SubMap>, entries: Entries, e: (Id, Handler))
    requires Listed(leaves, entries) && forall i :: 0 <= i < |leaves| ==> e !in entries[leaves[i]]
    ensures multiset(EntriesOf(leaves, entries))[e] == 0
  {
    if leaves != [] {
      NoEntries(leaves[1..], entries, e);
    }
  }

  /** The filters of the leaves that hold subscriptions. */
  ghost function TopicsOf(f: Format, leaves: seq<SubMap>, entries: Entries): seq<JsString>
    requires |f.indices| == 5
  {
    if leaves == [] then []
    else
      (if leaves[0] in entries && entries[leaves[0]] != [] then [Filter(f, leaves[0].pattern)] else [])
      + TopicsOf(f, leaves[1..], entries)
  }

  /** The patterns of the leaves that hold subscriptions. */
  ghost function UsedPatterns(leaves: seq<SubMap>, entries: Entries): seq<Path> {
    if leaves == [] then []
    else
      (if leaves[0] in entries && entries[leaves[0]] != [] then [leaves[0].pattern] else [])
      + UsedPatterns(leaves[1..], entries)
  }

  lemma {:induction false} TopicsAreFilters(f: Format, leaves: seq<SubMap>, entries: Entries)
    requires |f.indices| == 5
    ensures TopicsOf(f, leaves, entries) == FiltersOf(f, UsedPatterns(leaves, entries))
  {
    hide Filter;
    if leaves != [] {
      TopicsAreFilters(f, leaves[1..], entries);
    }
  }

  lemma {:induction false} TopicsOfConcat(f: Format, a: seq<SubMap>, b: seq<SubMap>, entries: Entries)
    requires |f.indices| == 5
    ensures TopicsOf(f, a + b, entries) == TopicsOf(f, a, entries) + TopicsOf(f, b, entries)
  {
    hide Filter;
    if a == [] {
      assert a + b == b;
    } else {
      assert (a + b)[1..] == a[1..] + b;
      TopicsOfConcat(f, a[1..], b, entries);
    }
  }

  lemma {:induction false} UsedPatternsAre(leaves: seq<SubMap>, entries: Entries, p: Path)
    requires Listed(leaves, entries)
    ensures p in UsedPatterns(leaves, entries) <==>
            exists i :: 0 <= i < |leaves| && leaves[i].pattern == p && entries[leaves[i]] != []
  {
    if leaves != [] {
      UsedPatternsAre(leaves[1..], entries, p);
      if exists i :: 0 <= i < |leaves| && leaves[i].pattern == p && entries[leaves[i]] != [] {
        var i :| 0 <= i < |leaves| && leaves[i].pattern == p && entries[leaves[i]] != [];
        if i > 0 {
          assert leaves[1..][i - 1] == leaves[i];
        }
      }
    }
  }

  lemma {:induction false} UsedPatternsDiffer(leaves: seq<SubMap>, entries: Entries)
    requires Listed(leaves, entries) && PatternsDiffer(leaves)
    ensures var ps := UsedPatterns(leaves, entries); forall i, j :: 0 <= i < j < |ps| ==> ps[i] != ps[j]
  {
    if leaves != [] {
      assert PatternsDiffer(leaves[1..]);
      UsedPatternsDiffer(leaves[1..], entries);
      UsedPatternsAre(leaves[1..], entries, leaves[0].pattern);
    }
  }

  function FiltersOf(f: Format, patterns: seq<Path>): (r: seq<JsString>)
    requires |f.indices| == 5
    ensures |r| == |patterns| && forall i :: 0 <= i < |r| ==> r[i] == Filter(f, patterns[i])
  {
    seq(|patterns|, i requires 0 <= i < |patterns| => Filter(f, patterns[i]))
  }

  /** The filters of all live subscriptions, one for each pattern in use. */
  ghost predicate ListsFilters(f: Format, live: Live, topics: seq<JsString>, patterns: seq<Path>)
    requires |f.indices| == 5
  {
    && topics == FiltersOf(f, patterns)
    && (forall i, j :: 0 <= i < j < |patterns| ==> patterns[i] != patterns[j])
    && (forall p :: p in patterns <==> p in Patterns(live))
  }

  lemma ListedAreFilters(f: Format, live: Live, topics: seq<JsString>, patterns: seq<Path>)
    requires |f.indices| == 5 && ListsFilters(f, live, topics, patterns)
    ensures (set i | 0 <= i < |topics| :: topics[i]) == Filters(f, live)
  {
    forall i | 0 <= i < |topics| ensures topics[i] in Filters(f, live) {
      assert patterns[i] in Patterns(live);
    }
    forall id | id in live ensures exists i :: 0 <= i < |topics| && topics[i] == Filter(f, live[id].pattern) {
      assert live[id].pattern in patterns;
      var i :| 0 <= i < |patterns| && patterns[i] == live[id].pattern;
      assert topics[i] == Filter(f, live[id].pattern);
    }
  }

  /** With all placeholders in the format, every filter is listed once. */
  lemma ListedOnce(f: Format, live: Live, topics: seq<JsString>, patterns: seq<Path>)
    requires Compiled(f) && Full(f) && ListsFilters(f, live, topics, patterns)
    requires forall id :: id in live ==> ValidPath(live[id].pattern)
    ensures forall i, j :: 0 <= i < j < |topics| ==> topics[i] != topics[j]
  {
    forall i, j | 0 <= i < j < |topics| ensures topics[i] != topics[j] {
      assert patterns[i] in Patterns(live) && patterns[j] in Patterns(live);
      if topics[i] == topics[j] {
        FullInjective(f, patterns[i], patterns[j]);
      }
    }
  }

  /* Invariants of the index, on values */

  /** The handlers of each leaf. */
  type Contents = map<SubMap, map<Id, Handler>>

  /** The leaves of the trie, as the paths tell. */
  ghost predicate Hang(t: Trie, leaves: set<SubMap>) {
    && Shaped(t, 3, [])
    && (forall l :: l in leaves ==> Lookup(t, 3, l.pattern) == Some(l))
    && (forall p: Path :: Lookup(t, 3, p).Some? ==> Lookup(t, 3, p).value in leaves)
  }

  /** The live subscriptions are those that the leaves of their patterns hold. */
  ghost predicate Hold(ids: map<Id, SubMap>, live: Live, contents: Contents) {
    && (forall id :: id in ids ==> ids[id] in contents)
    && (forall id :: id in live ==>
          && id in ids && ids[id].pattern == live[id].pattern
          && id in contents[ids[id]] && contents[ids[id]][id] == live[id].handler)
    && (forall l, id :: l in contents && id in contents[l] ==> id in live && ids[id] == l)
  }

  lemma HangsAt(t: Trie, leaves: set<SubMap>, path: Path)
    requires Hang(t, leaves) && Lookup(t, 3, path).Some?
    ensures Lookup(t, 3, path).value in leaves && Lookup(t, 3, path).value.pattern == path
  {
    LookupHits(t, 3, [], path);
  }

  lemma InsertHangs(t: Trie, leaves: set<SubMap>, path: Path, l: SubMap)
    requires Hang(t, leaves) && Lookup(t, 3, path) == None && l.pattern == path
    ensures Hang(Insert(t, 3, path, l), leaves + {l})
  {
    hide Shaped, Insert, Lookup, Agree;
    InsertShaped(t, 3, [], path, l);
    forall p: Path ensures Lookup(Insert(t, 3, path, l), 3, p) == if p == path then Some(l) else Lookup(t, 3, p) {
      InsertLooksUp(t, 3, [], path, l, p);
      AgreeAll(path, p);
    }
  }

  lemma AgreeAll(p: Path, q: Path)
    ensures Agree(p, q, 3) <==> p == q
  {
    assert Agree(p, q, 3) <==> Agree(p, q, 2) && p[2] == q[2];
    assert Agree(p, q, 2) <==> Agree(p, q, 1) && p[1] == q[1];
    assert Agree(p, q, 1) <==> p[0] == q[0];
  }

  lemma NewLeafHangs(t: Trie, contents: Contents, path: Path, l: SubMap)
    requires Hang(t, contents.Keys) && Lookup(t, 3, path) == None && l.pattern == path
    ensures Hang(Insert(t, 3, path, l), contents[l := map[]].Keys)
  {
    InsertHangs(t, contents.Keys, path, l);
    assert contents[l := map[]].Keys == contents.Keys + {l};
  }

  lemma NewLeafHolds(ids: map<Id, SubMap>, live: Live, contents: Contents, l: SubMap)
    requires Hold(ids, live, contents) && l !in contents
    ensures Hold(ids, live, contents[l := map[]]) && contents[l := map[]].Keys == contents.Keys + {l}
  {
  }

  lemma NewLeafKeys(contents: Contents, l: SubMap)
    ensures contents[l := map[]].Keys == contents.Keys + {l}
  {
  }

  lemma EnterHolds(ids: map<Id, SubMap>, live: Live, contents: Contents, l: SubMap, id: Id, h: Handler)
    requires Hold(ids, live, contents) && l in contents && id !in ids
    ensures id !in contents[l]
    ensures Hold(ids[id := l], live[id := Subscription(l.pattern, h)], contents[l := contents[l][id := h]])
    ensures contents[l := contents[l][id := h]].Keys == contents.Keys
  {
  }

  /** The ids of live subscriptions are those that some leaf holds. */
  lemma HeldIds(ids: map<Id, SubMap>, live: Live, contents: Contents, id: Id)
    requires Hold(ids, live, contents)
    ensures id in ids ==> ids[id] in contents
    ensures id in live <==> id in ids && id in contents[ids[id]]
    ensures id in live ==> ids[id].pattern == live[id].pattern
  {
  }

  lemma LeaveHolds(ids: map<Id, SubMap>, live: Live, contents: Contents, id: Id)
    requires Hold(ids, live, contents) && id in live
    ensures ids[id] in contents && id in contents[ids[id]]
    ensures Hold(ids, live - {id}, contents[ids[id] := contents[ids[id]] - {id}])
    ensures contents[ids[id] := contents[ids[id]] - {id}].Keys == contents.Keys
  {
  }

  lemma NothingRepresents()
    ensures Represents([], map[])
  {
  }

  lemma NotEmpty(m: map<Id, Handler>)
    ensures m == map[] || exists id :: id in m
  {
    if forall id :: id !in m {
      assert m == map[];
    }
  }

  /** A leaf holds subscriptions exactly if its pattern is in use. */
  lemma InUse(t: Trie, ids: map<Id, SubMap>, live: Live, contents: Contents, l: SubMap)
    requires Hang(t, contents.Keys) && Hold(ids, live, contents) && l in contents
    ensures contents[l] != map[] <==> l.pattern in Patterns(live)
  {
    if contents[l] != map[] {
      NotEmpty(contents[l]);
      var id :| id in contents[l];
      assert live[id].pattern == l.pattern;
    }
    if l.pattern in Patterns(live) {
      var id :| id in live && live[id].pattern == l.pattern;
      assert Lookup(t, 3, l.pattern) == Some(ids[id]);
    }
  }

  class SubscriptionManager {
    const topics: MqttTopics
    var subscriptions: Trie
    // Every id added since the last clear, with the leaf that holds or held it.
    var subscriptionIds: map<Id, SubMap>
    ghost var live: Live
    // The entries of each leaf.
    ghost var contents: Contents

    ghost predicate Tied()
      reads this, contents.Keys
    {
      forall l :: l in contents ==> Represents(l.entries, contents[l])
    }

    /** Every leaf knows the filter of its pattern. */
    ghost predicate Named()
      reads this, contents.Keys
    {
      && |topics.format.indices| == 5
      && forall l :: l in contents ==> l.mqttTopic == Some(Filter(topics.format, l.pattern))
    }

    /** The same but for one leaf. */
    ghost predicate NamedBut(but: SubMap)
      reads this, contents.Keys
    {
      && |topics.format.indices| == 5
      && forall l :: l in contents && l != but ==> l.mqttTopic == Some(Filter(topics.format, l.pattern))
    }

    ghost predicate Valid()
      reads this, topics, topics.levels, contents.Keys
    {
      && topics.Valid() && Tied() && Named()
      && Hang(subscriptions, contents.Keys) && Hold(subscriptionIds, live, contents)
    }

    constructor (format: Format)
      requires Compiled(format)
      ensures Valid() && topics.format == format && live == map[] && contents == map[] && subscriptionIds == map[]
      ensures fresh(topics) && fresh(topics.levels)
    {
      topics := new MqttTopics(format);
      subscriptions := Inner([]);
      subscriptionIds := map[];
      live := map[];
      contents := map[];
    }

    method Clear()
      requires Valid()
      modifies this
      ensures Valid() && live == map[] && contents == map[] && subscriptionIds == map[]
    {
      subscriptions := Inner([]);
      subscriptionIds := map[];
      live := map[];
      contents := map[];
    }

    method GetMqttTopic(path: Path) returns (mqttTopic: JsString)
      requires topics.Valid()
      modifies topics.levels
      ensures topics.Valid() && mqttTopic == Filter(topics.format, path)
    {
      mqttTopic := topics.Construct(OrWildcard(path[0]), OrWildcard(path[1]), OrWildcard(path[2]));
    }

    method GetMqttTopicUtf8Length(path: Path) returns (length: nat)
      requires topics.Valid()
      modifies topics.levels
      ensures topics.Valid() && length == Count(Filter(topics.format, path))
    {
      length := topics.Utf8Length(OrWildcard(path[0]), OrWildcard(path[1]), OrWildcard(path[2]));
    }

    /** Hangs a leaf, which holds nothing yet. */
    method Attach(subIdsMap: SubMap, path: Path)
      requires Hang(subscriptions, contents.Keys) && Hold(subscriptionIds, live, contents)
      requires Lookup(subscriptions, 3, path) == None && subIdsMap !in contents && subIdsMap.pattern == path
      modifies this`subscriptions, this`contents
      ensures Hang(subscriptions, contents.Keys) && Hold(subscriptionIds, live, contents)
      ensures contents == old(contents)[subIdsMap := map[]]
    {
      hide Represents, Hang, Hold, Lookup, Insert, Filter, Compiled, Patterns;
      NewLeafHangs(subscriptions, contents, path, subIdsMap);
      NewLeafHolds(subscriptionIds, live, contents, subIdsMap);
      subscriptions := Insert(subscriptions, 3, path, subIdsMap);
      contents := contents[subIdsMap := map[]];
    }

    /** Creates the leaf of a path that has none. */
    method Grow(path: Path) returns (subIdsMap: SubMap)
      requires Valid() && Lookup(subscriptions, 3, path) == None
      modifies this`subscriptions, this`contents
      ensures Hang(subscriptions, contents.Keys) && Hold(subscriptionIds, live, contents)
      ensures Tied() && NamedBut(subIdsMap) && subIdsMap.pattern == path && fresh(subIdsMap)
      ensures contents == old(contents)[subIdsMap := map[]]
    {
      hide Represents, MqttTopics.Valid, Hang, Hold, Lookup, Filter, Compiled, Patterns;
      subIdsMap := new SubMap(path);
      NothingRepresents();
      Attach(subIdsMap, path);
    }

    /** The leaf of a path, which is created if there is none yet. */
    method Descend(path: Path) returns (subIdsMap: SubMap)
      requires Valid()
      modifies this`subscriptions, this`contents
      ensures Hang(subscriptions, contents.Keys) && Hold(subscriptionIds, live, contents) && Tied()
      ensures subIdsMap in contents && subIdsMap.pattern == path
      ensures NamedBut(subIdsMap) && (contents[subIdsMap] != map[] ==> Named())
      ensures contents[subIdsMap] != map[] <==> path in Patterns(live)
      ensures contents.Keys == old(contents.Keys) || (contents.Keys == old(contents.Keys) + {subIdsMap} && fresh(subIdsMap))
    {
      hide Represents, MqttTopics.Valid, Hang, Hold, Lookup, Insert, Filter, Compiled, Patterns;
      var found := Lookup(subscriptions, 3, path);
      if found.Some? {
        subIdsMap := found.value;
        HangsAt(subscriptions, contents.Keys, path);
      } else {
        ghost var before := contents;
        subIdsMap := Grow(path);
        NewLeafKeys(before, subIdsMap);
      }
      InUse(subscriptions, subscriptionIds, live, contents, subIdsMap);
    }

    /** Enters a subscription under a fresh id into the leaf of its pattern. */
    method Enter(subIdsMap: SubMap, id: Id, handler: Handler)
      requires Tied() && Hold(subscriptionIds, live, contents) && subIdsMap in contents && id !in subscriptionIds
      modifies this`subscriptionIds, this`live, this`contents, subIdsMap`entries
      ensures Tied() && Hold(subscriptionIds, live, contents) && contents.Keys == old(contents.Keys)
      ensures subscriptionIds == old(subscriptionIds)[id := subIdsMap]
      ensures live == old(live)[id := Subscription(subIdsMap.pattern, handler)]
      ensures |subIdsMap.entries| == |old(contents)[subIdsMap]| + 1
    {
      hide Represents, Hold;
      EnterHolds(subscriptionIds, live, contents, subIdsMap, id, handler);
      SetRepresents(subIdsMap.entries, contents[subIdsMap], id, handler);
      subscriptionIds := subscriptionIds[id := subIdsMap];
      subIdsMap.entries := Set(subIdsMap.entries, id, handler);
      live := live[id := Subscription(subIdsMap.pattern, handler)];
      contents := contents[subIdsMap := contents[subIdsMap][id := handler]];
    }

    /** Stores the topic of a leaf with it. */
    method Name(subIdsMap: SubMap, path: Path) returns (mqttTopic: JsString)
      requires topics.Valid() && Tied() && subIdsMap in contents && subIdsMap.pattern == path && NamedBut(subIdsMap)
      modifies topics.levels, subIdsMap`mqttTopic
      ensures topics.Valid() && Tied() && Named() && mqttTopic == Filter(topics.format, path)
    {
      mqttTopic := GetMqttTopic(path);
      subIdsMap.mqttTopic := Some(mqttTopic);
    }

    /** Enters a subscription; the leaf may still lack its topic. */
    method Place(path: Path, handler: Handler, id: Id) returns (subIdsMap: SubMap)
      requires Valid() && id !in subscriptionIds
      modifies this, contents.Keys
      ensures topics.Valid() && Tied() && NamedBut(subIdsMap)
      ensures Hang(subscriptions, contents.Keys) && Hold(subscriptionIds, live, contents)
      ensures subIdsMap in contents && subIdsMap.pattern == path
      ensures contents.Keys == old(contents.Keys) || (contents.Keys == old(contents.Keys) + {subIdsMap} && fresh(subIdsMap))
      ensures live == old(live)[id := Subscription(path, handler)]
      ensures subscriptionIds == old(subscriptionIds)[id := subIdsMap]
      ensures |subIdsMap.entries| == 1 <==> path !in Patterns(old(live))
      ensures |subIdsMap.entries| != 1 ==> Named()
    {
      hide Represents, MqttTopics.Valid, Hang, Hold, Lookup, Insert, Filter, Compiled, Patterns;
      subIdsMap := Descend(path);
      Enter(subIdsMap, id, handler);
    }

    /** Adds a subscription whose topic is short enough. */
    method Register(path: Path, handler: Handler, id: Id) returns (added: Added)
      requires Valid() && id !in subscriptionIds
      modifies this, topics.levels, contents.Keys
      ensures Valid() && (forall l :: l in contents ==> l in old(contents) || fresh(l))
      ensures live == old(live)[id := Subscription(path, handler)]
      ensures subscriptionIds.Keys == old(subscriptionIds.Keys) + {id}
      ensures added == Added(id, Filter(topics.format, path), path !in Patterns(old(live)))
    {
      hide Represents, MqttTopics.Valid, Hang, Hold, Lookup, Insert, Filter, Compiled, Patterns;
      var subIdsMap := Place(path, handler, id);
      if |subIdsMap.entries| == 1 {
        var mqttTopic := Name(subIdsMap, path);
        added := Added(id, mqttTopic, true);
      } else {
        added := Added(id, subIdsMap.mqttTopic.value, false);
      }
    }

    /** Adds a subscription under a fresh id. */
    method Add(path: Path, handler: Handler, id: Id) returns (r: Result<Added, Error>)
      requires Valid() && id !in subscriptionIds
      modifies this, topics.levels, contents.Keys
      ensures Valid() && (forall l :: l in contents ==> l in old(contents) || fresh(l))
      ensures r.Err? <==> Count(Filter(topics.format, path)) > 65535
      ensures r.Err? ==> live == old(live) && subscriptionIds == old(subscriptionIds)
      ensures r.Ok? ==> live == old(live)[id := Subscription(path, handler)]
                        && subscriptionIds.Keys == old(subscriptionIds.Keys) + {id}
                        && r.value == Added(id, Filter(topics.format, path), path !in Patterns(old(live)))
    {
      hide Represents, MqttTopics.Valid, Hang, Hold, Lookup, Insert, Filter, Compiled, Patterns;
      var length := GetMqttTopicUtf8Length(path);
      var short := AssertMqttTopicUtf8Count(length);
      if short.Err? {
        return Err(short.error);
      }
      var added := Register(path, handler, id);
      r := Ok(added);
    }

    /** Removes a live subscription; None for any other id. */
    method Remove(id: Id) returns (r: Option<Removed>)
      requires Valid()
      modifies this`live, this`contents, contents.Keys
      ensures Valid() && live == old(live) - {id} && contents.Keys == old(contents.Keys)
      ensures r == if id !in old(live) then None
                   else Some(Removed(Filter(topics.format, old(live)[id].pattern),
                                     old(live)[id].pattern !in Patterns(live)))
    {
      hide Represents, MqttTopics.Valid, Hang, Hold, Lookup, Insert, Filter, Compiled, Patterns;
      HeldIds(subscriptionIds, live, contents, id);
      if id in subscriptionIds {
        DeleteRepresents(subscriptionIds[id].entries, contents[subscriptionIds[id]], id);
      }
      if id !in subscriptionIds || Get(subscriptionIds[id].entries, id) == None {
        assert live == live - {id};
        return None;
      }
      var subIdsMap := subscriptionIds[id];
      LeaveHolds(subscriptionIds, live, contents, id);
      subIdsMap.entries := Delete(subIdsMap.entries, id);
      live := live - {id};
      contents := contents[subIdsMap := contents[subIdsMap] - {id}];
      InUse(subscriptions, subscriptionIds, live, contents, subIdsMap);
      r := Some(Removed(subIdsMap.mqttTopic.value, |subIdsMap.entries| == 0));
    }

    /** The entries of the leaves at this time. */
    ghost function Snapshot(): (e: Entries)
      reads this, contents.Keys
      ensures e.Keys == contents.Keys && forall l :: l in e ==> e[l] == l.entries
    {
      map l | l in contents :: l.entries
    }

    /* Lookup */

    lemma LeafTied(l: SubMap, id: Id, h: Handler)
      requires Tied() && Hold(subscriptionIds, live, contents) && l in contents
      ensures multiset(l.entries)[(id, h)] == if At(contents[l], id) == Some(h) then 1 else 0
      ensures (id, h) in l.entries ==> id in live && live[id].handler == h && subscriptionIds[id] == l
    {
      EntriesCount(l.entries, contents[l], id, h);
      assert (id, h) in l.entries <==> multiset(l.entries)[(id, h)] > 0;
    }

    lemma FoundAreLeaves(path: Path)
      requires Hang(subscriptions, contents.Keys)
      ensures forall i :: 0 <= i < |Found(subscriptions, 3, path)| ==> Found(subscriptions, 3, path)[i] in contents
    {
      var found := Found(subscriptions, 3, path);
      forall i | 0 <= i < |found| ensures found[i] in contents {
        FoundCounts(subscriptions, 3, [], path, found[i]);
        assert multiset(found)[found[i]] > 0;
      }
    }

    lemma FoundIsExpected(path: Path, id: Id, h: Handler)
      requires Tied() && Hang(subscriptions, contents.Keys) && Hold(subscriptionIds, live, contents)
      ensures multiset(EntriesOf(Found(subscriptions, 3, path), Snapshot()))[(id, h)] == Expected(live, path, id, h)
    {
      hide Represents;
      var found := Found(subscriptions, 3, path);
      FoundAreLeaves(path);
      forall i | 0 <= i < |found|
        ensures (id, h) in found[i].entries ==> id in live && live[id].handler == h && subscriptionIds[id] == found[i]
      {
        LeafTied(found[i], id, h);
      }
      if id in live && live[id].handler == h {
        var l := subscriptionIds[id];
        LeafTied(l, id, h);
        VisitedEntries(found, Snapshot(), l, (id, h));
        FoundCounts(subscriptions, 3, [], path, l);
      } else {
        NoEntries(found, Snapshot(), (id, h));
      }
    }

    /** The generator of lookups, run to its end: it always follows wildcard subscriptions, too. */
    static method FindInternal(t: Trie, path: Path, pathIndex: int, ghost suffix: seq<Key>, ghost entries: Entries)
      returns (found: seq<(Id, Handler)>)
      requires pathIndex >= -1 && pathIndex + 1 + |suffix| == 3 && Shaped(t, pathIndex + 1, suffix)
      requires forall l :: l in entries ==> entries[l] == l.entries
      requires Listed(Found(t, pathIndex + 1, path), entries)
      ensures found == EntriesOf(Found(t, pathIndex + 1, path), entries)
      decreases pathIndex, 1
    {
      if pathIndex == -1 {
        assert Found(t, 0, path) == [t.leaf];
        return t.leaf.entries;
      }
      hide Found, Shaped;
      var key := path[pathIndex];
      FoundBranches(t, pathIndex + 1, path);
      ListedParts(Branch(t, pathIndex + 1, path, key), Branch(t, pathIndex + 1, path, None), entries);
      found := FindBelow(t, path, pathIndex, key, suffix, entries);
      var more := FindBelow(t, path, pathIndex, None, suffix, entries);
      found := found + more;
      EntriesOfConcat(Branch(t, pathIndex + 1, path, key), Branch(t, pathIndex + 1, path, None), entries);
    }

    static method FindBelow(t: Trie, path: Path, pathIndex: int, key: Key, ghost suffix: seq<Key>, ghost entries: Entries)
      returns (found: seq<(Id, Handler)>)
      requires pathIndex >= 0 && pathIndex + 1 + |suffix| == 3 && Shaped(t, pathIndex + 1, suffix)
      requires forall l :: l in entries ==> entries[l] == l.entries
      requires Listed(Branch(t, pathIndex + 1, path, key), entries)
      ensures found == EntriesOf(Branch(t, pathIndex + 1, path, key), entries)
      decreases pathIndex, 0
    {
      hide Found;
      found := [];
      var value := Child(t, key);
      if value != None {
        ChildShaped(t, pathIndex + 1, suffix, key);
        found := FindInternal(value.value, path, pathIndex - 1, [key] + suffix, entries);
      }
    }

    /** The subscriptions for an inbound message, and the communication topic that its MQTT topic tells. */
    method Find(mqttTopic: JsString, manufacturer: Key, serialNumber: Key)
      returns (handlers: seq<(Id, Handler)>, topic: Key)
      requires Valid()
      ensures var path := Resolve(topics.format, mqttTopic, manufacturer, serialNumber);
              FindsExpected(handlers, live, path) && topic == path[2]
    {
      hide Found, Represents, Filter;
      var path := Resolve(topics.format, mqttTopic, manufacturer, serialNumber);
      ghost var entries := Snapshot();
      FoundAreLeaves(path);
      forall id, h
        ensures multiset(EntriesOf(Found(subscriptions, 3, path), entries))[(id, h)] == Expected(live, path, id, h)
      {
        FoundIsExpected(path, id, h);
      }
      handlers := FindInternal(subscriptions, path, |path| - 1, [], entries);
      topic := path[2];
    }

    /* Listing */

    /** Every leaf is known with its entries and has its topic. */
    static ghost predicate Walkable(f: Format, entries: Entries)
      reads entries.Keys
    {
      && |f.indices| == 5
      && forall l :: l in entries ==> entries[l] == l.entries && l.mqttTopic == Some(Filter(f, l.pattern))
    }

    static method Walk(f: Format, t: Trie, mqttTopics: seq<JsString>, ghost n: nat, ghost suffix: seq<Key>,
                       ghost entries: Entries)
      returns (r: seq<JsString>)
      requires n + |suffix| == 3 && Shaped(t, n, suffix)
      requires Walkable(f, entries) && Listed(Leaves(t, n), entries)
      ensures r == mqttTopics + TopicsOf(f, Leaves(t, n), entries)
      decreases n, 1
    {
      hide Filter, LeavesBelow;
      match t
      case Leaf(leaf) =>
        r := mqttTopics;
        assert Leaves(t, n) == [leaf];
        if leaf.mqttTopic.Some? && |leaf.entries| > 0 {
          r := r + [leaf.mqttTopic.value];
        }
      case Inner(children) =>
        r := WalkBelow(f, children, mqttTopics, n, suffix, entries);
    }

    static method WalkBelow(f: Format, children: OrderedMap<Key, Trie>, mqttTopics: seq<JsString>,
                            ghost n: nat, ghost suffix: seq<Key>, ghost entries: Entries)
      returns (r: seq<JsString>)
      requires 0 < n && n + |suffix| == 3 && Shaped(Inner(children), n, suffix)
      requires Walkable(f, entries) && Listed(LeavesBelow(children, n - 1), entries)
      ensures r == mqttTopics + TopicsOf(f, LeavesBelow(children, n - 1), entries)
      decreases n, 0
    {
      hide Filter, Leaves, TopicsOf;
      r := mqttTopics;
      var i := 0;
      assert children[0..] == children;
      while i < |children|
        invariant 0 <= i <= |children| && Walkable(f, entries)
        invariant Listed(LeavesBelow(children[i..], n - 1), entries)
        invariant r + TopicsOf(f, LeavesBelow(children[i..], n - 1), entries) ==
                  mqttTopics + TopicsOf(f, LeavesBelow(children, n - 1), entries)
      {
        ghost var first, rest := Leaves(children[i].1, n - 1), LeavesBelow(children[i + 1..], n - 1);
        assert children[i..][1..] == children[i + 1..] && children[i..][0] == children[i];
        ListedParts(first, rest, entries);
        TopicsOfConcat(f, first, rest, entries);
        r := Walk(f, children[i].1, r, n - 1, [children[i].0] + suffix, entries);
        i := i + 1;
      }
      NoTopics(f, entries);
    }

    static lemma NoTopics(f: Format, entries: Entries)
      requires |f.indices| == 5
      ensures TopicsOf(f, [], entries) == []
    {
    }

    static lemma ListedParts(a: seq<SubMap>, b: seq<SubMap>, entries: Entries)
      requires Listed(a + b, entries)
      ensures Listed(a, entries) && Listed(b, entries)
    {
      assert forall i :: 0 <= i < |a| ==> (a + b)[i] == a[i];
      assert forall i :: 0 <= i < |b| ==> (a + b)[|a| + i] == b[i];
    }

    lemma LeavesList(leaves: seq<SubMap>)
      requires Hang(subscriptions, contents.Keys) && leaves == Leaves(subscriptions, 3)
      ensures PatternsDiffer(leaves) && forall l :: l in leaves <==> l in contents
    {
      LeavesDiffer(subscriptions, 3, []);
      forall l ensures l in leaves <==> l in contents {
        LeavesAreLookups(subscriptions, 3, [], l);
      }
    }

    /** The filters to be subscribed on a new connection, with the patterns that they stand for. */
    method GetAll() returns (mqttTopics: seq<JsString>, ghost patterns: seq<Path>)
      requires Valid()
      ensures ListsFilters(topics.format, live, mqttTopics, patterns)
      ensures (set i | 0 <= i < |mqttTopics| :: mqttTopics[i]) == Filters(topics.format, live)
    {
      hide Filter, Leaves, TopicsOf, Represents, UsedPatterns, FiltersOf, ListsFilters;
      ghost var leaves, entries := Leaves(subscriptions, 3), Snapshot();
      LeavesList(leaves);
      patterns := UsedPatterns(leaves, entries);
      WalkListsFilters(leaves);
      mqttTopics := Walk(topics.format, subscriptions, [], 3, [], entries);
      assert mqttTopics == TopicsOf(topics.format, leaves, entries);
      ListedAreFilters(topics.format, live, mqttTopics, patterns);
    }

    lemma WalkListsFilters(leaves: seq<SubMap>)
      requires |topics.format.indices| == 5
      requires Tied() && Hang(subscriptions, contents.Keys) && Hold(subscriptionIds, live, contents)
      requires PatternsDiffer(leaves) && forall l :: l in leaves <==> l in contents
      ensures ListsFilters(topics.format, live, TopicsOf(topics.format, leaves, Snapshot()),
                           UsedPatterns(leaves, Snapshot()))
    {
      hide Filter, Represents, Hang, Hold, UsedPatterns, TopicsOf;
      TopicsAreFilters(topics.format, leaves, Snapshot());
      UsedPatternsDiffer(leaves, Snapshot());
      forall p ensures p in UsedPatterns(leaves, Snapshot()) <==> p in Patterns(live) {
        UsedPatternsAre(leaves, Snapshot(), p);
        UsedByLive(leaves, p);
      }
    }

    lemma UsedByLive(leaves: seq<SubMap>, p: Path)
      requires Tied() && Hang(subscriptions, contents.Keys) && Hold(subscriptionIds, live, contents)
      requires forall l :: l in leaves <==> l in contents
      ensures p in Patterns(live) <==>
              exists i :: 0 <= i < |leaves| && leaves[i].pattern == p && Snapshot()[leaves[i]] != []
    {
      forall i | 0 <= i < |leaves| ensures leaves[i].entries != [] <==> leaves[i].pattern in Patterns(live) {
        InUse(subscriptions, subscriptionIds, live, contents, leaves[i]);
        EmptyTogether(leaves[i]);
      }
      if p in Patterns(live) {
        var id :| id in live && live[id].pattern == p;
        var i :| 0 <= i < |leaves| && leaves[i] == subscriptionIds[id];
      }
    }

    lemma EmptyTogether(l: SubMap)
      requires Tied() && l in contents
      ensures l.entries != [] <==> contents[l] != map[]
    {
    }
  }

  const OPEN_PATH: Path := [None, Some(Js("s")), Some(Js("t"))]

  lemma AnyIsShort()
    ensures Compiled(TOPIC_ONLY) && Count(Filter(TOPIC_ONLY, ANY)) <= 65535
  {
    TopicOnlyCompiles();
    TopicOnlyPrints(WILDCARD, WILDCARD, Js("t"));
    CountBounds(Js("t"));
  }

  lemma ManufacturerIsOpen()
    ensures Resolve(TOPIC_ONLY, Js("t"), None, Some(Js("s"))) == OPEN_PATH
  {
    assert Js("t") == [0x74] && NoSlash(Js("t"));
    SplitLevel(Js("t"));
  }

  lemma ExpectedTwice()
    ensures Expected(map[0 := Subscription(ANY, 7)], OPEN_PATH, 0, 7) == 2
  {
    var path := OPEN_PATH;
    assert Undefined(path, 3) == Undefined(path, 2) && Undefined(path, 2) == Undefined(path, 1);
    assert Undefined(path, 1) == 1;
    assert Pow2(1) == 2 * Pow2(0);
  }

  /** A message whose topic and header leave the manufacturer open finds a wildcard subscription twice. */
  method WildcardFoundTwice() returns (handlers: seq<(Id, Handler)>)
    ensures multiset(handlers)[(0, 7)] == 2
  {
    hide Filter, Count, Compiled, TOPIC_ONLY, ANY, OPEN_PATH, Resolve, Expected, MqttTopics.Valid, Hang, Hold, Represents;
    AnyIsShort();
    ManufacturerIsOpen();
    ExpectedTwice();
    var manager := new SubscriptionManager(TOPIC_ONLY);
    var added := manager.Add(ANY, 7, 0);
    assert manager.live == map[0 := Subscription(ANY, 7)];
    var topic;
    handlers, topic := manager.Find(Js("t"), None, Some(Js("s")));
    assert multiset(handlers)[(0, 7)] == Expected(manager.live, OPEN_PATH, 0, 7);
  }
}
