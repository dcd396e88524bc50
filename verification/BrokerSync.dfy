/**
 The protocol between client and broker: which (un)subscribe packets are sent when, and what the broker holds
 for the client's session.
 */
module BrokerSync {
  import opened Wrappers
  import opened JsString
  import opened MqttUtils
  import opened TopicFormat
  import opened SubscriptionTrie
  import opened SubscriptionManager

  /* Validation of topics and subjects */

  /** No U+0000, "+", "#" or "/". */
  predicate IsValidTopicLevel(name: JsString) {
    forall i :: 0 <= i < |name| ==> name[i] != NUL && name[i] != PLUS && name[i] != HASH && name[i] != SLASH
  }

  /** A-Z a-z 0-9 _ . : - */
  predicate IsSerialNumberUnit(c: CodeUnit) {
    || 0x41 <= c <= 0x5A || 0x61 <= c <= 0x7A || 0x30 <= c <= 0x39
    || c == 0x5F || c == 0x2E || c == 0x3A || c == 0x2D
  }

  predicate ValidManufacturer(m: Key, forSubscription: bool) {
    match m
    case None => forSubscription
    case Some(name) => name != [] && IsValidTopicLevel(name)
  }

  predicate ValidSerialNumber(s: Key, forSubscription: bool) {
    match s
    case None => forSubscription
    case Some(name) =>
      name != [] && IsValidTopicLevel(name) && forall i :: 0 <= i < |name| ==> IsSerialNumberUnit(name[i])
  }

  predicate ValidTopic(t: Key) {
    t.Some? && t.value != [] && IsValidTopicLevel(t.value)
  }

  lemma SerialNumberUnits(c: CodeUnit)
    ensures IsSerialNumberUnit(c) <==>
            c < 128 && var ch := c as char; 'A' <= ch <= 'Z' || 'a' <= ch <= 'z' || '0' <= ch <= '9' || ch in "_.:-"
  {
    if c < 128 {
      var ch := c as char;
      assert ch as int == c;
      assert ch in "_.:-" <==> ch == '_' || ch == '.' || ch == ':' || ch == '-';
    }
  }

  lemma LevelUnits(name: JsString)
    ensures IsValidTopicLevel(name) <==> forall c :: c in name ==> c != 0 && c !in Js("+#/")
  {
    assert Js("+#/") == [0x2B, 0x23, 0x2F];
    assert forall c: CodeUnit :: c in Js("+#/") <==> c == 0x2B || c == 0x23 || c == 0x2F;
    assert forall i :: 0 <= i < |name| ==> name[i] in name;
  }

  /**
   Names of topics and manufacturers are neither empty nor contain U+0000, "+", "#" or "/"; serial numbers consist of
   certain characters only. What is not given passes for subscriptions.
   */
  lemma NamesAreValid(name: JsString, forSubscription: bool)
    ensures var level := name != [] && forall c :: c in name ==> c != 0 && c !in Js("+#/");
            ValidManufacturer(Some(name), forSubscription) == ValidTopic(Some(name)) == level
    ensures ValidSerialNumber(Some(name), forSubscription) <==>
              name != [] && forall c :: c in name ==>
                c < 128 && var ch := c as char; 'A' <= ch <= 'Z' || 'a' <= ch <= 'z' || '0' <= ch <= '9' || ch in "_.:-"
    ensures ValidManufacturer(None, forSubscription) == ValidSerialNumber(None, forSubscription) == forSubscription
    ensures !ValidTopic(None)
  {
    LevelUnits(name);
    forall c: CodeUnit ensures IsSerialNumberUnit(c) <==>
      c < 128 && var ch := c as char; 'A' <= ch <= 'Z' || 'a' <= ch <= 'z' || '0' <= ch <= '9' || ch in "_.:-"
    {
      SerialNumberUnits(c);
    }
    assert forall i :: 0 <= i < |name| ==> name[i] in name;
  }

  /** Topic and subject pass the checks of a subscription. */
  predicate Acceptable(path: Path) {
    ValidManufacturer(path[0], true) && ValidSerialNumber(path[1], true) && ValidTopic(path[2])
  }

  lemma ValidLevelIsLevel(name: JsString)
    requires IsValidTopicLevel(name)
    ensures NoSlash(name) && name != WILDCARD
  {
    assert WILDCARD[0] == PLUS;
  }

  lemma AcceptableIsValid(path: Path)
    requires Acceptable(path)
    ensures ValidPath(path)
  {
    forall i | 0 <= i < 3 && path[i].Some? ensures NoSlash(path[i].value) && path[i].value != WILDCARD {
      ValidLevelIsLevel(path[i].value);
    }
  }

  /* Sessions */

  datatype Session = Session(
    started: bool,
    connected: bool,
    live: Live,
    // The filters that the broker holds for the current connection.
    broker: set<JsString>,
    nextId: nat)

  datatype Event =
    | Start
    | Stop
    // `allowed` tells whether the role of the client and its extension topics permit the topic.
    | Subscribe(path: Path, handler: Handler, allowed: bool)
    | Unsubscribe(id: Id)
    | ConnectionLost
    | Reconnect

  const NEW := Session(false, false, map[], {}, 0)

  predicate Subscribable(f: Format, path: Path)
    requires |f.indices| == 5
  {
    Acceptable(path) && Count(Filter(f, path)) <= 65535
  }

  /** A connection is a clean session: the broker starts with nothing but what is resubscribed. */
  function Connected(f: Format, s: Session): Session
    requires |f.indices| == 5
  {
    s.(connected := true, broker := Filters(f, s.live))
  }

  function Subscribed(f: Format, s: Session, path: Path, handler: Handler): Session
    requires |f.indices| == 5
  {
    s.(live := s.live[s.nextId := Subscription(path, handler)], nextId := s.nextId + 1,
       broker := if s.connected && path !in Patterns(s.live) then s.broker + {Filter(f, path)} else s.broker)
  }

  function Unsubscribed(f: Format, s: Session, id: Id): Session
    requires |f.indices| == 5 && id in s.live
  {
    var path, live := s.live[id].pattern, s.live - {id};
    s.(live := live, broker := if s.connected && path !in Patterns(live) then s.broker - {Filter(f, path)} else s.broker)
  }

  function Step(f: Format, s: Session, e: Event): Session
    requires |f.indices| == 5
  {
    match e
    case Start => if s.started then s else Connected(f, s.(started := true))
    case Stop => if s.started then Session(false, false, map[], {}, s.nextId) else s
    case Subscribe(path, handler, allowed) =>
      if s.started && allowed && Subscribable(f, path) then Subscribed(f, s, path, handler) else s
    case Unsubscribe(id) => if s.started && id in s.live then Unsubscribed(f, s, id) else s
    case ConnectionLost => s.(connected := false, broker := {})
    case Reconnect => if s.started && !s.connected then Connected(f, s) else s
  }

  function Run(f: Format, s: Session, events: seq<Event>): Session
    requires |f.indices| == 5
    decreases |events|
  {
    if events == [] then s else Run(f, Step(f, s, events[0]), events[1..])
  }

  /** While connected, the broker holds exactly the filters of the live subscriptions. */
  ghost predicate InSync(f: Format, s: Session)
    requires |f.indices| == 5
  {
    s.connected ==> s.broker == Filters(f, s.live)
  }

  ghost predicate Acceptables(live: Live) {
    forall id :: id in live ==> Acceptable(live[id].pattern)
  }

  /** New ids are fresh, and subscriptions have been checked. */
  ghost predicate Good(s: Session) {
    Acceptables(s.live) && forall id :: id in s.live ==> id < s.nextId
  }

  lemma SubscribedInSync(f: Format, s: Session, path: Path, handler: Handler)
    requires |f.indices| == 5 && InSync(f, s) && Good(s)
    ensures InSync(f, Subscribed(f, s, path, handler))
  {
    hide Filter;
    var s' := Subscribed(f, s, path, handler);
    assert s.nextId !in s.live;
    assert Filters(f, s'.live) == Filters(f, s.live) + {Filter(f, path)} by {
      forall id | id in s.live ensures s'.live[id] == s.live[id] {
      }
      assert s'.live[s.nextId].pattern == path;
    }
    if path in Patterns(s.live) {
      var id :| id in s.live && s.live[id].pattern == path;
      assert Filter(f, path) in Filters(f, s.live);
    }
  }

  lemma FiltersWithout(f: Format, live: Live, id: Id)
    requires |f.indices| == 5 && id in live
    ensures Filters(f, live) == Filters(f, live - {id}) + {Filter(f, live[id].pattern)}
  {
    hide Filter;
    var rest := live - {id};
    forall x | x in Filters(f, live) ensures x in Filters(f, rest) + {Filter(f, live[id].pattern)} {
      var other :| other in live && Filter(f, live[other].pattern) == x;
      assert other != id ==> other in rest && rest[other] == live[other];
    }
    forall x | x in Filters(f, rest) ensures x in Filters(f, live) {
      var other :| other in rest && Filter(f, rest[other].pattern) == x;
      assert other in live && rest[other] == live[other];
    }
  }

  /** With different filters for different patterns, a filter goes out of use with its pattern. */
  lemma FilterLeaves(f: Format, live: Live, id: Id)
    requires Compiled(f) && Full(f) && Acceptables(live) && id in live
    requires live[id].pattern !in Patterns(live - {id})
    ensures Filters(f, live - {id}) == Filters(f, live) - {Filter(f, live[id].pattern)}
  {
    hide Filter, Acceptable;
    var path, rest := live[id].pattern, live - {id};
    FiltersWithout(f, live, id);
    forall other | other in rest ensures Filter(f, rest[other].pattern) != Filter(f, path) {
      AcceptableIsValid(path);
      AcceptableIsValid(rest[other].pattern);
      assert rest[other].pattern in Patterns(rest);
      if Filter(f, rest[other].pattern) == Filter(f, path) {
        FullInjective(f, rest[other].pattern, path);
      }
    }
  }

  lemma UnsubscribedInSync(f: Format, s: Session, id: Id)
    requires Compiled(f) && Full(f) && InSync(f, s) && Good(s) && id in s.live
    ensures InSync(f, Unsubscribed(f, s, id))
  {
    hide Filter;
    var path, rest := s.live[id].pattern, s.live - {id};
    if path in Patterns(rest) {
      var other :| other in rest && rest[other].pattern == path;
      assert Filter(f, path) in Filters(f, rest);
      FiltersWithout(f, s.live, id);
    } else {
      FilterLeaves(f, s.live, id);
    }
  }

  lemma StepInSync(f: Format, s: Session, e: Event)
    requires Compiled(f) && Full(f) && InSync(f, s) && Good(s)
    ensures InSync(f, Step(f, s, e)) && Good(Step(f, s, e))
  {
    hide Filter, Acceptable;
    match e
    case Subscribe(path, handler, _) => SubscribedInSync(f, s, path, handler);
    case Unsubscribe(id) =>
      if id in s.live {
        UnsubscribedInSync(f, s, id);
      }
    case _ =>
  }

  lemma {:induction false} RunInSync(f: Format, s: Session, events: seq<Event>)
    requires Compiled(f) && Full(f) && InSync(f, s) && Good(s)
    ensures InSync(f, Run(f, s, events)) && Good(Run(f, s, events))
    decreases |events|
  {
    if events != [] {
      StepInSync(f, s, events[0]);
      RunInSync(f, Step(f, s, events[0]), events[1..]);
    }
  }

  /* Formats without all placeholders */

  lemma {:induction false} JoinCountGrows(a: seq<JsString>, b: seq<JsString>)
    requires |a| == |b| && forall i :: 0 <= i < |a| ==> Count(a[i]) <= Count(b[i])
    ensures Count(Join(a)) <= Count(Join(b))
  {
    hide Count, Join;
    if a != [] {
      var n := |a| - 1;
      JoinCountGrows(a[..n], b[..n]);
      JoinLastCount(a[..n], a[n]);
      JoinLastCount(b[..n], b[n]);
      assert a == a[..n] + [a[n]] && b == b[..n] + [b[n]];
    }
  }

  lemma CountOfOne(s: JsString)
    requires s != []
    ensures Count(Js("t")) == 1 == Count(WILDCARD) && Count(s) >= 1
  {
    assert Js("t") == [0x74];
    CountOne(0x74);
    CountOne(PLUS);
    CountBounds(s);
  }

  /** No subscription has a shorter filter than the one to topic "t" of any AGV. */
  lemma ShortestFilter(f: Format, path: Path)
    requires |f.indices| == 5 && Acceptable(path)
    ensures Count(Filter(f, ANY)) <= Count(Filter(f, path))
  {
    var m, s, t := OrWildcard(path[0]), OrWildcard(path[1]), OrWildcard(path[2]);
    CountOfOne(m);
    CountOfOne(s);
    CountOfOne(t);
    var a, b := Filled(f, WILDCARD, WILDCARD, Js("t")), Filled(f, m, s, t);
    forall i | 0 <= i < |a| ensures Count(a[i]) <= Count(b[i]) {
      assert a[i] == LevelAt(f, WILDCARD, WILDCARD, Js("t"), i) && b[i] == LevelAt(f, m, s, t, i);
    }
    JoinCountGrows(a, b);
  }

  lemma {:induction false} NothingSubscribable(f: Format, s: Session, events: seq<Event>)
    requires |f.indices| == 5 && Count(Filter(f, ANY)) > 65535
    requires s.live == map[] && s.broker == {}
    ensures InSync(f, Run(f, s, events))
    decreases |events|
  {
    hide Filter, Acceptable;
    if events != [] {
      if events[0].Subscribe? && Acceptable(events[0].path) {
        ShortestFilter(f, events[0].path);
      }
      var s' := Step(f, s, events[0]);
      assert s'.live == map[] && s'.broker == {};
      NothingSubscribable(f, s', events[1..]);
    }
  }

  /** Two subscriptions share a filter, and the broker drops it when one of them goes. */
  function SharedFilterRun(i: nat): seq<Event>
    requires i < 2
  {
    [Start, Subscribe(Only(i, Js("a"), Js("t")), 0, true), Subscribe(ANY, 1, true), Unsubscribe(0)]
  }

  lemma RunOne(f: Format, s: Session, e: Event, rest: seq<Event>)
    requires |f.indices| == 5
    ensures Run(f, s, [e] + rest) == Run(f, Step(f, s, e), rest)
  {
    assert ([e] + rest)[1..] == rest;
  }

  lemma RunFour(f: Format, s: Session, a: Event, b: Event, c: Event, d: Event)
    requires |f.indices| == 5
    ensures Run(f, s, [a, b, c, d]) == Step(f, Step(f, Step(f, Step(f, s, a), b), c), d)
  {
    hide Step;
    RunOne(f, s, a, [b, c, d]);
    RunOne(f, Step(f, s, a), b, [c, d]);
    RunOne(f, Step(f, Step(f, s, a), b), c, [d]);
    RunOne(f, Step(f, Step(f, Step(f, s, a), b), c), d, []);
  }

  lemma OnlyAcceptable(i: nat)
    requires i < 2
    ensures Acceptable(Only(i, Js("a"), Js("t"))) && Acceptable(ANY)
    ensures Only(i, Js("a"), Js("t")) != ANY
  {
    assert Js("a") == [0x61] && Js("t") == [0x74];
    assert Only(i, Js("a"), Js("t"))[i] != ANY[i];
  }

  lemma SharedFilterLost(f: Format, i: nat)
    requires Compiled(f) && i < 2 && Place(f, i) < 0 && Count(Filter(f, ANY)) <= 65535
    ensures !InSync(f, Run(f, NEW, SharedFilterRun(i)))
  {
    var p := Only(i, Js("a"), Js("t"));
    OmittedLeavesNoTrace(f, i);
    OnlyAcceptable(i);
    RunFour(f, NEW, Start, Subscribe(p, 0, true), Subscribe(ANY, 1, true), Unsubscribe(0));
    SharedFilterSteps(f, p);
  }

  lemma SharedFilterSteps(f: Format, p: Path)
    requires |f.indices| == 5 && Subscribable(f, p) && Subscribable(f, ANY) && p != ANY && Filter(f, p) == Filter(f, ANY)
    ensures !InSync(f, Step(f, Step(f, Step(f, Step(f, NEW, Start), Subscribe(p, 0, true)), Subscribe(ANY, 1, true)),
                            Unsubscribe(0)))
  {
    hide Filter, Acceptable;
    var s1 := Step(f, NEW, Start);
    var s2 := Step(f, s1, Subscribe(p, 0, true));
    var s3 := Step(f, s2, Subscribe(ANY, 1, true));
    var s4 := Step(f, s3, Unsubscribe(0));
    assert s1.live == map[] && s1.connected && s1.nextId == 0;
    assert s2.live == map[0 := Subscription(p, 0)] && s2.nextId == 1;
    assert s3.live == map[0 := Subscription(p, 0), 1 := Subscription(ANY, 1)];
    assert s4.live == map[1 := Subscription(ANY, 1)];
    assert p !in Patterns(s4.live);
    assert Filter(f, ANY) !in s4.broker;
    assert s4.live[1].pattern == ANY;
    assert Filter(f, ANY) in Filters(f, s4.live);
  }

  /**
   The broker is in sync in all runs exactly if the format has all placeholders (or is so long that nothing can
   be subscribed at all).
   */
  lemma InSyncExactly(f: Format)
    requires Compiled(f)
    ensures (forall events :: InSync(f, Run(f, NEW, events))) <==> Full(f) || Count(Filter(f, ANY)) > 65535
  {
    if Full(f) {
      forall events ensures InSync(f, Run(f, NEW, events)) {
        RunInSync(f, NEW, events);
      }
    } else if Count(Filter(f, ANY)) > 65535 {
      forall events ensures InSync(f, Run(f, NEW, events)) {
        NothingSubscribable(f, NEW, events);
      }
    } else {
      SharedFilterLost(f, if f.indices[2] < 0 then 0 else 1);
    }
  }

  /* Delivery */

  lemma PublishedLevel(f: Format, p: Path, m: JsString, s: JsString, t: JsString, j: nat)
    requires |f.indices| == 5 && j < |f.levels| && Applies(p, [Some(m), Some(s), Some(t)])
    ensures LevelMatches(LevelAt(f, OrWildcard(p[0]), OrWildcard(p[1]), OrWildcard(p[2]), j), LevelAt(f, m, s, t, j))
  {
    assert p[0] == None || p[0] == Some(m);
    assert p[1] == None || p[1] == Some(s);
    assert p[2] == None || p[2] == Some(t);
  }

  /** A message matches the filter of every subscription that applies to it, in every format. */
  lemma PublishedMatches(f: Format, p: Path, m: JsString, s: JsString, t: JsString)
    requires Compiled(f) && ValidPath(p) && NoSlash(m) && NoSlash(s) && NoSlash(t)
    requires Applies(p, [Some(m), Some(s), Some(t)])
    ensures Matches(Filter(f, p), Print(f, m, s, t))
  {
    hide LevelAt, LevelMatches, Applies;
    FilterLevels(f, p);
    FilledNoSlashes(f, m, s, t);
    var fs, ns := Split(Filter(f, p)), Split(Print(f, m, s, t));
    forall j | 0 <= j < |fs| ensures LevelMatches(fs[j], ns[j]) {
      PublishedLevel(f, p, m, s, t, j);
    }
  }
}
