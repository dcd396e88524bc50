/** From a publisher through the broker to the handlers of a subscriber. */
module Delivery {
  import opened Wrappers
  import opened JsString
  import opened MqttUtils
  import opened TopicFormat
  import opened SubscriptionTrie
  import opened SubscriptionManager
  import opened BrokerSync
  import Client

  const DOLLAR: CodeUnit := 0x0024

  predicate StartsWith(s: JsString, c: CodeUnit) {
    s != [] && s[0] == c
  }

  /**
   The broker delivers a message: sections 4.7.1.3 and 4.7.2 of MQTT 3.1.1. A filter that starts with a wildcard
   does not match a topic that starts with "$".
   */
  predicate Reaches(filter: JsString, name: JsString) {
    Matches(filter, name) && !(StartsWith(filter, PLUS) && StartsWith(name, DOLLAR))
  }

  /** The message stands under the second rule: its topic starts with the manufacturer, which the filter leaves open. */
  predicate Hidden(f: Format, p: Path, m: JsString)
    requires |f.indices| == 5
  {
    f.indices[2] == 0 && p[0] == None && StartsWith(m, DOLLAR)
  }

  predicate Publishable(m: JsString, s: JsString, t: JsString) {
    ValidManufacturer(Some(m), false) && ValidSerialNumber(Some(s), false) && ValidTopic(Some(t))
  }

  lemma JoinStart(levels: seq<JsString>, c: CodeUnit)
    requires levels != [] && c != SLASH
    ensures StartsWith(Join(levels), c) <==> StartsWith(levels[0], c)
  {
  }

  lemma PublishableLevels(m: JsString, s: JsString, t: JsString)
    requires Publishable(m, s, t)
    ensures NoSlash(m) && NoSlash(s) && NoSlash(t) && m != [] && s != [] && t != []
    ensures !StartsWith(m, PLUS) && !StartsWith(s, PLUS) && !StartsWith(t, PLUS) && !StartsWith(s, DOLLAR)
  {
    ValidLevelIsLevel(m);
    ValidLevelIsLevel(s);
    ValidLevelIsLevel(t);
  }

  /** The first levels of filter and topic. */
  lemma FirstLevels(f: Format, p: Path, m: JsString, s: JsString, t: JsString)
    requires Compiled(f) && Acceptable(p) && Publishable(m, s, t) && Applies(p, [Some(m), Some(s), Some(t)])
    ensures var filter, name := LevelAt(f, OrWildcard(p[0]), OrWildcard(p[1]), OrWildcard(p[2]), 0), LevelAt(f, m, s, t, 0);
            StartsWith(filter, PLUS) && StartsWith(name, DOLLAR) <==> Hidden(f, p, m)
  {
    hide Acceptable, Publishable;
    PublishableLevels(m, s, t);
    assert p[2].Some? by {
      TopicGiven(p);
    }
    assert p[0] == None || p[0] == Some(m);
    assert p[1] == None || p[1] == Some(s);
    assert p[2] == None || p[2] == Some(t);
  }

  lemma TopicGiven(p: Path)
    requires Acceptable(p)
    ensures p[2].Some?
  {
  }

  /**
   In every format, a published message reaches a subscription that applies to it exactly unless the format
   begins with %manufacturer%, the subscription leaves the manufacturer open, and the manufacturer begins with "$".
   */
  lemma PublishedReachesExactly(f: Format, p: Path, m: JsString, s: JsString, t: JsString)
    requires Compiled(f) && Acceptable(p) && Publishable(m, s, t) && Applies(p, [Some(m), Some(s), Some(t)])
    ensures Reaches(Filter(f, p), Print(f, m, s, t)) <==> !Hidden(f, p, m)
  {
    hide Matches, LevelAt, Hidden, StartsWith, Applies, Acceptable, Publishable, Join;
    var fs, ns := Filled(f, OrWildcard(p[0]), OrWildcard(p[1]), OrWildcard(p[2])), Filled(f, m, s, t);
    AcceptableIsValid(p);
    PublishableLevels(m, s, t);
    PublishedMatches(f, p, m, s, t);
    FirstLevels(f, p, m, s, t);
    JoinStart(fs, PLUS);
    JoinStart(ns, DOLLAR);
  }

  /** Some live subscription that applies is not shut out by the second rule. */
  ghost predicate Reached(f: Format, live: Live, m: JsString, s: JsString, t: JsString)
    requires |f.indices| == 5
  {
    exists id :: id in live && Applies(live[id].pattern, [Some(m), Some(s), Some(t)]) && !Hidden(f, live[id].pattern, m)
  }

  /** The broker holds a filter that the message reaches. */
  ghost predicate Delivered(broker: set<JsString>, name: JsString) {
    exists filter :: filter in broker && Reaches(filter, name)
  }

  /** After any run, the broker delivers a message exactly if some live subscription is to be reached. */
  lemma DeliveredExactlyIfReached(f: Format, events: seq<Event>, m: JsString, s: JsString, t: JsString)
    requires Compiled(f) && Full(f) && Publishable(m, s, t) && Run(f, NEW, events).connected
    ensures var session := Run(f, NEW, events);
            Delivered(session.broker, Print(f, m, s, t)) <==> Reached(f, session.live, m, s, t)
  {
    hide Run, Filter, Print, Reaches, Applies, Acceptable, Publishable, Hidden;
    RunInSync(f, NEW, events);
    var session, name := Run(f, NEW, events), Print(f, m, s, t);
    assert session.broker == Filters(f, session.live);
    forall id | id in session.live
      ensures Reaches(Filter(f, session.live[id].pattern), name) <==>
              && Applies(session.live[id].pattern, [Some(m), Some(s), Some(t)]) && !Hidden(f, session.live[id].pattern, m)
    {
      ReachedIsApplied(f, session.live[id].pattern, m, s, t);
    }
    if Delivered(session.broker, name) {
      var filter :| filter in session.broker && Reaches(filter, name);
      var id :| id in session.live && filter == Filter(f, session.live[id].pattern);
    }
    if Reached(f, session.live, m, s, t) {
      var id :| id in session.live && Applies(session.live[id].pattern, [Some(m), Some(s), Some(t)])
                && !Hidden(f, session.live[id].pattern, m);
      assert Filter(f, session.live[id].pattern) in session.broker;
    }
  }

  lemma ReachedIsApplied(f: Format, p: Path, m: JsString, s: JsString, t: JsString)
    requires Compiled(f) && Full(f) && Acceptable(p) && Publishable(m, s, t)
    ensures Reaches(Filter(f, p), Print(f, m, s, t)) <==>
            Applies(p, [Some(m), Some(s), Some(t)]) && !Hidden(f, p, m)
  {
    hide Matches, Filter, Print, Applies, Acceptable, Publishable, Hidden;
    if Reaches(Filter(f, p), Print(f, m, s, t)) {
      AcceptableIsValid(p);
      PublishableLevels(m, s, t);
      MatchesApplies(f, p, Print(f, m, s, t), Some(m), Some(s));
      ResolvePublished(f, m, s, t);
    }
    if Applies(p, [Some(m), Some(s), Some(t)]) {
      PublishedReachesExactly(f, p, m, s, t);
    }
  }

  /** What the handlers of a subscriber get to see of a published message. */
  ghost predicate Invokes(f: Format, live: Live, invoked: seq<(Id, Handler)>, m: JsString, s: JsString, t: JsString)
    requires |f.indices| == 5
  {
    if Reached(f, live, m, s, t) then FindsOnce(invoked, live, [Some(m), Some(s), Some(t)]) else invoked == []
  }

  /** Unless the format begins with %manufacturer% and the manufacturer with "$", nobody is left out. */
  lemma NobodyLeftOut(f: Format, live: Live, invoked: seq<(Id, Handler)>, m: JsString, s: JsString, t: JsString)
    requires |f.indices| == 5 && Invokes(f, live, invoked, m, s, t)
    requires f.indices[2] != 0 || !StartsWith(m, DOLLAR)
    ensures FindsOnce(invoked, live, [Some(m), Some(s), Some(t)])
  {
    hide Applies;
    if !Reached(f, live, m, s, t) {
      assert forall id :: id in live ==> !Applies(live[id].pattern, [Some(m), Some(s), Some(t)]);
    }
  }

  lemma FormatIsCompiled(client: Client.Client)
    requires client.Valid()
    ensures Compiled(client.TopicFormat())
  {
  }

  /**
   A client publishes, the broker delivers, the same or another client dispatches, after any run of its own. In
   every format, a message that is delivered invokes the handler of each live subscription that applies once,
   and no other; with all placeholders, it is delivered exactly if one of them is to be reached. `delivered`
   stands for the broker and each copy that it delivers, `passesOut` and `passesIn` for the validation on either
   side.
   */
  method PublishAndDispatch(publisher: Client.Client, subscriber: Client.Client, ghost events: seq<Event>,
                            topic: JsString, m: JsString, s: JsString, allowed: bool, passesOut: bool, delivered: bool,
                            passesIn: bool)
    returns (r: Result<Client.Message, Client.ClientError>, invoked: seq<(Id, Handler)>)
    requires publisher.Valid() && subscriber.Valid()
    requires publisher == subscriber || publisher.Repr() !! subscriber.Repr()
    requires publisher.TopicFormat() == subscriber.TopicFormat()
    requires subscriber.State() == Run(subscriber.TopicFormat(), NEW, events) && subscriber.connected
    requires delivered <==> Delivered(subscriber.broker, Print(subscriber.TopicFormat(), m, s, topic))
    modifies publisher`headerIds, publisher`usedIds, publisher.subscriptionManager.topics.levels
    ensures publisher.Valid() && subscriber.Valid() && subscriber.State() == old(subscriber.State())
    ensures r.Ok? && delivered && passesIn ==>
              FindsOnce(invoked, subscriber.subscriptionManager.live, [Some(m), Some(s), Some(topic)])
    ensures r.Ok? && passesIn && Full(subscriber.TopicFormat()) ==>
              Invokes(subscriber.TopicFormat(), subscriber.subscriptionManager.live, invoked, m, s, topic)
    ensures r.Err? || !delivered || !passesIn ==> invoked == []
  {
    hide Print, Filter, Run, Delivered, Reached, Hang, Hold, MqttTopics.Valid, Represents, Acceptables, Compiled;
    invoked := [];
    r := publisher.PublishTopic(topic, Some(m), Some(s), allowed, passesOut);
    if r.Ok? {
      var f := subscriber.TopicFormat();
      FormatIsCompiled(subscriber);
      if Full(f) {
        DeliveredExactlyIfReached(f, events, m, s, topic);
      }
      if delivered {
        var message := r.value;
        invoked := subscriber.DispatchMessage(message.mqttTopic, Some(message.manufacturer), Some(message.serialNumber),
                                              passesIn);
        if passesIn {
          Client.PublishedFindsOnce(f, subscriber.subscriptionManager.live, invoked, m, s, topic);
        }
      }
    }
  }

  /* A manufacturer that is hidden from wildcard subscribers */

  const MANUFACTURER_FIRST := Format([PLACEHOLDERS[2], PLACEHOLDERS[4]], [-1, -1, 0, -1, 1], Js("uagv"), Js("v2"))

  /** Placeholders begin with a "%" and have no other but the last code unit. */
  lemma PercentAtEnds(k: nat)
    requires k < 5
    ensures var p := PLACEHOLDERS[k];
            |p| >= 7 && p[0] == 0x25 && forall i :: 0 < i < |p| - 1 ==> p[i] != 0x25
  {
  }

  lemma StartsDiffer(j: nat, k: nat)
    requires j in {2, 4} && k < 5 && j != k
    ensures var s, p := PLACEHOLDERS[j], PLACEHOLDERS[k]; |p| > |s| || s[1] != p[1] || s[3] != p[3]
  {
  }

  lemma NotAt(s: JsString, p: JsString, i: nat)
    requires |p| > 3 && i + |p| <= |s| && (s[i] != p[0] || s[i + 1] != p[1] || s[i + 3] != p[3])
    ensures !OccursAt(s, p, i)
  {
    var part := s[i..i + |p|];
    assert part[0] == s[i] && part[1] == s[i + 1] && part[3] == s[i + 3];
  }

  lemma NotContained(s: JsString, p: JsString)
    requires |p| >= 7 && |s| >= 7 && p[0] == 0x25 && forall i :: 0 < i < |s| - 1 ==> s[i] != 0x25
    requires |p| > |s| || s[1] != p[1] || s[3] != p[3]
    ensures !Contains(s, p)
  {
    forall i: nat | i <= |s| ensures !OccursAt(s, p, i) {
      if i + |p| <= |s| {
        NotAt(s, p, i);
      }
    }
  }

  lemma ContainedOnlyInItself(j: nat, k: nat)
    requires j in {2, 4} && k < 5
    ensures Contains(PLACEHOLDERS[j], PLACEHOLDERS[k]) <==> j == k
  {
    hide Contains;
    if j == k {
      ContainsItself(PLACEHOLDERS[k]);
    } else {
      PercentAtEnds(j);
      PercentAtEnds(k);
      StartsDiffer(j, k);
      NotContained(PLACEHOLDERS[j], PLACEHOLDERS[k]);
    }
  }

  lemma ManufacturerFirstIndex(k: nat)
    requires k < 5
    ensures var levels := [PLACEHOLDERS[2], PLACEHOLDERS[4]];
            && IndexOf(levels, PLACEHOLDERS[k]) == (if k == 2 then 0 else if k == 4 then 1 else -1)
            && !Elsewhere(levels, PLACEHOLDERS[k], IndexOf(levels, PLACEHOLDERS[k]))
  {
    ContainedOnlyInItself(2, k);
    ContainedOnlyInItself(4, k);
    ContainsItself(PLACEHOLDERS[k]);
  }

  lemma ManufacturerFirstJoined()
    ensures Js("%manufacturer%/%topic%") == Join([PLACEHOLDERS[2], PLACEHOLDERS[4]])
    ensures NoSlashes([PLACEHOLDERS[2], PLACEHOLDERS[4]])
  {
    assert [PLACEHOLDERS[2], PLACEHOLDERS[4]][1..] == [PLACEHOLDERS[4]];
  }

  lemma ManufacturerFirstCompiles()
    ensures Compile(Js("%manufacturer%/%topic%"), Js("uagv"), Js("2.0.0")) == Ok(MANUFACTURER_FIRST)
  {
    hide MajorVersion, Split, Elsewhere, Join, NoSlash, IndexOf, Js;
    MajorVersionOfTwo();
    var levels := [PLACEHOLDERS[2], PLACEHOLDERS[4]];
    ManufacturerFirstJoined();
    SplitJoin(levels);
    forall k | 0 <= k < 5
      ensures IndexOf(levels, PLACEHOLDERS[k]) == (if k == 2 then 0 else if k == 4 then 1 else -1)
      ensures !Elsewhere(levels, PLACEHOLDERS[k], IndexOf(levels, PLACEHOLDERS[k]))
    {
      ManufacturerFirstIndex(k);
    }
    assert Indices(levels) == [-1, -1, 0, -1, 1];
  }

  lemma ManufacturerFirstCompiled()
    ensures Compiled(MANUFACTURER_FIRST)
  {
    ManufacturerFirstJoined();
    forall c | c in Js("uagv") || c in Js("v2") ensures c != SLASH {
    }
  }

  lemma JoinTwo(a: JsString, b: JsString)
    ensures Join([a, b]) == a + [SLASH] + b
  {
    assert [a, b][1..] == [b];
  }

  lemma AnyIsShortEnough()
    ensures Count(Filter(MANUFACTURER_FIRST, ANY)) <= 65535
  {
    var levels := Filled(MANUFACTURER_FIRST, WILDCARD, WILDCARD, Js("t"));
    assert levels == [WILDCARD, Js("t")];
    JoinTwo(WILDCARD, Js("t"));
    CountBounds(Filter(MANUFACTURER_FIRST, ANY));
  }

  lemma SubscribedToAny(f: Format)
    requires |f.indices| == 5 && Subscribable(f, ANY)
    ensures Run(f, NEW, [Start, Subscribe(ANY, 0, true)]) ==
            Session(true, true, map[0 := Subscription(ANY, 0)], {Filter(f, ANY)}, 1)
  {
    hide Filter, Subscribable;
    var started := Step(f, NEW, Start);
    RunOne(f, NEW, Start, [Subscribe(ANY, 0, true)]);
    RunOne(f, started, Subscribe(ANY, 0, true), []);
    assert [Start] + [Subscribe(ANY, 0, true)] == [Start, Subscribe(ANY, 0, true)];
    assert [Subscribe(ANY, 0, true)] + [] == [Subscribe(ANY, 0, true)];
    assert Run(f, Step(f, started, Subscribe(ANY, 0, true)), []) == Step(f, started, Subscribe(ANY, 0, true));
  }

  lemma DollarIsHidden()
    ensures var m, s, t := Js("$"), Js("1"), Js("t");
            Publishable(m, s, t) && Applies(ANY, [Some(m), Some(s), Some(t)]) && Hidden(MANUFACTURER_FIRST, ANY, m)
  {
  }

  /**
   With that format, a connected client subscribes to topic "t" of all AGVs. The message that an AGV of
   manufacturer "$" publishes on "t" applies to the subscription, and the broker does not deliver it.
   */
  lemma HiddenFromWildcard()
    ensures var f, m, s, t := MANUFACTURER_FIRST, Js("$"), Js("1"), Js("t");
            var session := Run(f, NEW, [Start, Subscribe(ANY, 0, true)]);
            && Publishable(m, s, t) && session.connected
            && 0 in session.live && Applies(session.live[0].pattern, [Some(m), Some(s), Some(t)])
            && !Delivered(session.broker, Print(f, m, s, t))
  {
    hide Filter, Print, Count, Run, Publishable, Applies, Reaches, Hidden, Acceptable, Compiled;
    ManufacturerFirstCompiled();
    OnlyAcceptable(0);
    AnyIsShortEnough();
    DollarIsHidden();
    SubscribedToAny(MANUFACTURER_FIRST);
    PublishedReachesExactly(MANUFACTURER_FIRST, ANY, Js("$"), Js("1"), Js("t"));
  }
}
