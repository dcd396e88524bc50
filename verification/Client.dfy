/** The MQTT client of an AGV or of a master control: subscriptions, connection, publishing and dispatching. */
module Client {
  import opened Wrappers
  import opened JsString
  import opened MqttUtils
  import opened TopicFormat
  import opened SubscriptionTrie
  import opened SubscriptionManager
  import opened BrokerSync

  datatype ClientError =
    | NotStarted
    | InvalidTopic
    | InvalidSubject
    | InvalidObject
    | TooLong
    // The rejection that destructuring `undefined` results in.
    | UnknownSubscription

  /** A message with the part of its header that identifies subject and sequence. */
  datatype Message = Message(mqttTopic: JsString, manufacturer: JsString, serialNumber: JsString, headerId: nat)

  /* Header ids */

  const MAX_HEADER_ID := 0xFFFFFFFF

  function NextHeaderId(id: nat): nat {
    if id < MAX_HEADER_ID then id + 1 else 0
  }

  /** The header id of the n-th message on a topic. */
  function HeaderIdAfter(n: nat): nat {
    if n == 0 then 0 else NextHeaderId(HeaderIdAfter(n - 1))
  }

  /** Header ids count messages as an unsigned 32-bit integer does. */
  lemma {:induction false} HeaderIdsWrapAround(n: nat)
    ensures HeaderIdAfter(n) == n % 0x1_0000_0000
  {
    if n > 0 {
      HeaderIdsWrapAround(n - 1);
    }
  }

  predicate ValidSubject(m: Key, s: Key, forSubscription: bool) {
    ValidManufacturer(m, forSubscription) && ValidSerialNumber(s, forSubscription)
  }

  /**
   From publisher to handlers: what a client with the same format finds for a published message is exactly the
   live subscriptions that apply to its topic and subject, once each.
   */
  lemma PublishedFindsOnce(f: Format, live: Live, found: seq<(Id, Handler)>, m: JsString, s: JsString, t: JsString)
    requires Compiled(f) && ValidSubject(Some(m), Some(s), false) && ValidTopic(Some(t))
    requires FindsExpected(found, live, Resolve(f, Print(f, m, s, t), Some(m), Some(s)))
    ensures FindsOnce(found, live, [Some(m), Some(s), Some(t)])
  {
    ValidLevelIsLevel(m);
    ValidLevelIsLevel(s);
    ValidLevelIsLevel(t);
    ResolvePublished(f, m, s, t);
    ResolvedFindsOnce(found, live, [Some(m), Some(s), Some(t)]);
  }

  class Client {
    const subscriptionManager: SubscriptionManager
    var isStarted: bool
    // Whether the MQTT connection stands.
    var connected: bool
    // The header id of the next message on each topic.
    var headerIds: map<JsString, nat>
    // The number of header ids used up on each topic.
    ghost var usedIds: map<JsString, nat>
    // Stands for the generator of unique ids.
    var nextId: nat
    // The filters that the broker holds for this client.
    ghost var broker: set<JsString>

    ghost function Repr(): set<object>
      reads this, subscriptionManager
    {
      {this, subscriptionManager, subscriptionManager.topics.levels} + subscriptionManager.contents.Keys
    }

    ghost predicate Valid()
      reads this, subscriptionManager, subscriptionManager.topics, subscriptionManager.topics.levels,
            subscriptionManager.contents.Keys
    {
      && subscriptionManager.Valid()
      && Acceptables(subscriptionManager.live)
      && (forall id :: id in subscriptionManager.subscriptionIds ==> id < nextId)
      && HeaderIdsCount()
    }

    ghost predicate HeaderIdsCount()
      reads this`headerIds, this`usedIds
    {
      && headerIds.Keys == usedIds.Keys
      && forall t :: t in headerIds ==> headerIds[t] == HeaderIdAfter(usedIds[t])
    }

    ghost function UsedIds(topic: JsString): nat
      reads this`usedIds
    {
      if topic in usedIds then usedIds[topic] else 0
    }

    function TopicFormat(): Format
      reads this, subscriptionManager, subscriptionManager.topics
    {
      subscriptionManager.topics.format
    }

    ghost function State(): Session
      reads this, subscriptionManager
    {
      Session(isStarted, connected, subscriptionManager.live, broker, nextId)
    }

    constructor (format: Format)
      requires Compiled(format)
      ensures Valid() && TopicFormat() == format && State() == NEW && headerIds == map[]
      ensures fresh(Repr() - {this}) && fresh(subscriptionManager.topics)
    {
      subscriptionManager := new SubscriptionManager(format);
      isStarted := false;
      connected := false;
      headerIds := map[];
      usedIds := map[];
      nextId := 0;
      broker := {};
    }

    /* Connection */

    /** The listener of connections: the broker starts with a clean session, and live filters are resubscribed. */
    method OnConnect()
      requires Valid()
      modifies this`connected, this`broker
      ensures Valid() && State() == Connected(TopicFormat(), old(State()))
    {
      hide Filter, Hang, Hold, Represents;
      connected := true;
      broker := {};
      var resubscribes, patterns := subscriptionManager.GetAll();
      if |resubscribes| > 0 {
        broker := broker + set i | 0 <= i < |resubscribes| :: resubscribes[i];
      }
    }

    method Start()
      requires Valid()
      modifies this`isStarted, this`connected, this`broker
      ensures Valid() && State() == Step(TopicFormat(), old(State()), Event.Start)
    {
      if isStarted {
        return;
      }
      OnConnect();
      isStarted := true;
    }

    method Stop()
      requires Valid()
      modifies this, subscriptionManager
      ensures Valid() && State() == Step(TopicFormat(), old(State()), Event.Stop)
      ensures headerIds == old(headerIds) && usedIds == old(usedIds)
    {
      if !isStarted {
        return;
      }
      isStarted := false;
      connected := false;
      broker := {};
      Reset();
    }

    method Reset()
      requires subscriptionManager.Valid()
      modifies subscriptionManager
      ensures subscriptionManager.Valid() && subscriptionManager.live == map[]
      ensures subscriptionManager.subscriptionIds == map[] && subscriptionManager.contents == map[]
    {
      subscriptionManager.Clear();
    }

    /** The broker forgets a session that is lost. */
    method LoseConnection()
      requires Valid()
      modifies this`connected, this`broker
      ensures Valid() && State() == Step(TopicFormat(), old(State()), ConnectionLost)
    {
      connected := false;
      broker := {};
    }

    method Reconnect()
      requires Valid()
      modifies this`connected, this`broker
      ensures Valid() && State() == Step(TopicFormat(), old(State()), Event.Reconnect)
    {
      if isStarted && !connected {
        OnConnect();
      }
    }

    /* Subscriptions */

    /** The checks before a subscription, in their order. */
    method ValidateSubscription(path: Path, allowed: bool) returns (error: Option<ClientError>)
      ensures error == if !isStarted then Some(NotStarted)
                       else if !(ValidTopic(path[2]) && allowed) then Some(InvalidTopic)
                       else if !ValidSubject(path[0], path[1], true) then Some(InvalidSubject) else None
    {
      if !isStarted {
        return Some(NotStarted);
      }
      if !ValidTopic(path[2]) || !allowed {
        return Some(InvalidTopic);
      }
      if !ValidSubject(path[0], path[1], true) {
        return Some(InvalidSubject);
      }
      return None;
    }

    /** The subscription of a path that has passed the checks. */
    method AddSubscription(path: Path, handler: Handler) returns (r: Result<Id, ClientError>)
      requires Valid() && isStarted && Acceptable(path)
      modifies Repr()
      ensures Valid() && State() == Step(TopicFormat(), old(State()), Subscribe(path, handler, true))
      ensures r == if Count(Filter(TopicFormat(), path)) > 65535 then Err(TooLong) else Ok(old(nextId))
      ensures headerIds == old(headerIds) && usedIds == old(usedIds) && isStarted
      ensures fresh(Repr() - old(Repr()))
    {
      hide Filter, MqttTopics.Valid, Hang, Hold, Represents, Compiled, IsValidTopicLevel, HeaderIdAfter, Patterns, Lookup;
      var added := subscriptionManager.Add(path, handler, nextId);
      if added.Err? {
        return Err(TooLong);
      }
      nextId := nextId + 1;
      if added.value.requiresSubscribe && connected {
        broker := broker + {added.value.mqttTopic};
      }
      return Ok(added.value.id);
    }

    method SubscribeTopic(path: Path, handler: Handler, allowed: bool) returns (r: Result<Id, ClientError>)
      requires Valid()
      modifies Repr()
      ensures Valid() && State() == Step(TopicFormat(), old(State()), Subscribe(path, handler, allowed))
      ensures r == if !old(isStarted) then Err(NotStarted)
                   else if !(ValidTopic(path[2]) && allowed) then Err(InvalidTopic)
                   else if !ValidSubject(path[0], path[1], true) then Err(InvalidSubject)
                   else if Count(Filter(TopicFormat(), path)) > 65535 then Err(TooLong)
                   else Ok(old(nextId))
      ensures headerIds == old(headerIds) && usedIds == old(usedIds)
      ensures fresh(Repr() - old(Repr()))
    {
      hide Filter, MqttTopics.Valid, Hang, Hold, Represents, Compiled, IsValidTopicLevel, HeaderIdAfter, Patterns, Lookup;
      var invalid := ValidateSubscription(path, allowed);
      if invalid.Some? {
        return Err(invalid.value);
      }
      r := AddSubscription(path, handler);
    }

    method Unsubscribe(subscriptionId: Id) returns (r: Result<(), ClientError>)
      requires Valid()
      modifies Repr()
      ensures Valid() && State() == Step(TopicFormat(), old(State()), Event.Unsubscribe(subscriptionId))
      ensures r == if !old(isStarted) then Err(NotStarted)
                   else if subscriptionId !in old(subscriptionManager.live) then Err(UnknownSubscription)
                   else Ok(())
      ensures headerIds == old(headerIds) && usedIds == old(usedIds)
      ensures Repr() == old(Repr())
    {
      hide Filter, MqttTopics.Valid, Hang, Hold, Represents, Compiled, IsValidTopicLevel, HeaderIdAfter, Patterns, Lookup;
      if !isStarted {
        return Err(NotStarted);
      }
      var removed := subscriptionManager.Remove(subscriptionId);
      if removed == None {
        assert subscriptionManager.live == old(subscriptionManager.live);
        return Err(UnknownSubscription);
      }
      if removed.value.requiresUnsubscribe && connected {
        broker := broker - {removed.value.mqttTopic};
      }
      return Ok(());
    }

    /* Messages */

    /** The header ids of a topic count its messages modulo 2^32. */
    method TakeHeaderId(topic: JsString) returns (id: nat)
      requires HeaderIdsCount()
      modifies this`headerIds, this`usedIds
      ensures HeaderIdsCount() && id == old(UsedIds(topic)) % 0x1_0000_0000
      ensures usedIds == old(usedIds)[topic := old(UsedIds(topic)) + 1]
    {
      id := if topic in headerIds then headerIds[topic] else 0;
      HeaderIdsWrapAround(UsedIds(topic));
      usedIds := usedIds[topic := UsedIds(topic) + 1];
      headerIds := headerIds[topic := if id < MAX_HEADER_ID then id + 1 else 0];
    }

    /**
     The header is filled from the subject; its id is used up even if the object does not pass validation
     (`passes`, true if validation of outbound objects is off) or the topic turns out to be too long.
     */
    method PublishTopic(topic: JsString, m: Key, s: Key, allowed: bool, passes: bool)
      returns (r: Result<Message, ClientError>)
      requires Valid()
      modifies this`headerIds, this`usedIds, subscriptionManager.topics.levels
      ensures Valid()
      ensures r == if !isStarted then Err(NotStarted)
                   else if !(ValidTopic(Some(topic)) && allowed) then Err(InvalidTopic)
                   else if !ValidSubject(m, s, false) then Err(InvalidSubject)
                   else if !passes then Err(InvalidObject)
                   else if Count(Print(TopicFormat(), m.value, s.value, topic)) > 65535 then Err(TooLong)
                   else Ok(Message(Print(TopicFormat(), m.value, s.value, topic), m.value, s.value,
                                   old(UsedIds(topic)) % 0x1_0000_0000))
      ensures usedIds == if isStarted && ValidTopic(Some(topic)) && allowed && ValidSubject(m, s, false)
                         then old(usedIds)[topic := old(UsedIds(topic)) + 1] else old(usedIds)
    {
      hide Print, Hang, Hold;
      if !isStarted {
        return Err(NotStarted);
      }
      if !ValidTopic(Some(topic)) || !allowed {
        return Err(InvalidTopic);
      }
      if !ValidSubject(m, s, false) {
        return Err(InvalidSubject);
      }
      var headerId := TakeHeaderId(topic);
      if !passes {
        return Err(InvalidObject);
      }
      var mqttTopic := subscriptionManager.topics.Construct(m.value, s.value, topic);
      var short := AssertMqttTopicLength(mqttTopic);
      if short.Err? {
        return Err(TooLong);
      }
      return Ok(Message(mqttTopic, m.value, s.value, headerId));
    }

    /**
     The handlers invoked for an inbound message, in order. The header of the message tells manufacturer and
     serial number; a message that does not pass validation is dropped.
     */
    method DispatchMessage(mqttTopic: JsString, m: Key, s: Key, passes: bool) returns (invoked: seq<(Id, Handler)>)
      requires Valid()
      ensures !passes ==> invoked == []
      ensures passes ==> FindsExpected(invoked, subscriptionManager.live, Resolve(TopicFormat(), mqttTopic, m, s))
    {
      hide Filter, Hang, Hold;
      var idAndHandlers, topic := subscriptionManager.Find(mqttTopic, m, s);
      invoked := [];
      if !passes {
        return;
      }
      var i := 0;
      while i < |idAndHandlers|
        invariant 0 <= i <= |idAndHandlers| && invoked == idAndHandlers[..i]
      {
        invoked := invoked + [idAndHandlers[i]];
        i := i + 1;
      }
      assert idAndHandlers[..i] == idAndHandlers;
    }
  }

  lemma AnySubscribable()
    ensures Compiled(TOPIC_ONLY) && Subscribable(TOPIC_ONLY, ANY)
    ensures ValidTopic(ANY[2]) && ValidSubject(ANY[0], ANY[1], true)
  {
    TopicOnlyCompiles();
    TopicOnlyPrints(WILDCARD, WILDCARD, Js("t"));
    OnlyAcceptable(0);
    CountBounds(Js("t"));
  }

  lemma UnsubscribedTwice(f: Format)
    requires |f.indices| == 5 && Subscribable(f, ANY)
    ensures var s1 := Step(f, NEW, Start);
            var s2 := Step(f, s1, Subscribe(ANY, 0, true));
            var s3 := Step(f, s2, Unsubscribe(0));
            s1.started && s2.started && 0 in s2.live && s3.started && 0 !in s3.live
  {
    hide Filter, Subscribable;
  }

  /** Unsubscribing a subscription again is rejected, on a new client with the smallest format. */
  method UnsubscribeTwice() returns (first: Result<(), ClientError>, second: Result<(), ClientError>)
    ensures first == Ok(()) && second == Err(UnknownSubscription)
  {
    hide Filter, Count, Compiled, Subscribable, ValidTopic, ValidSubject, Step, TOPIC_ONLY, ANY, NEW, MqttTopics.Valid,
         Hang, Hold, Represents, HeaderIdAfter, Acceptables;
    AnySubscribable();
    UnsubscribedTwice(TOPIC_ONLY);
    var client := new Client(TOPIC_ONLY);
    client.Start();
    var id := client.SubscribeTopic(ANY, 0, true);
    first := client.Unsubscribe(0);
    second := client.Unsubscribe(0);
  }
}
