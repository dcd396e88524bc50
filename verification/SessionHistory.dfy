/** The state of a client's session, told from the events that have led to it. */
module SessionHistory {
  import opened TopicFormat
  import opened SubscriptionTrie
  import opened SubscriptionManager
  import opened BrokerSync

  /** The last word on starting and stopping. */
  predicate StartedAfter(events: seq<Event>) {
    if events == [] then false
    else
      match events[|events| - 1]
      case Start => true
      case Stop => false
      case _ => StartedAfter(events[..|events| - 1])
  }

  /** The last event that bears on the connection has set it up: a start, or a reconnect of a started client. */
  predicate ConnectedAfter(events: seq<Event>) {
    if events == [] then false
    else
      var before := events[..|events| - 1];
      match events[|events| - 1]
      case Start => !StartedAfter(before) || ConnectedAfter(before)
      case Reconnect => StartedAfter(before)
      case Stop => false
      case ConnectionLost => false
      case _ => ConnectedAfter(before)
  }

  predicate Grants(f: Format, before: seq<Event>, e: Event)
    requires |f.indices| == 5
  {
    e.Subscribe? && e.allowed && Subscribable(f, e.path) && StartedAfter(before)
  }

  /** The number of subscriptions granted. */
  function GrantCount(f: Format, events: seq<Event>): nat
    requires |f.indices| == 5
  {
    if events == [] then 0
    else
      var before := events[..|events| - 1];
      GrantCount(f, before) + if Grants(f, before, events[|events| - 1]) then 1 else 0
  }

  /** The k-th event has been granted the id. */
  predicate GrantedAt(f: Format, events: seq<Event>, k: int, id: Id)
    requires |f.indices| == 5
  {
    0 <= k < |events| && Grants(f, events[..k], events[k]) && GrantCount(f, events[..k]) == id
  }

  /** The subscription has been ended since: by itself, or with all others when the client was stopped. */
  predicate EndedAfter(events: seq<Event>, k: int, id: Id) {
    exists j :: k < j < |events| && 0 <= j && (events[j] == Stop || events[j] == Unsubscribe(id))
  }

  lemma {:induction false} RunOneMore(f: Format, s: Session, events: seq<Event>, e: Event)
    requires |f.indices| == 5
    ensures Run(f, s, events + [e]) == Step(f, Run(f, s, events), e)
    decreases |events|
  {
    hide Step;
    if events == [] {
      assert [] + [e] == [e] && [e][1..] == [];
    } else {
      assert (events + [e])[1..] == events[1..] + [e];
      RunOneMore(f, Step(f, s, events[0]), events[1..], e);
    }
  }

  /** After any run: started, connected, and the next id. */
  lemma {:induction false} SessionExactly(f: Format, events: seq<Event>)
    requires |f.indices| == 5
    ensures var s := Run(f, NEW, events);
            && (s.started, s.connected, s.nextId) == (StartedAfter(events), ConnectedAfter(events), GrantCount(f, events))
            && (s.started || (s.live, s.connected) == (map[], false))
  {
    if events != [] {
      hide Subscribable, Filter;
      var front, e := events[..|events| - 1], events[|events| - 1];
      SessionExactly(f, front);
      assert events == front + [e];
      RunOneMore(f, NEW, front, e);
    }
  }

  lemma GrantedIn(f: Format, events: seq<Event>, k: int, id: Id)
    requires |f.indices| == 5 && 0 <= k < |events| - 1
    ensures GrantedAt(f, events, k, id) <==> GrantedAt(f, events[..|events| - 1], k, id)
  {
    assert events[..|events| - 1][..k] == events[..k];
  }

  lemma {:induction false} GrantedEarlier(f: Format, events: seq<Event>, k: int, id: Id)
    requires |f.indices| == 5 && GrantedAt(f, events, k, id)
    ensures id < GrantCount(f, events)
  {
    var n := |events| - 1;
    if k < n {
      GrantedIn(f, events, k, id);
      GrantedEarlier(f, events[..n], k, id);
    }
  }

  lemma EndedIn(events: seq<Event>, k: int, id: Id)
    requires 0 <= k < |events| - 1
    ensures var e := events[|events| - 1];
            EndedAfter(events, k, id) <==>
              EndedAfter(events[..|events| - 1], k, id) || e == Stop || e == Unsubscribe(id)
  {
    var n := |events| - 1;
    if j :| k < j < n && 0 <= j && (events[..n][j] == Stop || events[..n][j] == Unsubscribe(id)) {
      assert events[j] == events[..n][j];
    }
    if j :| k < j < |events| && 0 <= j && (events[j] == Stop || events[j] == Unsubscribe(id)) {
      assert j < n ==> events[..n][j] == events[j];
    }
  }

  /** What one event does to the live subscriptions. */
  lemma StepLive(f: Format, events: seq<Event>)
    requires |f.indices| == 5 && events != []
    ensures var front, e := events[..|events| - 1], events[|events| - 1];
            var before := Run(f, NEW, front).live;
            Run(f, NEW, events).live ==
            if Grants(f, front, e) then before[GrantCount(f, front) := Subscription(e.path, e.handler)]
            else if e == Stop then map[]
            else if e.Unsubscribe? then before - {e.id} else before
  {
    hide Subscribable, Filter, StartedAfter, GrantCount;
    var front, e := events[..|events| - 1], events[|events| - 1];
    SessionExactly(f, front);
    assert events == front + [e];
    RunOneMore(f, NEW, front, e);
  }

  /** What is live has been granted, and not been ended since. */
  lemma {:induction false} LiveIsGranted(f: Format, events: seq<Event>, id: Id)
    requires |f.indices| == 5 && id in Run(f, NEW, events).live
    ensures exists k :: GrantedAt(f, events, k, id) && !EndedAfter(events, k, id)
  {
    hide Grants, Run, GrantCount;
    var n := |events| - 1;
    if events == [] {
      assert Run(f, NEW, []) == NEW by {
        NothingRun(f);
      }
    } else {
      StepLive(f, events);
      if Grants(f, events[..n], events[n]) && id == GrantCount(f, events[..n]) {
        assert GrantedAt(f, events, n, id);
      } else {
        if Grants(f, events[..n], events[n]) {
          GrantIsSubscription(f, events[..n], events[n]);
        }
        LiveIsGranted(f, events[..n], id);
        var k :| GrantedAt(f, events[..n], k, id) && !EndedAfter(events[..n], k, id);
        GrantedIn(f, events, k, id);
        EndedIn(events, k, id);
      }
    }
  }

  lemma GrantIsSubscription(f: Format, before: seq<Event>, e: Event)
    requires |f.indices| == 5 && Grants(f, before, e)
    ensures e.Subscribe?
  {
  }

  lemma NothingRun(f: Format)
    requires |f.indices| == 5
    ensures Run(f, NEW, []) == NEW
  {
  }

  /** What has been granted, and not been ended since, is live as it was granted. */
  lemma {:induction false} GrantedIsLive(f: Format, events: seq<Event>, k: int, id: Id)
    requires |f.indices| == 5 && GrantedAt(f, events, k, id) && !EndedAfter(events, k, id)
    ensures events[k].Subscribe? && id in Run(f, NEW, events).live
    ensures Run(f, NEW, events).live[id] == Subscription(events[k].path, events[k].handler)
  {
    hide Grants, Run, GrantCount;
    var n := |events| - 1;
    StepLive(f, events);
    GrantIsSubscription(f, events[..k], events[k]);
    if k < n {
      GrantedIn(f, events, k, id);
      EndedIn(events, k, id);
      GrantedEarlier(f, events[..n], k, id);
      GrantedIsLive(f, events[..n], k, id);
    }
  }
}
