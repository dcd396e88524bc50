/**
 Tracking of connection states: handlers are chained, new handlers are replayed the known states, and every
 handler has seen the latest state of every tracked AGV.
 */
module MasterControlClient {
  import opened Wrappers
  import opened JsMap
  import opened AgvIdMap

  datatype Connection = Connection(connectionState: string, timestamp: string)

  /** The closure that `trackAgvs` builds: the previous chain is called first, then the new handler. */
  datatype TrackHandler = Single(handler: nat) | Chain(previous: TrackHandler, handler: nat)

  /** A handler invocation. */
  datatype Call = Call(handler: nat, subject: AgvId, connection: Connection)

  /** The handlers of a chain in the order of their registration. */
  function HandlersOf(t: TrackHandler): seq<nat> {
    match t
    case Single(h) => [h]
    case Chain(previous, h) => HandlersOf(previous) + [h]
  }

  function Handlers(t: Option<TrackHandler>): seq<nat> {
    if t.Some? then HandlersOf(t.value) else []
  }

  function CallAll(handlers: seq<nat>, subject: AgvId, c: Connection): (calls: seq<Call>)
    ensures |calls| == |handlers|
    ensures forall i :: 0 <= i < |calls| ==> calls[i] == Call(handlers[i], subject, c)
  {
    seq(|handlers|, i requires 0 <= i < |handlers| => Call(handlers[i], subject, c))
  }

  function Replay(h: nat, known: seq<(AgvId, Connection)>): (calls: seq<Call>)
    ensures |calls| == |known|
    ensures forall i :: 0 <= i < |calls| ==> calls[i] == Call(h, known[i].0, known[i].1)
  {
    seq(|known|, i requires 0 <= i < |known| => Call(h, known[i].0, known[i].1))
  }

  /** What a handler was last told about an AGV. */
  function LastSeen(log: seq<Call>, h: nat, id: AgvId): Option<Connection> {
    if log == [] then None
    else
      var last := log[|log| - 1];
      if last.handler == h && last.subject == id then Some(last.connection)
      else LastSeen(log[..|log| - 1], h, id)
  }

  /** Every registered handler has last seen exactly what is tracked, and nobody else has been called. */
  ghost predicate AllSeen(states: Nested<Connection>, handlers: seq<nat>, log: seq<Call>) {
    forall h, id :: LastSeen(log, h, id) == if h in handlers then Lookup(states, id) else None
  }

  lemma {:induction false} LastSeenConcat(log: seq<Call>, more: seq<Call>, h: nat, id: AgvId)
    ensures LastSeen(log + more, h, id) ==
            if LastSeen(more, h, id).Some? then LastSeen(more, h, id) else LastSeen(log, h, id)
  {
    if more == [] {
      assert log + more == log;
    } else {
      assert (log + more)[..|log + more| - 1] == log + more[..|more| - 1];
      LastSeenConcat(log, more[..|more| - 1], h, id);
    }
  }

  lemma {:induction false} LastSeenOfCalls(calls: seq<Call>, h: nat, id: AgvId, c: Connection)
    requires forall i :: 0 <= i < |calls| && calls[i].handler == h && calls[i].subject == id ==> calls[i].connection == c
    ensures LastSeen(calls, h, id) ==
            if exists i :: 0 <= i < |calls| && calls[i].handler == h && calls[i].subject == id then Some(c) else None
  {
    if calls != [] {
      LastSeenOfCalls(calls[..|calls| - 1], h, id, c);
    }
  }

  lemma CallAllSeen(handlers: seq<nat>, subject: AgvId, c: Connection, h: nat, id: AgvId)
    ensures LastSeen(CallAll(handlers, subject, c), h, id) == if h in handlers && id == subject then Some(c) else None
  {
    var calls := CallAll(handlers, subject, c);
    LastSeenOfCalls(calls, h, id, c);
    if h in handlers && id == subject {
      var i :| 0 <= i < |handlers| && handlers[i] == h;
      assert calls[i].handler == h;
    }
  }

  lemma ReplaySeen(handler: nat, states: Nested<Connection>, h: nat, id: AgvId)
    requires WellFormed(states)
    ensures LastSeen(Replay(handler, Entries(states)), h, id) == if h == handler then Lookup(states, id) else None
  {
    var known, calls := Entries(states), Replay(handler, Entries(states));
    forall c ensures (id, c) in known <==> Lookup(states, id) == Some(c) {
      EntriesAreLookups(states, id, c);
    }
    var c := if Lookup(states, id).Some? then Lookup(states, id).value else Connection("", "");
    assert forall i :: 0 <= i < |calls| && calls[i].subject == id ==> (id, calls[i].connection) in known;
    LastSeenOfCalls(calls, h, id, c);
    if h == handler && Lookup(states, id).Some? {
      var i :| 0 <= i < |known| && known[i] == (id, c);
      assert calls[i].handler == h;
    }
  }

  /* Runs on values */

  datatype Tracker = Tracker(states: Nested<Connection>, handlers: seq<nat>, log: seq<Call>)

  datatype Event =
    | TrackAgvs(handler: nat)
    | ConnectionMessage(subject: AgvId, connection: Connection)
    | Reset

  /** The log restarts with a reset: it tells what happened since then. */
  function Step(t: Tracker, e: Event): Tracker {
    match e
    case TrackAgvs(h) => t.(handlers := t.handlers + [h], log := t.log + Replay(h, Entries(t.states)))
    case ConnectionMessage(id, c) =>
      t.(states := Put(t.states, id, c), log := t.log + CallAll(t.handlers, id, c))
    case Reset => Tracker([], [], [])
  }

  function Run(t: Tracker, events: seq<Event>): Tracker
    decreases |events|
  {
    if events == [] then t else Run(Step(t, events[0]), events[1..])
  }

  ghost predicate Agrees(t: Tracker) {
    WellFormed(t.states) && AllSeen(t.states, t.handlers, t.log)
  }

  lemma TrackKeeps(t: Tracker, handler: nat)
    requires Agrees(t)
    ensures Agrees(Step(t, TrackAgvs(handler)))
  {
    var t' := Step(t, TrackAgvs(handler));
    forall h, id ensures LastSeen(t'.log, h, id) == if h in t'.handlers then Lookup(t'.states, id) else None {
      LastSeenConcat(t.log, Replay(handler, Entries(t.states)), h, id);
      ReplaySeen(handler, t.states, h, id);
      assert LastSeen(t.log, h, id) == if h in t.handlers then Lookup(t.states, id) else None;
    }
  }

  lemma MessageKeeps(t: Tracker, subject: AgvId, c: Connection)
    requires Agrees(t)
    ensures Agrees(Step(t, ConnectionMessage(subject, c)))
  {
    var t' := Step(t, ConnectionMessage(subject, c));
    PutLooksUp(t.states, subject, c, subject);
    forall h, id ensures LastSeen(t'.log, h, id) == if h in t'.handlers then Lookup(t'.states, id) else None {
      LastSeenConcat(t.log, CallAll(t.handlers, subject, c), h, id);
      CallAllSeen(t.handlers, subject, c, h, id);
      PutLooksUp(t.states, subject, c, id);
      assert LastSeen(t.log, h, id) == if h in t.handlers then Lookup(t.states, id) else None;
    }
  }

  lemma {:induction false} RunKeeps(t: Tracker, events: seq<Event>)
    requires Agrees(t)
    ensures Agrees(Run(t, events))
    decreases |events|
  {
    if events != [] {
      match events[0] {
        case TrackAgvs(h) => TrackKeeps(t, h);
        case ConnectionMessage(id, c) => MessageKeeps(t, id, c);
        case Reset =>
      }
      RunKeeps(Step(t, events[0]), events[1..]);
    }
  }

  /**
   After any run, what a registered handler has last seen of an AGV is what `getTrackedState` returns, whenever
   the handler was registered.
   */
  lemma HandlersSeeTrackedStates(events: seq<Event>, h: nat, id: AgvId)
    requires h in Run(Tracker([], [], []), events).handlers
    ensures var t := Run(Tracker([], [], []), events); LastSeen(t.log, h, id) == Lookup(t.states, id)
  {
    var start := Tracker([], [], []);
    assert Agrees(start);
    RunKeeps(start, events);
    assert AllSeen(Run(start, events).states, Run(start, events).handlers, Run(start, events).log);
  }

  /* What is tracked, told from the events */

  /** The connection in the last message of an AGV since the last reset. */
  function LastMessage(events: seq<Event>, id: AgvId): Option<Connection> {
    if events == [] then None
    else
      match events[|events| - 1]
      case ConnectionMessage(subject, c) => if subject == id then Some(c) else LastMessage(events[..|events| - 1], id)
      case TrackAgvs(_) => LastMessage(events[..|events| - 1], id)
      case Reset => None
  }

  /** The handlers registered since the last reset, in order. */
  function Registered(events: seq<Event>): seq<nat> {
    if events == [] then []
    else
      match events[|events| - 1]
      case TrackAgvs(h) => Registered(events[..|events| - 1]) + [h]
      case ConnectionMessage(_, _) => Registered(events[..|events| - 1])
      case Reset => []
  }

  const UNTRACKED := Tracker([], [], [])

  lemma {:induction false} RunOneMore(t: Tracker, events: seq<Event>, e: Event)
    ensures Run(t, events + [e]) == Step(Run(t, events), e)
    decreases |events|
  {
    if events == [] {
      assert [] + [e] == [e] && [e][1..] == [];
    } else {
      assert (events + [e])[1..] == events[1..] + [e];
      RunOneMore(Step(t, events[0]), events[1..], e);
    }
  }

  /** After any run, what is tracked of an AGV is its last message, and all handlers are registered. */
  lemma {:induction false} TracksLastMessages(events: seq<Event>, id: AgvId)
    ensures var t := Run(UNTRACKED, events);
            WellFormed(t.states) && (Lookup(t.states, id), t.handlers) == (LastMessage(events, id), Registered(events))
  {
    if events != [] {
      var front, e := events[..|events| - 1], events[|events| - 1];
      TracksLastMessages(front, id);
      assert events == front + [e];
      RunOneMore(UNTRACKED, front, e);
      if e.ConnectionMessage? {
        PutLooksUp(Run(UNTRACKED, front).states, e.subject, e.connection, id);
      }
    }
  }

  /** A message is told to each registered handler once, in the order of their registration, and to nobody else. */
  lemma MessageIsTold(events: seq<Event>, id: AgvId, c: Connection)
    ensures var handlers := Registered(events);
            Run(UNTRACKED, events + [ConnectionMessage(id, c)]).log ==
            Run(UNTRACKED, events).log + seq(|handlers|, i requires 0 <= i < |handlers| => Call(handlers[i], id, c))
  {
    TracksLastMessages(events, id);
    RunOneMore(UNTRACKED, events, ConnectionMessage(id, c));
    var handlers := Registered(events);
    assert CallAll(handlers, id, c) == seq(|handlers|, i requires 0 <= i < |handlers| => Call(handlers[i], id, c));
  }

  /** A new handler is told the last message of each known AGV once, and nobody else is told anything. */
  lemma RegistrationIsReplayed(events: seq<Event>, h: nat)
    ensures var before, after := Run(UNTRACKED, events).log, Run(UNTRACKED, events + [TrackAgvs(h)]).log;
            && |before| <= |after| && before == after[..|before|]
            && (forall call :: call in after[|before|..] <==>
                  call.handler == h && LastMessage(events, call.subject) == Some(call.connection))
            && (forall i, j :: |before| <= i < j < |after| ==> after[i].subject != after[j].subject)
  {
    var t := Run(UNTRACKED, events);
    TracksLastMessages(events, AgvId([], []));
    RunOneMore(UNTRACKED, events, TrackAgvs(h));
    var calls := Replay(h, Entries(t.states));
    var after := t.log + calls;
    assert after[|t.log|..] == calls && after[..|t.log|] == t.log;
    forall call ensures call in calls <==> call.handler == h && LastMessage(events, call.subject) == Some(call.connection) {
      TracksLastMessages(events, call.subject);
      ReplayedCall(t.states, h, call);
    }
    EntriesDistinct(t.states);
    forall i, j | |t.log| <= i < j < |after| ensures after[i].subject != after[j].subject {
      assert after[i] == calls[i - |t.log|] && after[j] == calls[j - |t.log|];
    }
  }

  lemma ReplayedCall(states: Nested<Connection>, h: nat, call: Call)
    requires WellFormed(states)
    ensures call in Replay(h, Entries(states)) <==>
              call.handler == h && Lookup(states, call.subject) == Some(call.connection)
  {
    var known, calls := Entries(states), Replay(h, Entries(states));
    EntriesAreLookups(states, call.subject, call.connection);
    if call.handler == h && (call.subject, call.connection) in known {
      var i :| 0 <= i < |known| && known[i] == (call.subject, call.connection);
      assert calls[i] == call;
    }
    if call in calls {
      var i :| 0 <= i < |calls| && calls[i] == call;
      assert known[i] == (call.subject, call.connection);
    }
  }

  /** A reset forgets everything. */
  lemma ResetForgets(events: seq<Event>)
    ensures Run(UNTRACKED, events + [Reset]) == UNTRACKED
  {
    RunOneMore(UNTRACKED, events, Reset);
  }

  class MasterControlClient {
    const connectionStates: AgvIdMap<Connection>
    var trackHandler: Option<TrackHandler>
    // The handler invocations since the last reset.
    ghost var log: seq<Call>

    ghost predicate Valid()
      reads this, connectionStates
    {
      Agrees(State())
    }

    ghost function State(): Tracker
      reads this, connectionStates
    {
      Tracker(connectionStates.nested, Handlers(trackHandler), log)
    }

    constructor ()
      ensures Valid() && State() == Tracker([], [], [])
      ensures fresh(connectionStates)
    {
      connectionStates := new AgvIdMap<Connection>();
      trackHandler := None;
      log := [];
    }

    /** Invokes a chain of handlers. */
    method Invoke(t: TrackHandler, subject: AgvId, c: Connection)
      modifies this`log
      ensures log == old(log) + CallAll(HandlersOf(t), subject, c)
      decreases t
    {
      match t {
        case Single(h) =>
          log := log + [Call(h, subject, c)];
        case Chain(previous, h) =>
          Invoke(previous, subject, c);
          log := log + [Call(h, subject, c)];
      }
    }

    /** Dispatches the known states on a handler. */
    method ReplayTo(handler: nat, known: seq<(AgvId, Connection)>)
      modifies this`log
      ensures log == old(log) + Replay(handler, known)
    {
      var i := 0;
      while i < |known|
        invariant 0 <= i <= |known| && log == old(log) + Replay(handler, known)[..i]
      {
        log := log + [Call(handler, known[i].0, known[i].1)];
        i := i + 1;
      }
      assert Replay(handler, known)[..i] == Replay(handler, known);
    }

    method TrackAgvs(handler: nat)
      requires Valid()
      modifies this
      ensures Valid() && State() == Step(old(State()), Event.TrackAgvs(handler))
    {
      ghost var before := State();
      if trackHandler == None {
        trackHandler := Some(Single(handler));
      } else {
        trackHandler := Some(Chain(trackHandler.value, handler));
      }
      var known := connectionStates.Iterate();
      ReplayTo(handler, known);
      assert State() == Step(before, Event.TrackAgvs(handler));
      TrackKeeps(before, handler);
    }

    /** The handler of the subscription to connection messages. */
    method OnConnection(connection: Connection, agvId: AgvId)
      requires Valid()
      modifies this, connectionStates
      ensures Valid() && State() == Step(old(State()), ConnectionMessage(agvId, connection))
    {
      MessageKeeps(State(), agvId, connection);
      connectionStates.Set(agvId, connection);
      if trackHandler == None {
        assert CallAll([], agvId, connection) == [];
        return;
      }
      Invoke(trackHandler.value, agvId, connection);
    }

    /** Every registered handler knows the result already. */
    method GetTrackedState(subject: AgvId) returns (state: Option<Connection>)
      requires Valid()
      ensures state == Lookup(connectionStates.nested, subject)
      ensures forall h :: h in Handlers(trackHandler) ==> LastSeen(log, h, subject) == state
    {
      state := connectionStates.Get(subject);
      assert AllSeen(connectionStates.nested, Handlers(trackHandler), log);
    }

    method GetTrackedStates() returns (states: seq<(AgvId, Connection)>)
      requires Valid()
      ensures Distinct(states)
      ensures forall id, c :: (id, c) in states <==> Lookup(connectionStates.nested, id) == Some(c)
    {
      states := [];
      var tracked := connectionStates.Iterate();
      var i := 0;
      while i < |tracked|
        invariant 0 <= i <= |tracked| && states == tracked[..i]
      {
        states := states + [(tracked[i].0, tracked[i].1)];
        i := i + 1;
      }
      assert states == tracked;
      forall id, c ensures (id, c) in states <==> Lookup(connectionStates.nested, id) == Some(c) {
        EntriesAreLookups(connectionStates.nested, id, c);
      }
    }

    method Reset()
      modifies this, connectionStates
      ensures Valid() && State() == Step(old(State()), Event.Reset)
    {
      connectionStates.Clear();
      trackHandler := None;
      log := [];
    }
  }
}
