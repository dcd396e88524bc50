/**
 What the requests to an action make it report, told from the events and the reports alone: a pause or its end
 comes first, then a cancellation, then a termination.
 */
module ActionRequests {
  import opened Wrappers
  import opened Actions
  import opened ActionStateMachine
  import opened ActionHistory

  /** The last word on pausing. */
  predicate WantsPause(paused: bool, events: seq<Event>) {
    if events == [] then paused
    else
      match events[|events| - 1]
      case Pause => true
      case Unpause => false
      case _ => WantsPause(paused, events[..|events| - 1])
  }

  /** A cancellation has been asked for, and the action of an order admits it. */
  predicate Canceled(setup: Setup, events: seq<Event>) {
    setup.def.cancelable && setup.scope != InstantScope && Cancel in events
  }

  /** An edge action has been asked to terminate. */
  predicate Terminated(setup: Setup, events: seq<Event>) {
    setup.scope == EdgeScope && Terminate in events
  }

  /** The action is PAUSED exactly if that is wanted. */
  predicate PauseSettled(paused: bool, events: seq<Event>, h: History) {
    WantsPause(paused, events) <==> Last(h) == Some(Paused)
  }

  /** As long as the action has not ended, its flags hold these requests. */
  predicate Holds(m: MachineState, pause: bool, cancel: bool, terminate: bool) {
    Done(m) || (m.pause, m.cancel, m.terminate) ==
               (pause, if cancel then Asked else NotAsked, if terminate then Asked else NotAsked)
  }

  lemma StepHolds(setup: Setup, m: MachineState, e: Event, pause: bool, cancel: bool, terminate: bool)
    requires Holds(m, pause, cancel, terminate) && (m.cancel == Ended <==> m.terminate == Ended)
    ensures Holds(ActionStateMachine.Step(setup, m, e).0, if e == Pause then true else if e == Unpause then false else pause,
                  cancel || (e == Cancel && setup.def.cancelable && setup.scope != InstantScope),
                  terminate || (e == Terminate && setup.scope == EdgeScope))
  {
  }

  lemma RequestsExtend(setup: Setup, paused: bool, events: seq<Event>, e: Event)
    ensures WantsPause(paused, events + [e]) <==>
            if e == Pause then true else if e == Unpause then false else WantsPause(paused, events)
    ensures Canceled(setup, events + [e]) <==>
            Canceled(setup, events) || (e == Cancel && setup.def.cancelable && setup.scope != InstantScope)
    ensures Terminated(setup, events + [e]) <==> Terminated(setup, events) || (e == Terminate && setup.scope == EdgeScope)
  {
    assert (events + [e])[..|events|] == events;
  }

  lemma {:induction false} RequestsAreHeld(setup: Setup, paused: bool, events: seq<Event>)
    requires Sound(setup.def)
    ensures Holds(Run(setup, paused, events).state, WantsPause(paused, events), Canceled(setup, events),
                  Terminated(setup, events))
  {
    if events != [] {
      hide Sound, Holds, Canceled, Terminated, WantsPause, ActionStateMachine.Step;
      var front, e := events[..|events| - 1], events[|events| - 1];
      RequestsAreHeld(setup, paused, front);
      HistoryIsPath(setup, paused, front);
      assert events == front + [e];
      RequestsExtend(setup, paused, front, e);
      StepHolds(setup, Run(setup, paused, front).state, e, WantsPause(paused, front), Canceled(setup, front),
                Terminated(setup, front));
    }
  }

  /** A request to pause, and one to go on, is obeyed by the next tick, whatever else has been asked for. */
  lemma PauseComesFirst(setup: Setup, paused: bool, events: seq<Event>, dt: real)
    requires Sound(setup.def)
    requires var h := Run(setup, paused, events).reports; !EndsTerminal(h) && !PauseSettled(paused, events, h)
    ensures var h := Run(setup, paused, events).reports;
            Run(setup, paused, events + [Tick(dt)]).reports ==
            h + [if WantsPause(paused, events) then Some(Paused) else Interrupted(setup, h)]
  {
    HistoryIsPath(setup, paused, events);
    RequestsAreHeld(setup, paused, events);
    RunExtends(setup, paused, events, Tick(dt));
  }

  /** An action that is not to be paused is initialized by its first tick. */
  lemma FirstReport(setup: Setup, paused: bool, events: seq<Event>, dt: real)
    requires Sound(setup.def) && Run(setup, paused, events).reports == [] && !WantsPause(paused, events)
    ensures Run(setup, paused, events + [Tick(dt)]).reports == [Some(setup.def.onInit)]
  {
    HistoryIsPath(setup, paused, events);
    RequestsAreHeld(setup, paused, events);
    RunExtends(setup, paused, events, Tick(dt));
  }

  /** Otherwise a cancelled action fails by the next tick, however long it is. */
  lemma CanceledFails(setup: Setup, paused: bool, events: seq<Event>, dt: real)
    requires Sound(setup.def) && Canceled(setup, events)
    requires var h := Run(setup, paused, events).reports;
             h != [] && !EndsTerminal(h) && PauseSettled(paused, events, h)
    ensures Run(setup, paused, events + [Tick(dt)]).reports == Run(setup, paused, events).reports + [Some(Failed)]
  {
    HistoryIsPath(setup, paused, events);
    RequestsAreHeld(setup, paused, events);
    RunExtends(setup, paused, events, Tick(dt));
  }

  /** An edge action that is terminated, and not cancelled, ends as its ON_TERMINATE says, by the next tick. */
  lemma TerminatedEnds(setup: Setup, paused: bool, events: seq<Event>, dt: real)
    requires Sound(setup.def) && setup.def.onTerminate.Some?
    requires Terminated(setup, events) && !Canceled(setup, events)
    requires var h := Run(setup, paused, events).reports;
             h != [] && !EndsTerminal(h) && PauseSettled(paused, events, h)
    ensures Run(setup, paused, events + [Tick(dt)]).reports ==
            Run(setup, paused, events).reports + [setup.def.onTerminate]
  {
    HistoryIsPath(setup, paused, events);
    RequestsAreHeld(setup, paused, events);
    RunExtends(setup, paused, events, Tick(dt));
  }

  /** What is paused and asked for nothing else waits. */
  lemma PausedWaits(setup: Setup, paused: bool, events: seq<Event>, dt: real)
    requires Sound(setup.def) && WantsPause(paused, events)
    requires !Canceled(setup, events) && !Terminated(setup, events)
    requires Last(Run(setup, paused, events).reports) == Some(Paused)
    ensures Run(setup, paused, events + [Tick(dt)]).reports == Run(setup, paused, events).reports
  {
    HistoryIsPath(setup, paused, events);
    RequestsAreHeld(setup, paused, events);
    RunExtends(setup, paused, events, Tick(dt));
  }
}
