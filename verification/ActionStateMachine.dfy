/**
 The tick-driven state machine of one virtual action. `Step` says on values what one event does to
 a machine; class `VirtualActionStateMachine` does the same in place.
 */
module ActionStateMachine {
  import opened Wrappers
  import opened Actions

  /** A request flag: `false`, `true`, and `undefined` once the action has ended. */
  datatype Request = NotAsked | Asked | Ended

  /** The read-only part of a machine. */
  datatype Setup = Setup(action: Action, scope: Scope, def: Definition)

  datatype MachineState = MachineState(
    status: Option<Status>,
    statusOnPause: Option<Status>,
    terminate: Request,
    cancel: Request,
    pause: bool,
    spent: map<Status, real>)

  /** What one event makes the controller see. `Throws` is an exception that leaves `tick`. */
  datatype Outcome = Quiet | Reports(status: Option<Status>) | Throws

  datatype Event = Tick(interval: real) | Pause | Unpause | Cancel | Terminate

  function Fresh(paused: bool): MachineState {
    MachineState(None, None, NotAsked, NotAsked, paused, map[Initializing := 0.0, Running := 0.0])
  }

  predicate Done(m: MachineState) {
    m.terminate == Ended || m.cancel == Ended
  }

  function Transition(m: MachineState, status: Option<Status>): MachineState {
    if status.Some? && Terminal(status.value)
    then m.(status := status, terminate := Ended, cancel := Ended, pause := false)
    else m.(status := status)
  }

  function Spent(m: MachineState, s: Status): real {
    if s in m.spent then m.spent[s] else 0.0
  }

  /** The clock-driven part of a tick, with the time spent in the current status so far. */
  function WorkOn(setup: Setup, m: MachineState, s: Status, interval: real): (MachineState, Outcome) {
    if DefOf(setup.def, s).None? then
      (m, Throws)
    else
      var sd := DefOf(setup.def, s).value;
      var duration := Spent(m, s) + interval;
      var limit := TransitionDuration(sd, setup.action);
      if limit.Some? && duration >= limit.value
      then (Transition(m.(spent := m.spent[s := 0.0]), Some(sd.next)), Reports(Some(sd.next)))
      else (m.(spent := m.spent[s := duration]), Quiet)
  }

  function Enter(m: MachineState, status: Option<Status>): (MachineState, Outcome) {
    (Transition(m, status), Reports(status))
  }

  function OnTick(setup: Setup, m: MachineState, interval: real): (MachineState, Outcome) {
    if Done(m) then
      (m, Quiet)
    else if m.pause && m.status != Some(Paused) then
      var resumeTo := if m.status.Some? then m.status else Some(setup.def.onInit);
      Enter(m.(statusOnPause := resumeTo), Some(Paused))
    else if !m.pause && m.status == Some(Paused) then
      Enter(m.(statusOnPause := None), m.statusOnPause)
    else if m.status.None? then
      Enter(m, Some(setup.def.onInit))
    else if m.cancel == Asked && setup.def.cancelable then
      Enter(m, Some(Failed))
    else if m.terminate == Asked then
      if setup.def.onTerminate.None? then (m, Throws) else Enter(m, setup.def.onTerminate)
    else if m.status == Some(Paused) then
      (m, Quiet)
    else
      WorkOn(setup, m, m.status.value, interval)
  }

  function Step(setup: Setup, m: MachineState, e: Event): (MachineState, Outcome) {
    match e
    case Tick(interval) => OnTick(setup, m, interval)
    case Pause => (m.(pause := true), Quiet)
    case Unpause => (m.(pause := false), Quiet)
    case Cancel =>
      if setup.scope == InstantScope || m.cancel != NotAsked || !setup.def.cancelable
      then (m, Quiet) else (m.(cancel := Asked), Quiet)
    case Terminate =>
      if setup.scope != EdgeScope || m.terminate != NotAsked
      then (m, Quiet) else (m.(terminate := Asked), Quiet)
  }

  /** A machine that works on its status on the next tick. */
  predicate Working(m: MachineState) {
    && !m.pause && m.status in {Some(Initializing), Some(Running)}
    && m.cancel == NotAsked && m.terminate == NotAsked
  }

  /** The state after some events, and everything that was reported on the way. */
  datatype Trace = Trace(state: MachineState, reports: seq<Option<Status>>)

  function Run(setup: Setup, paused: bool, events: seq<Event>): Trace {
    if events == [] then Trace(Fresh(paused), [])
    else
      var before := Run(setup, paused, events[..|events| - 1]);
      var (m, out) := Step(setup, before.state, events[|events| - 1]);
      Trace(m, before.reports + if out.Reports? then [out.status] else [])
  }

  lemma RunExtends(setup: Setup, paused: bool, events: seq<Event>, e: Event)
    ensures var before := Run(setup, paused, events);
            var (m, out) := Step(setup, before.state, e);
            Run(setup, paused, events + [e]) ==
            Trace(m, before.reports + if out.Reports? then [out.status] else [])
  {
    assert (events + [e])[..|events|] == events;
  }

  /** The machine as the adapter holds it: an object whose fields its methods update. */
  class VirtualActionStateMachine {
    const setup: Setup
    // The order in which the adapter created its machines; stands for the object's identity.
    ghost const serial: nat
    var actionStatus: Option<Status>
    var actionStatusOnPause: Option<Status>
    var shouldTerminate: Request
    var shouldCancel: Request
    var shouldPause: bool
    var statusDurationTimes: map<Status, real>

    function State(): MachineState
      reads this
    {
      MachineState(actionStatus, actionStatusOnPause, shouldTerminate, shouldCancel, shouldPause, statusDurationTimes)
    }

    constructor (setup: Setup, shouldPause: bool, ghost serial: nat)
      ensures this.setup == setup && this.serial == serial
      ensures State() == Fresh(shouldPause)
    {
      this.setup := setup;
      this.serial := serial;
      this.shouldPause := shouldPause;
      actionStatus := None;
      actionStatusOnPause := None;
      shouldTerminate := NotAsked;
      shouldCancel := NotAsked;
      statusDurationTimes := map[Initializing := 0.0, Running := 0.0];
    }

    /** Whether this machine runs the action with the given identity. */
    predicate Matches(actionId: string, scope: Scope) {
      setup.action.actionId == actionId && setup.scope == scope
    }

    method Tick(realInterval: real) returns (outcome: Outcome)
      modifies this
      ensures (State(), outcome) == OnTick(setup, old(State()), realInterval)
    {
      if shouldTerminate == Ended || shouldCancel == Ended {
        return Quiet;
      }

      // Transition to/from PAUSED if requested.
      if shouldPause && actionStatus != Some(Paused) {
        actionStatusOnPause := if actionStatus.Some? then actionStatus else Some(setup.def.onInit);
        outcome := TransitionTo(Some(Paused));
        return;
      }
      if !shouldPause && actionStatus == Some(Paused) {
        var resumedStatus := actionStatusOnPause;
        actionStatusOnPause := None;
        outcome := TransitionTo(resumedStatus);
        return;
      }

      if actionStatus.None? {
        outcome := TransitionTo(Some(setup.def.onInit));
        return;
      }
      if shouldCancel == Asked && setup.def.cancelable {
        outcome := TransitionTo(Some(Failed));
        return;
      }
      if shouldTerminate == Asked {
        if setup.def.onTerminate.None? {
          return Throws;
        }
        outcome := TransitionTo(setup.def.onTerminate);
        return;
      }
      if actionStatus == Some(Paused) {
        return Quiet;
      }

      var status := actionStatus.value;
      if DefOf(setup.def, status).None? {
        return Throws;
      }
      var actionStatusDef := DefOf(setup.def, status).value;
      var duration := if status in statusDurationTimes then statusDurationTimes[status] else 0.0;
      duration := duration + realInterval;
      var transitionDuration := TransitionDuration(actionStatusDef, setup.action);
      if transitionDuration.Some? && duration >= transitionDuration.value {
        statusDurationTimes := statusDurationTimes[status := 0.0];
        outcome := TransitionTo(Some(actionStatusDef.next));
      } else {
        statusDurationTimes := statusDurationTimes[status := duration];
        outcome := Quiet;
      }
    }

    method TransitionTo(status: Option<Status>) returns (outcome: Outcome)
      modifies this
      ensures State() == Transition(old(State()), status) && outcome == Reports(status)
    {
      actionStatus := status;
      if actionStatus == Some(Finished) || actionStatus == Some(Failed) {
        shouldTerminate := Ended;
        shouldCancel := Ended;
        shouldPause := false;
      }
      outcome := Reports(status);
    }

    method RequestTermination()
      modifies this
      ensures State() == Step(setup, old(State()), Event.Terminate).0
    {
      if setup.scope != EdgeScope || shouldTerminate != NotAsked {
        return;
      }
      shouldTerminate := Asked;
    }

    method RequestCancel()
      modifies this
      ensures State() == Step(setup, old(State()), Event.Cancel).0
    {
      if setup.scope == InstantScope || shouldCancel != NotAsked || !setup.def.cancelable {
        return;
      }
      shouldCancel := Asked;
    }

    method RequestPause()
      modifies this
      ensures State() == Step(setup, old(State()), Event.Pause).0
    {
      shouldPause := true;
    }

    method RequestUnpause()
      modifies this
      ensures State() == Step(setup, old(State()), Event.Unpause).0
    {
      shouldPause := false;
    }
  }
}
