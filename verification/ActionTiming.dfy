/**
 How long an action takes on the clock, for every pattern of ticks, pauses and requests, compared with the
 closed-form estimate `Actions.EstimateFrom`.
 */
module ActionTiming {
  import opened Wrappers
  import opened Actions
  import opened ActionStateMachine
  import opened ActionHistory

  /** The time accounted by the last of `events` to status `s`: a tick that finds the machine working in it. */
  function WorkOfLast(setup: Setup, paused: bool, events: seq<Event>, s: Status): real
    requires events != []
  {
    var m := Run(setup, paused, events[..|events| - 1]).state;
    var e := events[|events| - 1];
    if e.Tick? && Working(m) && m.status == Some(s) then e.interval else 0.0
  }

  /** The sum of the intervals of the ticks that found the machine working in status `s`. */
  function WorkedIn(setup: Setup, paused: bool, events: seq<Event>, s: Status): real {
    if events == [] then 0.0
    else WorkedIn(setup, paused, events[..|events| - 1], s) + WorkOfLast(setup, paused, events, s)
  }

  /** All time accounted to the action. */
  function Worked(setup: Setup, paused: bool, events: seq<Event>): real {
    WorkedIn(setup, paused, events, Initializing) + WorkedIn(setup, paused, events, Running)
  }

  /** The status whose time is running or will run on: the current, the interrupted or the initial one. */
  function Pending(setup: Setup, m: MachineState): Status {
    if m.status.None? then setup.def.onInit
    else if m.status == Some(Paused) then (if m.statusOnPause.Some? then m.statusOnPause.value else setup.def.onInit)
    else m.status.value
  }

  /* What a step does to the accounts, case by case */

  predicate SameAccounts(setup: Setup, m: MachineState, m': MachineState) {
    && Pending(setup, m') == Pending(setup, m)
    && Spent(m', Initializing) == Spent(m, Initializing)
    && Spent(m', Running) == Spent(m, Running)
  }

  /** The two timed statuses, seen from the one whose time is running. */
  function Other(s: Status): Status {
    if s == Initializing then Running else Initializing
  }

  /** A step that is no work either keeps the accounts or ends the action early or at once. */
  lemma IdleStep(setup: Setup, m: MachineState, h: History, e: Event)
    requires Sound(setup.def) && Mirrors(setup, m, h)
    requires !(e.Tick? && Working(m))
    ensures var m' := Step(setup, m, e).0;
            if Done(m) then m' == m || (Done(m') && m'.status == m.status)
            else if Done(m') then
              m.cancel == Asked || m.terminate == Asked || Terminal(Pending(setup, m))
            else SameAccounts(setup, m, m')
  {
  }

  /** A tick that is work adds its interval, and leaves the status once the duration is reached. */
  lemma WorkStep(setup: Setup, m: MachineState, h: History, interval: real)
    requires Sound(setup.def) && Mirrors(setup, m, h) && Working(m)
    ensures var m' := Step(setup, m, Tick(interval)).0;
            var p := Pending(setup, m);
            && m.status == Some(p) && p in {Initializing, Running} && DefOf(setup.def, p).Some? && !Done(m)
            && Spent(m', Other(p)) == Spent(m, Other(p))
            && if Spent(m, p) + interval < DurationOf(setup.def, setup.action, p) then
                 !Done(m') && Pending(setup, m') == p && Spent(m', p) == Spent(m, p) + interval
               else
                 var next := DefOf(setup.def, p).value.next;
                 if Terminal(next) then Done(m') else !Done(m') && Pending(setup, m') == next
  {
  }

  lemma PendingIsDefined(setup: Setup, m: MachineState, h: History)
    requires Sound(setup.def) && Mirrors(setup, m, h) && !Done(m)
    ensures var p := Pending(setup, m);
            && p != Paused && (Terminal(p) || DefOf(setup.def, p).Some?)
            && (Terminal(p) ==> p == setup.def.onInit)
            && (m.status.None? ==> p == setup.def.onInit)
  {
    if m.status == Some(Paused) && Terminal(m.statusOnPause.value) {
      assert |h| == 1;
    }
  }

  /** `wi` and `wr` seconds have been accounted to INITIALIZING and RUNNING. */
  predicate Accounted(setup: Setup, m: MachineState, wi: real, wr: real) {
    Done(m) ||
    match Pending(setup, m)
    case Initializing => Spent(m, Initializing) == wi && Spent(m, Running) == 0.0 == wr
    case Running => Spent(m, Running) == wr
    case _ => wi == 0.0 && wr == 0.0
  }

  lemma StepAccounts(setup: Setup, m: MachineState, h: History, wi: real, wr: real, e: Event)
    requires Sound(setup.def) && Mirrors(setup, m, h) && Accounted(setup, m, wi, wr)
    ensures var work := (s: Status) => if e.Tick? && Working(m) && m.status == Some(s) then e.interval else 0.0;
            Accounted(setup, Step(setup, m, e).0, wi + work(Initializing), wr + work(Running))
  {
    if e.Tick? && Working(m) {
      WorkStep(setup, m, h, e.interval);
    } else {
      IdleStep(setup, m, h, e);
    }
  }

  /** The tail form of the definitions above. */
  lemma WorkedExtends(setup: Setup, paused: bool, events: seq<Event>, e: Event, s: Status)
    ensures var m := Run(setup, paused, events).state;
            WorkedIn(setup, paused, events + [e], s) ==
            WorkedIn(setup, paused, events, s) +
            if e.Tick? && Working(m) && m.status == Some(s) then e.interval else 0.0
  {
    assert (events + [e])[..|events|] == events;
  }

  /**
   Pausing neither loses nor invents work: whatever the interleaving, the time that the machine holds
   against the pending status is the sum of the intervals of the ticks spent working in it.
   */
  lemma {:induction false} PausePreservesWork(setup: Setup, paused: bool, events: seq<Event>)
    requires Sound(setup.def)
    ensures Accounted(setup, Run(setup, paused, events).state,
                      WorkedIn(setup, paused, events, Initializing), WorkedIn(setup, paused, events, Running))
  {
    if events != [] {
      var before, e := events[..|events| - 1], events[|events| - 1];
      assert events == before + [e];
      PausePreservesWork(setup, paused, before);
      HistoryIsPath(setup, paused, before);
      var t := Run(setup, paused, before);
      StepAccounts(setup, t.state, t.reports,
                   WorkedIn(setup, paused, before, Initializing), WorkedIn(setup, paused, before, Running), e);
      RunExtends(setup, paused, before, e);
      WorkedExtends(setup, paused, before, e, Initializing);
      WorkedExtends(setup, paused, before, e, Running);
    }
  }

  /** The timed exit happens at the first tick at which the accounted time reaches the duration. */
  lemma TimedExit(setup: Setup, paused: bool, events: seq<Event>, interval: real)
    requires Sound(setup.def)
    requires Working(Run(setup, paused, events).state)
    ensures var m := Run(setup, paused, events).state;
            var s := m.status.value;
            var out := OnTick(setup, m, interval).1;
            && DefOf(setup.def, s).Some?
            && out == if WorkedIn(setup, paused, events + [Tick(interval)], s) >= DurationOf(setup.def, setup.action, s)
                      then Reports(Some(DefOf(setup.def, s).value.next)) else Quiet
  {
    HistoryIsPath(setup, paused, events);
    PausePreservesWork(setup, paused, events);
    WorkedExtends(setup, paused, events, Tick(interval), Run(setup, paused, events).state.status.value);
  }

  predicate IntervalsWithin(events: seq<Event>, maxInterval: real) {
    forall e :: e in events && e.Tick? ==> 0.0 <= e.interval <= maxInterval
  }

  predicate Uninterrupted(events: seq<Event>) {
    forall e :: e in events ==> !e.Cancel? && !e.Terminate?
  }

  function Estimate(setup: Setup): real
    requires Sound(setup.def)
  {
    EstimateFrom(setup.def, setup.action, setup.def.onInit)
  }

  /** The number of non-terminal statuses that the action visits. */
  function Visited(setup: Setup): nat
    requires Sound(setup.def)
  {
    |PathFrom(setup.def, setup.def.onInit)|
  }

  /** One interval for each status from `s` on. */
  function SlackFrom(setup: Setup, maxInterval: real, s: Status): real
    requires Sound(setup.def) && s != Paused && (Terminal(s) || DefOf(setup.def, s).Some?)
  {
    |PathFrom(setup.def, s)| as real * maxInterval
  }

  lemma TimeUnfolds(setup: Setup, maxInterval: real, s: Status)
    requires Sound(setup.def) && NonNegativeDurations(setup.def, setup.action) && DefOf(setup.def, s).Some?
    requires maxInterval >= 0.0
    ensures var next := DefOf(setup.def, s).value.next;
            && EstimateFrom(setup.def, setup.action, s) ==
               DurationOf(setup.def, setup.action, s) + EstimateFrom(setup.def, setup.action, next)
            && SlackFrom(setup, maxInterval, s) == maxInterval + SlackFrom(setup, maxInterval, next)
            && DurationOf(setup.def, setup.action, s) >= 0.0
            && EstimateFrom(setup.def, setup.action, next) >= 0.0
            && SlackFrom(setup, maxInterval, next) >= 0.0
  {
    EstimateUnfolds(setup.def, setup.action, s);
    EstimateNonNegative(setup.def, setup.action, DefOf(setup.def, s).value.next);
  }

  lemma TimeEnds(setup: Setup, maxInterval: real, s: Status)
    requires Sound(setup.def) && Terminal(s)
    ensures EstimateFrom(setup.def, setup.action, s) == 0.0 && SlackFrom(setup, maxInterval, s) == 0.0
  {
  }

  /**
   Between `time` and `slack` more than it: what has been worked, plus what the pending status and those
   after it still demand.
   */
  ghost predicate WithinEstimate(setup: Setup, m: MachineState, time: real, slack: real, worked: real,
                                 maxInterval: real, lower: bool)
    requires Sound(setup.def)
  {
    if Done(m) then
      (lower ==> time <= worked) && worked <= time + slack
    else
      var p := Pending(setup, m);
      && p != Paused && (Terminal(p) || DefOf(setup.def, p).Some?)
      && (Terminal(p) ==> worked == 0.0 && time == 0.0 && slack == 0.0)
      && (!Terminal(p) ==>
            && 0.0 <= Spent(m, p) <= DurationOf(setup.def, setup.action, p)
            && (p == Initializing ==> Spent(m, Running) == 0.0)
            && time <= worked - Spent(m, p) + EstimateFrom(setup.def, setup.action, p)
            && worked - Spent(m, p) + EstimateFrom(setup.def, setup.action, p) <=
               time + slack - SlackFrom(setup, maxInterval, p))
  }

  lemma WorkWithinEstimate(setup: Setup, m: MachineState, h: History, time: real, slack: real, worked: real,
                           maxInterval: real, lower: bool, interval: real)
    requires Sound(setup.def) && NonNegativeDurations(setup.def, setup.action)
    requires Mirrors(setup, m, h) && Working(m) && 0.0 <= interval <= maxInterval
    requires WithinEstimate(setup, m, time, slack, worked, maxInterval, lower)
    ensures WithinEstimate(setup, Step(setup, m, Tick(interval)).0, time, slack, worked + interval, maxInterval, lower)
  {
    WorkStep(setup, m, h, interval);
    var p := Pending(setup, m);
    TimeUnfolds(setup, maxInterval, p);
    var next := DefOf(setup.def, p).value.next;
    if Terminal(next) {
      TimeEnds(setup, maxInterval, next);
    } else {
      TimeUnfolds(setup, maxInterval, next);
    }
  }

  lemma IdleWithinEstimate(setup: Setup, m: MachineState, h: History, time: real, slack: real, worked: real,
                           maxInterval: real, lower: bool, e: Event)
    requires Sound(setup.def) && NonNegativeDurations(setup.def, setup.action)
    requires Mirrors(setup, m, h) && maxInterval >= 0.0 && !(e.Tick? && Working(m))
    requires lower ==> m.cancel != Asked && m.terminate != Asked
    requires WithinEstimate(setup, m, time, slack, worked, maxInterval, lower)
    ensures WithinEstimate(setup, Step(setup, m, e).0, time, slack, worked, maxInterval, lower)
  {
    IdleStep(setup, m, h, e);
    if !Done(m) && !Terminal(Pending(setup, m)) {
      TimeUnfolds(setup, maxInterval, Pending(setup, m));
    }
  }

  lemma FreshWithinEstimate(setup: Setup, paused: bool, maxInterval: real, lower: bool)
    requires Sound(setup.def) && NonNegativeDurations(setup.def, setup.action) && maxInterval >= 0.0
    ensures WithinEstimate(setup, Fresh(paused), Estimate(setup), SlackFrom(setup, maxInterval, setup.def.onInit),
                           0.0, maxInterval, lower)
  {
    if Terminal(setup.def.onInit) {
      TimeEnds(setup, maxInterval, setup.def.onInit);
    } else {
      TimeUnfolds(setup, maxInterval, setup.def.onInit);
    }
  }

  lemma StepWithinEstimate(setup: Setup, m: MachineState, h: History, time: real, slack: real, worked: real,
                           maxInterval: real, lower: bool, e: Event)
    requires Sound(setup.def) && NonNegativeDurations(setup.def, setup.action)
    requires Mirrors(setup, m, h) && maxInterval >= 0.0
    requires e.Tick? ==> 0.0 <= e.interval <= maxInterval
    requires lower ==> m.cancel != Asked && m.terminate != Asked
    requires WithinEstimate(setup, m, time, slack, worked, maxInterval, lower)
    ensures WithinEstimate(setup, Step(setup, m, e).0, time, slack,
                           worked + (if e.Tick? && Working(m) then e.interval else 0.0), maxInterval, lower)
  {
    if e.Tick? && Working(m) {
      WorkWithinEstimate(setup, m, h, time, slack, worked, maxInterval, lower, e.interval);
    } else {
      IdleWithinEstimate(setup, m, h, time, slack, worked, maxInterval, lower, e);
    }
  }

  lemma WorkedGrows(setup: Setup, paused: bool, events: seq<Event>, e: Event)
    requires Sound(setup.def)
    ensures Worked(setup, paused, events + [e]) ==
            Worked(setup, paused, events) +
            if e.Tick? && Working(Run(setup, paused, events).state) then e.interval else 0.0
  {
    WorkedExtends(setup, paused, events, e, Initializing);
    WorkedExtends(setup, paused, events, e, Running);
  }

  /** Requests to end the action come only from the events that ask for it. */
  lemma {:induction false} UninterruptedIsNotAsked(setup: Setup, paused: bool, events: seq<Event>)
    requires Uninterrupted(events)
    ensures var m := Run(setup, paused, events).state; m.cancel != Asked && m.terminate != Asked
  {
    if events != [] {
      var before, e := events[..|events| - 1], events[|events| - 1];
      UninterruptedIsNotAsked(setup, paused, before);
      assert e in events;
    }
  }

  /**
   Tick simulation refines the estimate, for every interleaving of ticks of at most `maxInterval` seconds
   with pauses and requests.
   */
  lemma {:induction false} TicksMeetEstimate(setup: Setup, paused: bool, events: seq<Event>, maxInterval: real)
    requires Sound(setup.def) && NonNegativeDurations(setup.def, setup.action)
    requires maxInterval >= 0.0 && IntervalsWithin(events, maxInterval)
    ensures WithinEstimate(setup, Run(setup, paused, events).state, Estimate(setup),
                           SlackFrom(setup, maxInterval, setup.def.onInit),
                           Worked(setup, paused, events), maxInterval, Uninterrupted(events))
  {
    if events == [] {
      FreshWithinEstimate(setup, paused, maxInterval, Uninterrupted(events));
    } else {
      var before, e := events[..|events| - 1], events[|events| - 1];
      assert events == before + [e];
      TicksMeetEstimate(setup, paused, before, maxInterval);
      TicksMeetEstimateStep(setup, paused, before, e, maxInterval);
    }
  }

  lemma TicksMeetEstimateStep(setup: Setup, paused: bool, before: seq<Event>, e: Event, maxInterval: real)
    requires Sound(setup.def) && NonNegativeDurations(setup.def, setup.action)
    requires maxInterval >= 0.0 && IntervalsWithin(before + [e], maxInterval)
    requires WithinEstimate(setup, Run(setup, paused, before).state, Estimate(setup),
                            SlackFrom(setup, maxInterval, setup.def.onInit),
                            Worked(setup, paused, before), maxInterval, Uninterrupted(before))
    ensures WithinEstimate(setup, Run(setup, paused, before + [e]).state, Estimate(setup),
                           SlackFrom(setup, maxInterval, setup.def.onInit),
                           Worked(setup, paused, before + [e]), maxInterval, Uninterrupted(before + [e]))
  {
    var t := Run(setup, paused, before);
    var lower := Uninterrupted(before + [e]);
    assert lower ==> Uninterrupted(before) by {
      assert forall x :: x in before ==> x in before + [e];
    }
    if lower {
      UninterruptedIsNotAsked(setup, paused, before);
    }
    assert e in before + [e];
    HistoryIsPath(setup, paused, before);
    StepWithinEstimate(setup, t.state, t.reports, Estimate(setup), SlackFrom(setup, maxInterval, setup.def.onInit),
                       Worked(setup, paused, before), maxInterval, lower, e);
    RunExtends(setup, paused, before, e);
    WorkedGrows(setup, paused, before, e);
  }

  predicate Bounded(setup: Setup, m: MachineState, worked: real, maxInterval: real, lower: bool)
    requires Sound(setup.def)
  {
    && (Done(m) && lower ==> Estimate(setup) <= worked)
    && (Done(m) ==> worked <= Estimate(setup) + Visited(setup) as real * maxInterval)
    && (!Done(m) && Visited(setup) > 0 ==>
          worked <= Estimate(setup) + (Visited(setup) - 1) as real * maxInterval)
  }

  lemma BoundsFromEstimate(setup: Setup, m: MachineState, h: History, worked: real, maxInterval: real, lower: bool)
    requires Sound(setup.def) && NonNegativeDurations(setup.def, setup.action)
    requires Mirrors(setup, m, h) && maxInterval >= 0.0
    requires WithinEstimate(setup, m, Estimate(setup), SlackFrom(setup, maxInterval, setup.def.onInit),
                            worked, maxInterval, lower)
    ensures Bounded(setup, m, worked, maxInterval, lower)
  {
    if !Done(m) && Visited(setup) > 0 {
      PendingIsDefined(setup, m, h);
      TimeUnfolds(setup, maxInterval, Pending(setup, m));
      var k := Visited(setup);
      assert (k - 1) as real * maxInterval == k as real * maxInterval - maxInterval;
    }
  }

  /**
   The bounds as a caller sees them, with D the estimate and k the number of timed statuses: the time
   worked never exceeds D by more than k intervals, by k-1 while the action is still going on, and an
   action that is neither canceled nor terminated ends only after D seconds of work.
   */
  lemma EstimateBoundsWork(setup: Setup, paused: bool, events: seq<Event>, maxInterval: real)
    requires Sound(setup.def) && NonNegativeDurations(setup.def, setup.action)
    requires maxInterval >= 0.0 && IntervalsWithin(events, maxInterval)
    ensures Bounded(setup, Run(setup, paused, events).state, Worked(setup, paused, events), maxInterval,
                    Uninterrupted(events))
  {
    TicksMeetEstimate(setup, paused, events, maxInterval);
    HistoryIsPath(setup, paused, events);
    var t := Run(setup, paused, events);
    BoundsFromEstimate(setup, t.state, t.reports, Worked(setup, paused, events), maxInterval, Uninterrupted(events));
  }

  /** The intervals of the ticks among `events`. */
  function Elapsed(events: seq<Event>): real {
    if events == [] then 0.0
    else
      var e := events[|events| - 1];
      Elapsed(events[..|events| - 1]) + if e.Tick? then e.interval else 0.0
  }

  lemma KeepsWorking(setup: Setup, m: MachineState, h: History, interval: real)
    requires Sound(setup.def) && Mirrors(setup, m, h)
    ensures var m' := OnTick(setup, m, interval).0;
            && (Done(m) ==> Done(m'))
            && (Working(m) ==> Done(m') || Working(m'))
  {
    if Working(m) {
      WorkStep(setup, m, h, interval);
    }
  }

  lemma UnpausedStart(setup: Setup, first: real)
    requires Sound(setup.def) && !Terminal(setup.def.onInit)
    ensures Working(Run(setup, false, [Tick(first)]).state)
    ensures Worked(setup, false, [Tick(first)]) == 0.0
  {
    assert [Tick(first)] == [] + [Tick(first)];
    RunExtends(setup, false, [], Tick(first));
    WorkedGrows(setup, false, [], Tick(first));
  }

  /**
   Ticks alone: as long as the action goes on, all time after the tick that initialised it is worked.
   Together with the bounds above, the simulated time of an unpaused action is its estimate, up to one
   interval for each status visited.
   */
  lemma {:induction false} UnpausedTimeIsWork(setup: Setup, first: real, ticks: seq<Event>)
    requires Sound(setup.def) && !Terminal(setup.def.onInit)
    requires forall e :: e in ticks ==> e.Tick?
    ensures var events := [Tick(first)] + ticks;
            Done(Run(setup, false, events).state) ||
            (Working(Run(setup, false, events).state) && Worked(setup, false, events) == Elapsed(ticks))
  {
    if ticks == [] {
      assert [Tick(first)] + ticks == [Tick(first)];
      UnpausedStart(setup, first);
    } else {
      var before, e := ticks[..|ticks| - 1], ticks[|ticks| - 1];
      UnpausedTimeIsWork(setup, first, before);
      UnpausedExtends(setup, [Tick(first)] + before, e.interval);
      assert [Tick(first)] + ticks == [Tick(first)] + before + [e];
    }
  }

  /**
   The simulated time of an action that is neither paused nor asked to end: from the tick that initialises it
   to the tick that finishes it, its estimate and at most one interval for each status visited.
   */
  lemma UnpausedActionTakesEstimate(setup: Setup, first: real, ticks: seq<Event>, last: real, maxInterval: real)
    requires Sound(setup.def) && NonNegativeDurations(setup.def, setup.action) && !Terminal(setup.def.onInit)
    requires forall e :: e in ticks ==> e.Tick?
    requires maxInterval >= 0.0 && IntervalsWithin([Tick(first)] + ticks + [Tick(last)], maxInterval)
    requires !Done(Run(setup, false, [Tick(first)] + ticks).state)
    requires Done(Run(setup, false, [Tick(first)] + ticks + [Tick(last)]).state)
    ensures Estimate(setup) <= Elapsed(ticks) + last <= Estimate(setup) + Visited(setup) as real * maxInterval
  {
    var events := [Tick(first)] + ticks;
    UnpausedTimeIsWork(setup, first, ticks);
    UnpausedExtends(setup, events, last);
    EstimateBoundsWork(setup, false, events + [Tick(last)], maxInterval);
    assert Uninterrupted(events + [Tick(last)]);
  }

  lemma UnpausedExtends(setup: Setup, events: seq<Event>, interval: real)
    requires Sound(setup.def)
    ensures var m, m' := Run(setup, false, events).state, Run(setup, false, events + [Tick(interval)]).state;
            && (Done(m) ==> Done(m'))
            && (Working(m) ==> Done(m') || Working(m'))
            && (Working(m) ==> Worked(setup, false, events + [Tick(interval)]) == Worked(setup, false, events) + interval)
  {
    HistoryIsPath(setup, false, events);
    RunExtends(setup, false, events, Tick(interval));
    WorkedGrows(setup, false, events, Tick(interval));
    var t := Run(setup, false, events);
    KeepsWorking(setup, t.state, t.reports, interval);
  }
}
