/**
 Who is ticked when: fairness of the loop that iterates over the list it splices, and the termination of
 every unpaused action.
 */
module TickFairness {
  import opened Actions
  import opened ActionStateMachine
  import opened VirtualAgv
  import opened TickRound

  function Serials(machines: seq<Machine>): (s: seq<nat>)
    ensures |s| == |machines|
    ensures forall i :: 0 <= i < |s| ==> s[i] == machines[i].serial
  {
    seq(|machines|, i requires 0 <= i < |machines| => machines[i].serial)
  }

  predicate Increasing(s: seq<nat>) {
    forall i, j :: 0 <= i < j < |s| ==> s[i] < s[j]
  }

  /** Machines are listed in the order in which they were created; `next` is the serial of the next one. */
  predicate Ordered(s: seq<nat>, next: nat) {
    Increasing(s) && forall i :: 0 <= i < |s| ==> s[i] < next
  }

  predicate OrderedAgv(a: Agv) {
    Ordered(Serials(a.machines), a.nextSerial)
  }

  /** `s'` is `s` with newly created machines appended. */
  predicate AppendedTo(s: seq<nat>, next: nat, s': seq<nat>, next': nat) {
    && next <= next' && Ordered(s', next')
    && |s| <= |s'|
    && (forall i :: 0 <= i < |s| ==> s'[i] == s[i])
    && (forall i :: |s| <= i < |s'| ==> s'[i] >= next)
  }

  /** `s'` is `s` without some machines and with newly created ones, the first `k` in place. */
  predicate EvolvedFrom(s: seq<nat>, next: nat, s': seq<nat>, next': nat, k: nat) {
    && next <= next' && Ordered(s', next')
    && (forall i :: 0 <= i < |s'| && s'[i] < next ==> s'[i] in s)
    && k <= |s| && k <= |s'|
    && (forall i :: 0 <= i < k ==> s'[i] == s[i])
  }

  function WithoutAt(s: seq<nat>, i: nat): seq<nat>
    requires i < |s|
  {
    s[..i] + s[i + 1..]
  }

  lemma PerformKeepsSerials(a: Agv, self: nat, effect: Effect)
    ensures Serials(Perform(a, self, effect).machines) == Serials(a.machines)
    ensures Perform(a, self, effect).nextSerial == a.nextSerial
  {
  }

  lemma TickMachineShape(a: Agv, i: nat, dt: Interval)
    requires i < |a.machines|
    ensures var (a', out) := TickMachine(a, i, dt);
            && a'.nextSerial == a.nextSerial
            && Serials(a'.machines) ==
               if EndsWith(out) then WithoutAt(Serials(a.machines), i) else Serials(a.machines)
  {
    var m := a.machines[i];
    var (state, out) := OnTick(m.setup, m.state, dt);
    PerformKeepsSerials(TickedAlone(a, i, dt), m.serial, EffectOf(a, i, dt));
    assert Serials(a.machines[i := m.(state := state)]) == Serials(a.machines);
    assert Serials(RemoveAt(a.machines, i)) == WithoutAt(Serials(a.machines), i);
  }

  lemma WithoutAtOrdered(s: seq<nat>, next: nat, i: nat)
    requires Ordered(s, next) && i < |s|
    ensures Ordered(WithoutAt(s, i), next)
    ensures s[i] !in WithoutAt(s, i)
    ensures forall x :: x in s && x != s[i] ==> x in WithoutAt(s, i)
  {
  }

  lemma ObeyAppends(a: Agv, c: Command)
    requires OrderedAgv(a)
    ensures AppendedTo(Serials(a.machines), a.nextSerial, Serials(Obey(a, c).machines), Obey(a, c).nextSerial)
  {
    var s, s' := Serials(a.machines), Serials(Obey(a, c).machines);
    assert s' == if Obey(a, c).nextSerial == a.nextSerial then s else s + [a.nextSerial];
  }

  lemma {:induction false} ObeyAllAppends(a: Agv, commands: seq<Command>)
    requires OrderedAgv(a)
    ensures var a' := ObeyAll(a, commands);
            AppendedTo(Serials(a.machines), a.nextSerial, Serials(a'.machines), a'.nextSerial)
    decreases |commands|
  {
    if commands != [] {
      var a1 := Obey(a, commands[0]);
      var a2 := ObeyAll(a1, commands[1..]);
      ObeyAppends(a, commands[0]);
      ObeyAllAppends(a1, commands[1..]);
      AppendTwice(Serials(a.machines), a.nextSerial, Serials(a1.machines), a1.nextSerial,
                  Serials(a2.machines), a2.nextSerial);
    }
  }

  lemma AppendTwice(s: seq<nat>, n: nat, s1: seq<nat>, n1: nat, s2: seq<nat>, n2: nat)
    requires AppendedTo(s, n, s1, n1) && AppendedTo(s1, n1, s2, n2)
    ensures AppendedTo(s, n, s2, n2)
  {
  }

  /** The loop's step at index `i`: the tick, and the reaction to its report if there is one. */
  function StepState(a: Agv, i: nat, dt: Interval, onReport: seq<seq<Command>>): Agv {
    var (a1, out) := TickMachine(a, i, dt);
    if out.Reports? && onReport != [] then ObeyAll(a1, onReport[0]) else a1
  }

  function StepReactions(a: Agv, i: nat, dt: Interval, onReport: seq<seq<Command>>): seq<seq<Command>> {
    if TickMachine(a, i, dt).1.Reports? && onReport != [] then onReport[1..] else onReport
  }

  lemma StepShape(a: Agv, i: nat, dt: Interval, onReport: seq<seq<Command>>)
    requires OrderedAgv(a) && i < |a.machines|
    ensures var a' := StepState(a, i, dt, onReport);
            var s := Serials(a.machines);
            AppendedTo(if EndsWith(TickMachine(a, i, dt).1) then WithoutAt(s, i) else s, a.nextSerial,
                       Serials(a'.machines), a'.nextSerial)
  {
    TickMachineShape(a, i, dt);
    WithoutAtOrdered(Serials(a.machines), a.nextSerial, i);
    var (a1, out) := TickMachine(a, i, dt);
    if out.Reports? && onReport != [] {
      ObeyAllAppends(a1, onReport[0]);
    }
  }

  lemma LoopUnfolds(a: Agv, i: nat, dt: Interval, onReport: seq<seq<Command>>)
    requires i < |a.machines| && TickMachine(a, i, dt).1 != Throws
    ensures var r := TickLoop(a, i, dt, onReport);
            var rest := TickLoop(StepState(a, i, dt, onReport), i + 1, dt, StepReactions(a, i, dt, onReport));
            && r.agv == rest.agv && r.thrown == rest.thrown
            && r.ticked == [Serials(a.machines)[i]] + rest.ticked
  {
  }

  /** An exception ends the loop and leaves the list as it is. */
  lemma LoopThrows(a: Agv, i: nat, dt: Interval, onReport: seq<seq<Command>>)
    requires i < |a.machines| && TickMachine(a, i, dt).1 == Throws
    ensures var r := TickLoop(a, i, dt, onReport);
            && r.thrown && r.ticked == [Serials(a.machines)[i]]
            && Serials(r.agv.machines) == Serials(a.machines) && r.agv.nextSerial == a.nextSerial
  {
    TickMachineShape(a, i, dt);
  }

  lemma LoopEnds(a: Agv, i: nat, dt: Interval, onReport: seq<seq<Command>>)
    requires i >= |a.machines|
    ensures var r := TickLoop(a, i, dt, onReport); r.agv == a && !r.thrown && r.ticked == []
  {
  }

  /** The loop measure: what is left of the callbacks, then of the list. */
  lemma StepDecreases(a: Agv, i: nat, dt: Interval, onReport: seq<seq<Command>>)
    requires i < |a.machines|
    ensures var a', left := StepState(a, i, dt, onReport), StepReactions(a, i, dt, onReport);
            |left| < |onReport| || (left == onReport && |a'.machines| <= |a.machines|)
  {
    TickMachineLength(a, i, dt);
  }

  /** A lower bound of the machines that the loop can still reach from index `i`. */
  function Bound(s: seq<nat>, next: nat, i: nat): nat {
    if i < |s| then s[i] else next
  }

  predicate TickedFrom(s: seq<nat>, next: nat, i: nat, ticked: seq<nat>) {
    Increasing(ticked) && forall k :: 0 <= k < |ticked| ==> ticked[k] >= Bound(s, next, i)
  }

  /** What one step of the loop leaves of the list. */
  predicate SteppedAt(s: seq<nat>, n: nat, i: nat, ends: bool, s1: seq<nat>, n1: nat) {
    && i < |s| && n <= n1 && Ordered(s1, n1)
    && i <= |s1| && (forall k :: 0 <= k < i ==> s1[k] == s[k])
    && (forall k :: 0 <= k < |s1| && s1[k] < n ==> s1[k] in s)
    && Bound(s1, n1, i + 1) > s[i]
    && (if ends then s[i] !in s1 else i < |s1| && s1[i] == s[i])
  }

  /** An element of a list after appending is an old one or new. */
  lemma AppendedElement(s: seq<nat>, n: nat, s1: seq<nat>, n1: nat, k: nat)
    requires AppendedTo(s, n, s1, n1) && k < |s1|
    ensures if k < |s| then s1[k] == s[k] else s1[k] >= n
  {
  }

  lemma EndedStepLeaves(s: seq<nat>, n: nat, i: nat, s1: seq<nat>, n1: nat)
    requires Ordered(s, n) && i < |s| && AppendedTo(WithoutAt(s, i), n, s1, n1)
    ensures SteppedAt(s, n, i, true, s1, n1)
  {
    var base := WithoutAt(s, i);
    forall k | 0 <= k < |s1|
      ensures k < i ==> s1[k] == s[k]
      ensures s1[k] < n ==> s1[k] in s
      ensures s1[k] != s[i] && (k > i ==> s1[k] > s[i])
    {
      hide AppendedTo;
      AppendedElement(base, n, s1, n1, k);
      if k < |base| {
        assert base[k] == s[if k < i then k else k + 1];
      }
    }
  }

  lemma KeptStepLeaves(s: seq<nat>, n: nat, i: nat, s1: seq<nat>, n1: nat)
    requires Ordered(s, n) && i < |s| && AppendedTo(s, n, s1, n1)
    ensures SteppedAt(s, n, i, false, s1, n1)
  {
    forall k | 0 <= k < |s1| && s1[k] < n ensures s1[k] in s {
      AppendedElement(s, n, s1, n1, k);
    }
    if i + 1 < |s1| {
      AppendedElement(s, n, s1, n1, i + 1);
    }
  }

  lemma StepLeaves(s: seq<nat>, n: nat, i: nat, ends: bool, s1: seq<nat>, n1: nat)
    requires Ordered(s, n) && i < |s|
    requires AppendedTo(if ends then WithoutAt(s, i) else s, n, s1, n1)
    ensures SteppedAt(s, n, i, ends, s1, n1)
  {
    if ends {
      EndedStepLeaves(s, n, i, s1, n1);
    } else {
      KeptStepLeaves(s, n, i, s1, n1);
    }
  }

  /** One step of the loop and the rest of it, seen on the serials alone. */
  lemma TickedInOrderStep(s: seq<nat>, n: nat, i: nat, ends: bool, s1: seq<nat>, n1: nat, ticked: seq<nat>,
                          s2: seq<nat>, n2: nat)
    requires Ordered(s, n) && SteppedAt(s, n, i, ends, s1, n1)
    requires TickedFrom(s1, n1, i + 1, ticked)
    requires if i + 1 <= |s1| then EvolvedFrom(s1, n1, s2, n2, i + 1) else s2 == s1 && n2 == n1
    ensures TickedFrom(s, n, i, [s[i]] + ticked)
    ensures EvolvedFrom(s, n, s2, n2, i)
  {
    forall k | 0 <= k < |s2| && s2[k] < n ensures s2[k] in s {
      if i + 1 <= |s1| {
        var j :| 0 <= j < |s1| && s1[j] == s2[k];
      }
    }
  }

  lemma LoopStep(a: Agv, i: nat, dt: Interval, onReport: seq<seq<Command>>)
    requires OrderedAgv(a) && i < |a.machines| && TickMachine(a, i, dt).1 != Throws
    ensures var a', left := StepState(a, i, dt, onReport), StepReactions(a, i, dt, onReport);
            var r, rest := TickLoop(a, i, dt, onReport), TickLoop(a', i + 1, dt, left);
            && SteppedAt(Serials(a.machines), a.nextSerial, i, EndsWith(TickMachine(a, i, dt).1),
                         Serials(a'.machines), a'.nextSerial)
            && r.agv == rest.agv && r.thrown == rest.thrown && r.ticked == [Serials(a.machines)[i]] + rest.ticked
            && (|left| < |onReport| || (left == onReport && |a'.machines| <= |a.machines|))
  {
    StepShape(a, i, dt, onReport);
    var a' := StepState(a, i, dt, onReport);
    StepLeaves(Serials(a.machines), a.nextSerial, i, EndsWith(TickMachine(a, i, dt).1),
               Serials(a'.machines), a'.nextSerial);
    StepDecreases(a, i, dt, onReport);
    LoopUnfolds(a, i, dt, onReport);
  }

  /** Every machine is ticked at most once, in list order, and machines before `i` are left alone. */
  predicate InOrder(a: Agv, i: nat, r: Round) {
    && TickedFrom(Serials(a.machines), a.nextSerial, i, r.ticked)
    && if i <= |a.machines|
       then EvolvedFrom(Serials(a.machines), a.nextSerial, Serials(r.agv.machines), r.agv.nextSerial, i)
       else r.agv == a
  }

  lemma InOrderStep(a: Agv, i: nat, ends: bool, a': Agv, rest: Round, r: Round)
    requires OrderedAgv(a) && i < |a.machines|
    requires SteppedAt(Serials(a.machines), a.nextSerial, i, ends, Serials(a'.machines), a'.nextSerial)
    requires InOrder(a', i + 1, rest)
    requires r.agv == rest.agv && r.ticked == [Serials(a.machines)[i]] + rest.ticked
    ensures InOrder(a, i, r)
  {
    TickedInOrderStep(Serials(a.machines), a.nextSerial, i, ends, Serials(a'.machines), a'.nextSerial, rest.ticked,
                      Serials(rest.agv.machines), rest.agv.nextSerial);
  }

  lemma InOrderAtEnd(a: Agv, i: nat, r: Round)
    requires OrderedAgv(a) && i >= |a.machines| && r.agv == a && r.ticked == []
    ensures InOrder(a, i, r)
  {
  }

  lemma ThrownInOrder(a: Agv, i: nat, r: Round)
    requires OrderedAgv(a) && i < |a.machines| && r.ticked == [Serials(a.machines)[i]]
    requires Serials(r.agv.machines) == Serials(a.machines) && r.agv.nextSerial == a.nextSerial
    ensures InOrder(a, i, r)
  {
  }

  /** Whether or not an exception ends it. */
  lemma {:induction false} TickedInOrder(a: Agv, i: nat, dt: Interval, onReport: seq<seq<Command>>)
    requires OrderedAgv(a)
    ensures InOrder(a, i, TickLoop(a, i, dt, onReport))
    decreases |onReport|, if i <= |a.machines| then |a.machines| - i else 0
  {
    hide InOrder, EndsWith, TickLoop, TickMachine, StepState, StepReactions;
    var r := TickLoop(a, i, dt, onReport);
    if i >= |a.machines| {
      LoopEnds(a, i, dt, onReport);
      InOrderAtEnd(a, i, r);
    } else if TickMachine(a, i, dt).1 == Throws {
      LoopThrows(a, i, dt, onReport);
      ThrownInOrder(a, i, r);
    } else {
      LoopStep(a, i, dt, onReport);
      var a', left := StepState(a, i, dt, onReport), StepReactions(a, i, dt, onReport);
      TickedInOrder(a', i + 1, dt, left);
      InOrderStep(a, i, EndsWith(TickMachine(a, i, dt).1), a', TickLoop(a', i + 1, dt, left), r);
    }
  }

  /** The machine at index `p` is skipped exactly if its predecessor was ticked and ended in this tick. */
  predicate SkipRule(s: seq<nat>, i: nat, p: nat, ticked: seq<nat>, final: seq<nat>)
    requires p < |s|
  {
    s[p] in ticked <==> !(p > i && s[p - 1] in ticked && s[p - 1] !in final)
  }

  lemma PassedOver(s: seq<nat>, n: nat, i: nat, ticked: seq<nat>, q: nat)
    requires Ordered(s, n) && TickedFrom(s, n, i, ticked) && q < i && q < |s|
    ensures s[q] !in ticked
  {
  }

  /** The index of a surviving machine after the step at `i`. */
  function MovedTo(i: nat, ends: bool, p: nat): nat {
    if ends && p > i then p - 1 else p
  }

  predicate SurvivorsMove(s: seq<nat>, i: nat, ends: bool, s1: seq<nat>) {
    forall p :: 0 <= p < |s| && (ends ==> p != i) ==> MovedTo(i, ends, p) < |s1| && s1[MovedTo(i, ends, p)] == s[p]
  }

  lemma SkipRuleStep(s: seq<nat>, n: nat, i: nat, ends: bool, s1: seq<nat>, n1: nat, ticked: seq<nat>,
                     s2: seq<nat>, n2: nat, p: nat)
    requires Ordered(s, n) && SteppedAt(s, n, i, ends, s1, n1) && SurvivorsMove(s, i, ends, s1) && i < p < |s|
    requires TickedFrom(s1, n1, i + 1, ticked)
    requires if i + 1 <= |s1| then EvolvedFrom(s1, n1, s2, n2, i + 1) else s2 == s1 && n2 == n1
    requires var p1 := MovedTo(i, ends, p); p1 > i ==> SkipRule(s1, i + 1, p1, ticked, s2)
    ensures SkipRule(s, i, p, [s[i]] + ticked, s2)
  {
    var all := [s[i]] + ticked;
    assert s[p] != s[i] && (s[p] in all <==> s[p] in ticked);
    assert s[p - 1] in all <==> p - 1 == i || s[p - 1] in ticked;
    assert s1[MovedTo(i, ends, p)] == s[p];
    if p == i + 1 {
      if ends {
        PassedOver(s1, n1, i + 1, ticked, i);
        assert s[i] !in s2;
      } else {
        assert s2[i] == s[i];
      }
    } else {
      assert s1[MovedTo(i, ends, p - 1)] == s[p - 1];
      if ends && p == i + 2 {
        PassedOver(s1, n1, i + 1, ticked, i);
      }
    }
  }

  lemma StepMovesSurvivors(a: Agv, i: nat, dt: Interval, onReport: seq<seq<Command>>)
    requires OrderedAgv(a) && i < |a.machines|
    ensures SurvivorsMove(Serials(a.machines), i, EndsWith(TickMachine(a, i, dt).1),
                          Serials(StepState(a, i, dt, onReport).machines))
  {
    StepShape(a, i, dt, onReport);
  }

  lemma SkippedStep(a: Agv, i: nat, ends: bool, a': Agv, rest: Round, r: Round, p: nat)
    requires OrderedAgv(a) && i <= p < |a.machines|
    requires SteppedAt(Serials(a.machines), a.nextSerial, i, ends, Serials(a'.machines), a'.nextSerial)
    requires SurvivorsMove(Serials(a.machines), i, ends, Serials(a'.machines)) && InOrder(a', i + 1, rest)
    requires r.agv == rest.agv && r.ticked == [Serials(a.machines)[i]] + rest.ticked
    requires var p1 := MovedTo(i, ends, p);
             i < p1 < |a'.machines| ==>
               SkipRule(Serials(a'.machines), i + 1, p1, rest.ticked, Serials(rest.agv.machines))
    ensures SkipRule(Serials(a.machines), i, p, r.ticked, Serials(r.agv.machines))
  {
    if p > i {
      SkipRuleStep(Serials(a.machines), a.nextSerial, i, ends, Serials(a'.machines), a'.nextSerial, rest.ticked,
                   Serials(rest.agv.machines), rest.agv.nextSerial, p);
    }
  }

  /**
   In a tick that no exception ends, a machine is skipped exactly if its immediate predecessor in the list was
   ticked and ended in this tick.
   */
  lemma {:induction false} SkippedOnlyBehindEnded(a: Agv, i: nat, dt: Interval, onReport: seq<seq<Command>>, p: nat)
    requires OrderedAgv(a) && i <= p < |a.machines| && !TickLoop(a, i, dt, onReport).thrown
    ensures var r := TickLoop(a, i, dt, onReport);
            SkipRule(Serials(a.machines), i, p, r.ticked, Serials(r.agv.machines))
    decreases |onReport|, if i <= |a.machines| then |a.machines| - i else 0
  {
    hide SkipRule, InOrder, SurvivorsMove, EndsWith, TickLoop, TickMachine, StepState, StepReactions;
    if TickMachine(a, i, dt).1 == Throws {
      LoopThrows(a, i, dt, onReport);
    }
    LoopStep(a, i, dt, onReport);
    var a', left := StepState(a, i, dt, onReport), StepReactions(a, i, dt, onReport);
    var ends := EndsWith(TickMachine(a, i, dt).1);
    TickedInOrder(a', i + 1, dt, left);
    StepMovesSurvivors(a, i, dt, onReport);
    var p1 := MovedTo(i, ends, p);
    if i < p1 < |a'.machines| {
      SkippedOnlyBehindEnded(a', i + 1, dt, left, p1);
    }
    SkippedStep(a, i, ends, a', TickLoop(a', i + 1, dt, left), TickLoop(a, i, dt, onReport), p);
  }

  /* Rounds */

  /** What the controller commands before a tick, and the arguments of the tick. */
  datatype Turn = Turn(before: seq<Command>, tick: nat, tickInterval: Positive, dt: Interval, env: Reactions)

  function Before(a: Agv, turn: Turn): Agv {
    ObeyAll(a, turn.before)
  }

  function Ticking(o: Options, a: Agv, turn: Turn): Round {
    WholeTick(o, Before(a, turn), turn.tick, turn.tickInterval, turn.dt, turn.env)
  }

  function AfterTurns(o: Options, a: Agv, turns: seq<Turn>): Agv
    decreases |turns|
  {
    if turns == [] then a else AfterTurns(o, Ticking(o, a, turns[0]).agv, turns[1..])
  }

  predicate NothingThrown(o: Options, a: Agv, turns: seq<Turn>)
    decreases |turns|
  {
    turns != [] ==> !Ticking(o, a, turns[0]).thrown && NothingThrown(o, Ticking(o, a, turns[0]).agv, turns[1..])
  }

  predicate Listed(a: Agv, x: nat) {
    x in Serials(a.machines)
  }

  /** The machines created before `x` that are still listed. */
  function Ahead(a: Agv, x: nat): set<nat> {
    set y | y in Serials(a.machines) && y < x
  }

  /** The number of completed ticks in which the listed machine `x` was skipped. */
  function SkipCount(o: Options, a: Agv, turns: seq<Turn>, x: nat): nat
    decreases |turns|
  {
    if turns == [] then 0
    else
      var r := Ticking(o, a, turns[0]);
      (if Listed(Before(a, turns[0]), x) && x !in r.ticked && !r.thrown then 1 else 0) + SkipCount(o, r.agv, turns[1..], x)
  }

  /** What the commands before a tick, motion and charging leave of the list. */
  lemma CommandsKeepAhead(a: Agv, commands: seq<Command>, x: nat)
    requires OrderedAgv(a) && x < a.nextSerial
    ensures var a' := ObeyAll(a, commands);
            && OrderedAgv(a') && x < a'.nextSerial
            && Ahead(a', x) == Ahead(a, x)
            && (Listed(a', x) <==> Listed(a, x))
  {
    ObeyAllAppends(a, commands);
    var s, s' := Serials(a.machines), Serials(ObeyAll(a, commands).machines);
    assert forall y :: y in s ==> y in s' by {
      forall y | y in s ensures y in s' {
        var i :| 0 <= i < |s| && s[i] == y;
        assert s'[i] == y;
      }
    }
  }

  lemma MotionKeepsMachines(o: Options, a: Agv, tick: nat, tickInterval: Positive, dt: Interval)
    ensures AdvanceTraverse(o, a, dt).machines == a.machines && AdvanceTraverse(o, a, dt).nextSerial == a.nextSerial
    ensures AdvanceCharge(o, a, tick, tickInterval, dt).machines == a.machines
    ensures AdvanceCharge(o, a, tick, tickInterval, dt).nextSerial == a.nextSerial
  {
  }

  /** The loop only removes machines ahead of `x`, and removes at least one if it completes and skips `x`. */
  lemma LoopShrinksAhead(a: Agv, dt: Interval, onReport: seq<seq<Command>>, x: nat)
    requires OrderedAgv(a) && x < a.nextSerial
    ensures var r := TickLoop(a, 0, dt, onReport);
            && OrderedAgv(r.agv) && x < r.agv.nextSerial
            && Ahead(r.agv, x) <= Ahead(a, x)
            && (Listed(r.agv, x) ==> Listed(a, x))
            && (Listed(a, x) && x !in r.ticked && !r.thrown ==> Ahead(r.agv, x) < Ahead(a, x))
  {
    TickedInOrder(a, 0, dt, onReport);
    var r := TickLoop(a, 0, dt, onReport);
    var s, s' := Serials(a.machines), Serials(r.agv.machines);
    if Listed(a, x) && x !in r.ticked && !r.thrown {
      var p :| 0 <= p < |s| && s[p] == x;
      SkippedOnlyBehindEnded(a, 0, dt, onReport, p);
      assert s[p - 1] in Ahead(a, x) && s[p - 1] !in Ahead(r.agv, x);
    }
  }

  lemma TurnShrinksAhead(o: Options, a: Agv, turn: Turn, x: nat)
    requires OrderedAgv(a) && x < a.nextSerial
    ensures var r := Ticking(o, a, turn);
            && OrderedAgv(r.agv) && x < r.agv.nextSerial
            && Ahead(r.agv, x) <= Ahead(a, x)
            && (Listed(r.agv, x) ==> Listed(a, x))
            && (Listed(a, x) && x !in r.ticked && !r.thrown ==> Ahead(r.agv, x) < Ahead(a, x))
            && (Listed(Before(a, turn), x) <==> Listed(a, x))
  {
    CommandsKeepAhead(a, turn.before, x);
    var b := Before(a, turn);
    LoopShrinksAhead(b, turn.dt, turn.env.onReport, x);
    var loop := TickLoop(b, 0, turn.dt, turn.env.onReport);
    if loop.thrown {
      return;
    }
    var driven := AdvanceTraverse(o, loop.agv, turn.dt);
    var reaction := if loop.agv.route.Some? && driven.route.None? then turn.env.onTraversed else [];
    MotionKeepsMachines(o, loop.agv, turn.tick, turn.tickInterval, turn.dt);
    assert Ahead(driven, x) == Ahead(loop.agv, x);
    CommandsKeepAhead(driven, reaction, x);
    var reacted := ObeyAll(driven, reaction);
    MotionKeepsMachines(o, reacted, turn.tick, turn.tickInterval, turn.dt);
    assert Ahead(Ticking(o, a, turn).agv, x) == Ahead(reacted, x);
  }

  lemma {:induction false} SubsetSize(s: set<nat>, t: set<nat>)
    requires s <= t
    ensures |s| <= |t| && (s < t ==> |s| < |t|)
  {
    assert t == s + (t - s);
    if s < t {
      assert t - s != {};
    }
  }

  /**
   Over its whole life a machine is skipped at most as often as there are machines ahead of it, whatever ticks
   an exception cuts short.
   */
  lemma {:induction false} SkipsAreBounded(o: Options, a: Agv, turns: seq<Turn>, x: nat)
    requires OrderedAgv(a) && x < a.nextSerial
    ensures SkipCount(o, a, turns, x) + |Ahead(AfterTurns(o, a, turns), x)| <= |Ahead(a, x)|
    decreases |turns|
  {
    if turns != [] {
      var r := Ticking(o, a, turns[0]);
      TurnShrinksAhead(o, a, turns[0], x);
      SubsetSize(Ahead(r.agv, x), Ahead(a, x));
      SkipsAreBounded(o, r.agv, turns[1..], x);
    }
  }
}
