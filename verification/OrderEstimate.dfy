/**
 The closed-form estimate of an order's execution time: an accumulator loop over the actions of each node,
 and the travel times of the edges.
 */
module OrderEstimate {
  import opened Wrappers
  import opened Actions
  import opened Geometry
  import opened VirtualAgv
  import opened Motion

  /** An action of a node, with its blocking type and its duration. */
  datatype Job = Job(hard: bool, duration: real)

  predicate NonNegative(jobs: seq<Job>) {
    forall i :: 0 <= i < |jobs| ==> jobs[i].duration >= 0.0
  }

  function Max(a: real, b: real): real {
    if a >= b then a else b
  }

  /** The accumulator: the time of all actions up to the last HARD one, and the longest of those after it. */
  function Accumulate(jobs: seq<Job>): (real, real) {
    if jobs == [] then (0.0, 0.0)
    else
      var (effective, nonHardMax) := Accumulate(jobs[..|jobs| - 1]);
      var job := jobs[|jobs| - 1];
      if job.hard then (effective + nonHardMax + job.duration, 0.0)
      else (effective, Max(nonHardMax, job.duration))
  }

  /* The schedule the blocking types ask for */

  /** Whether job `j` must have ended before the later job `i` may start. */
  predicate Blocks(jobs: seq<Job>, j: nat, i: nat)
    requires j < |jobs| && i < |jobs|
  {
    j < i && (jobs[j].hard || jobs[i].hard)
  }

  function End(jobs: seq<Job>, starts: seq<real>, i: nat): real
    requires i < |jobs| && |starts| == |jobs|
  {
    starts[i] + jobs[i].duration
  }

  /** Job `i` starts as soon as the last job that blocks it has ended, or at time 0. */
  predicate StartsInTime(jobs: seq<Job>, starts: seq<real>, i: nat)
    requires i < |jobs| && |starts| == |jobs|
  {
    && starts[i] >= 0.0
    && (forall j :: 0 <= j < |jobs| && Blocks(jobs, j, i) ==> starts[i] >= End(jobs, starts, j))
    && (starts[i] == 0.0 || exists j :: 0 <= j < |jobs| && Blocks(jobs, j, i) && starts[i] == End(jobs, starts, j))
  }

  predicate IsSchedule(jobs: seq<Job>, starts: seq<real>) {
    && |starts| == |jobs|
    && forall i :: 0 <= i < |jobs| ==> StartsInTime(jobs, starts, i)
  }

  /** `t` is the time at which all jobs have ended, and no earlier time is. */
  predicate IsMakespan(jobs: seq<Job>, starts: seq<real>, t: real)
    requires |starts| == |jobs|
  {
    && (forall i :: 0 <= i < |jobs| ==> End(jobs, starts, i) <= t)
    && (if jobs == [] then t == 0.0 else exists i :: 0 <= i < |jobs| && End(jobs, starts, i) == t)
  }

  /** The time at which the last HARD job has ended. */
  predicate IsBarrier(jobs: seq<Job>, starts: seq<real>, t: real)
    requires |starts| == |jobs|
  {
    && (forall i :: 0 <= i < |jobs| && jobs[i].hard ==> End(jobs, starts, i) <= t)
    && (t == 0.0 || exists i :: 0 <= i < |jobs| && jobs[i].hard && End(jobs, starts, i) == t)
    && t >= 0.0
  }

  /** The later jobs have no influence on when a job starts. */
  lemma StartsInPrefix(jobs: seq<Job>, starts: seq<real>, n: nat, i: nat)
    requires i < n <= |jobs| && |starts| == |jobs|
    ensures StartsInTime(jobs, starts, i) <==> StartsInTime(jobs[..n], starts[..n], i)
  {
    var js, ss := jobs[..n], starts[..n];
    forall j | 0 <= j < n ensures (Blocks(js, j, i) <==> Blocks(jobs, j, i)) && End(js, ss, j) == End(jobs, starts, j) {
    }
    if StartsInTime(jobs, starts, i) && starts[i] != 0.0 {
      var j :| 0 <= j < |jobs| && Blocks(jobs, j, i) && starts[i] == End(jobs, starts, j);
      assert Blocks(js, j, i);
    }
    if StartsInTime(js, ss, i) && ss[i] != 0.0 {
      var j :| 0 <= j < |js| && Blocks(js, j, i) && ss[i] == End(js, ss, j);
      assert Blocks(jobs, j, i);
    }
  }

  lemma SchedulePrefix(jobs: seq<Job>, starts: seq<real>)
    requires jobs != [] && IsSchedule(jobs, starts)
    ensures IsSchedule(jobs[..|jobs| - 1], starts[..|jobs| - 1])
  {
    hide StartsInTime;
    var js, ss := jobs[..|jobs| - 1], starts[..|jobs| - 1];
    forall i | 0 <= i < |js| ensures StartsInTime(js, ss, i) {
      StartsInPrefix(jobs, starts, |jobs| - 1, i);
    }
  }

  /** Where the last job starts, given when the jobs before it end. */
  lemma LastStart(jobs: seq<Job>, starts: seq<real>, barrier: real, makespan: real)
    requires jobs != [] && IsSchedule(jobs, starts) && NonNegative(jobs)
    requires var n := |jobs| - 1;
             IsBarrier(jobs[..n], starts[..n], barrier) && IsMakespan(jobs[..n], starts[..n], makespan) && makespan >= barrier
    ensures starts[|jobs| - 1] == if jobs[|jobs| - 1].hard then makespan else barrier
  {
    var n := |jobs| - 1;
    var js, ss := jobs[..n], starts[..n];
    assert StartsInTime(jobs, starts, n);
    forall j | 0 <= j < n ensures End(js, ss, j) == End(jobs, starts, j) {
    }
    if jobs[n].hard {
      forall j | 0 <= j < n ensures Blocks(jobs, j, n) {
      }
      if n > 0 {
        var j :| 0 <= j < |js| && End(js, ss, j) == makespan;
        assert Blocks(jobs, j, n);
      }
      if starts[n] != 0.0 {
        var j :| 0 <= j < |jobs| && Blocks(jobs, j, n) && starts[n] == End(jobs, starts, j);
        assert End(js, ss, j) <= makespan;
      }
    } else {
      if barrier != 0.0 {
        var j :| 0 <= j < |js| && js[j].hard && End(js, ss, j) == barrier;
        assert Blocks(jobs, j, n);
      }
      if starts[n] != 0.0 {
        var j :| 0 <= j < |jobs| && Blocks(jobs, j, n) && starts[n] == End(jobs, starts, j);
        assert js[j].hard;
      }
    }
  }

  /** How the last job moves the barrier and the makespan. */
  lemma ExtendSchedule(jobs: seq<Job>, starts: seq<real>, barrier: real, makespan: real)
    requires jobs != [] && |starts| == |jobs| && NonNegative(jobs)
    requires var n := |jobs| - 1;
             IsBarrier(jobs[..n], starts[..n], barrier) && IsMakespan(jobs[..n], starts[..n], makespan) && makespan >= barrier
    requires starts[|jobs| - 1] == if jobs[|jobs| - 1].hard then makespan else barrier
    ensures var end := End(jobs, starts, |jobs| - 1);
            if jobs[|jobs| - 1].hard
            then IsBarrier(jobs, starts, end) && IsMakespan(jobs, starts, end)
            else IsBarrier(jobs, starts, barrier) && IsMakespan(jobs, starts, Max(makespan, end))
  {
    var n := |jobs| - 1;
    var js, ss := jobs[..n], starts[..n];
    var end := End(jobs, starts, n);
    assert forall i :: 0 <= i < n ==> End(jobs, starts, i) == End(js, ss, i) && jobs[i].hard == js[i].hard;
    if jobs[n].hard {
      assert end >= makespan;
    } else {
      if barrier != 0.0 {
        var i :| 0 <= i < |js| && js[i].hard && End(js, ss, i) == barrier;
        assert jobs[i].hard && End(jobs, starts, i) == barrier;
      }
      if makespan > end {
        var i :| 0 <= i < |js| && End(js, ss, i) == makespan;
        assert End(jobs, starts, i) == makespan;
      }
    }
  }

  /** The accumulator knows the schedule: its first component is the barrier, the sum the makespan. */
  lemma {:induction false} AccumulatorFollowsSchedule(jobs: seq<Job>, starts: seq<real>)
    requires IsSchedule(jobs, starts) && NonNegative(jobs)
    ensures var (effective, nonHardMax) := Accumulate(jobs);
            && nonHardMax >= 0.0
            && IsBarrier(jobs, starts, effective)
            && IsMakespan(jobs, starts, effective + nonHardMax)
  {
    if jobs != [] {
      var n := |jobs| - 1;
      var js, ss := jobs[..n], starts[..n];
      SchedulePrefix(jobs, starts);
      AccumulatorFollowsSchedule(js, ss);
      var (effective, nonHardMax) := Accumulate(js);
      LastStart(jobs, starts, effective, effective + nonHardMax);
      ExtendSchedule(jobs, starts, effective, effective + nonHardMax);
    }
  }

  /** The last job starts when the accumulator says. */
  lemma LastStartsInTime(jobs: seq<Job>, starts: seq<real>, barrier: real, makespan: real)
    requires jobs != [] && |starts| == |jobs|
    requires var n := |jobs| - 1;
             IsBarrier(jobs[..n], starts[..n], barrier) && IsMakespan(jobs[..n], starts[..n], makespan) && makespan >= barrier
    requires starts[|jobs| - 1] == if jobs[|jobs| - 1].hard then makespan else barrier
    ensures StartsInTime(jobs, starts, |jobs| - 1)
  {
    var n := |jobs| - 1;
    var js, ss := jobs[..n], starts[..n];
    forall j | 0 <= j < n ensures End(js, ss, j) == End(jobs, starts, j) && js[j].hard == jobs[j].hard {
    }
    if jobs[n].hard {
      if n > 0 {
        var j :| 0 <= j < |js| && End(js, ss, j) == makespan;
        assert Blocks(jobs, j, n);
      }
    } else if barrier != 0.0 {
      var j :| 0 <= j < |js| && js[j].hard && End(js, ss, j) == barrier;
      assert Blocks(jobs, j, n);
    }
  }

  lemma ScheduleExtends(jobs: seq<Job>, starts: seq<real>)
    requires jobs != [] && |starts| == |jobs| && StartsInTime(jobs, starts, |jobs| - 1)
    requires IsSchedule(jobs[..|jobs| - 1], starts[..|jobs| - 1])
    ensures IsSchedule(jobs, starts)
  {
    hide StartsInTime;
    var js, ss := jobs[..|jobs| - 1], starts[..|jobs| - 1];
    forall i | 0 <= i < |jobs| ensures StartsInTime(jobs, starts, i) {
      if i < |js| {
        assert StartsInTime(js, ss, i);
        StartsInPrefix(jobs, starts, |js|, i);
      }
    }
  }

  lemma NoJobs()
    ensures IsSchedule([], []) && IsMakespan([], [], Accumulate([]).0 + Accumulate([]).1)
  {
  }

  /** Every list of jobs has a schedule, and its makespan is what the accumulator knows. */
  lemma {:induction false} ScheduleExists(jobs: seq<Job>) returns (starts: seq<real>)
    requires NonNegative(jobs)
    ensures |starts| == |jobs| && IsSchedule(jobs, starts)
    ensures IsMakespan(jobs, starts, Accumulate(jobs).0 + Accumulate(jobs).1)
    decreases |jobs|
  {
    hide StartsInTime, IsBarrier, IsMakespan, IsSchedule, Accumulate;
    if jobs == [] {
      starts := [];
      NoJobs();
    } else {
      var n := |jobs| - 1;
      var js := jobs[..n];
      assert NonNegative(js);
      var ss := ScheduleExists(js);
      AccumulatorFollowsSchedule(js, ss);
      var (effective, nonHardMax) := Accumulate(js);
      starts := ss + [if jobs[n].hard then effective + nonHardMax else effective];
      assert starts[..n] == ss;
      LastStartsInTime(jobs, starts, effective, effective + nonHardMax);
      ScheduleExtends(jobs, starts);
      AccumulatorFollowsSchedule(jobs, starts);
    }
  }

  /** The time of a node is what the loop leaves out of account: the non-HARD jobs after the last HARD one. */
  lemma NodeEstimateIsMakespan(jobs: seq<Job>, starts: seq<real>, makespan: real)
    requires IsSchedule(jobs, starts) && NonNegative(jobs) && IsMakespan(jobs, starts, makespan)
    ensures makespan == Accumulate(jobs).0 + Accumulate(jobs).1
    ensures Accumulate(jobs).0 == makespan <==> forall i :: TrailsAt(jobs, i) ==> jobs[i].duration == 0.0
    ensures jobs == [] || jobs[|jobs| - 1].hard ==> Accumulate(jobs).0 == makespan
  {
    AccumulatorFollowsSchedule(jobs, starts);
    MakespanIsUnique(jobs, starts, makespan, Accumulate(jobs).0 + Accumulate(jobs).1);
    TrailingMax(jobs);
  }

  lemma MakespanIsUnique(jobs: seq<Job>, starts: seq<real>, t: real, u: real)
    requires |starts| == |jobs| && IsMakespan(jobs, starts, t) && IsMakespan(jobs, starts, u)
    ensures t == u
  {
  }

  /** No HARD job is at or after index `i`. */
  predicate TrailsAt(jobs: seq<Job>, i: int) {
    0 <= i < |jobs| && forall j :: i <= j < |jobs| ==> !jobs[j].hard
  }

  lemma {:induction false} TrailingMax(jobs: seq<Job>)
    requires NonNegative(jobs)
    ensures var m := Accumulate(jobs).1;
            && m >= 0.0
            && (forall i :: TrailsAt(jobs, i) ==> jobs[i].duration <= m)
            && (m == 0.0 || exists i :: TrailsAt(jobs, i) && jobs[i].duration == m)
  {
    if jobs != [] {
      var n := |jobs| - 1;
      var js := jobs[..n];
      TrailingMax(js);
      var m := Accumulate(js).1;
      forall i | TrailsAt(jobs, i) && i < n ensures TrailsAt(js, i) {
        assert forall j :: i <= j < |js| ==> js[j] == jobs[j];
      }
      if !jobs[n].hard {
        assert TrailsAt(jobs, n);
        if m != 0.0 {
          var i :| TrailsAt(js, i) && js[i].duration == m;
          forall j | i <= j < |jobs| ensures !jobs[j].hard {
            if j < n { assert !js[j].hard; }
          }
          assert TrailsAt(jobs, i) && jobs[i].duration == m;
        }
      } else {
        forall i | 0 <= i < |jobs| ensures !TrailsAt(jobs, i) {
          assert i <= n < |jobs| && jobs[n].hard;
        }
      }
    }
  }

  /* The order */

  datatype BlockingType = HARD | SOFT | NONE

  datatype NodeAction = NodeAction(action: Action, blockingType: BlockingType)

  datatype Node = Node(nodeId: string, sequenceId: int, position: Option<(real, real)>, actions: seq<NodeAction>)

  datatype OrderEdge = OrderEdge(startNodeId: string, endNodeId: string, sequenceId: int, maxSpeed: Option<real>)

  datatype Order = Order(nodes: seq<Node>, edges: seq<OrderEdge>)

  /** `canExecuteOrder`: every node action is supported on nodes. */
  predicate Supported(actions: seq<NodeAction>) {
    forall i :: 0 <= i < |actions| ==> BuiltIn(actions[i].action, NodeScope).Some?
  }

  function DurationAtNode(action: Action): real
    requires BuiltIn(action, NodeScope).Some?
  {
    BuiltInsAreSound(action, NodeScope);
    var def := BuiltIn(action, NodeScope).value;
    EstimateFrom(def, action, def.onInit)
  }

  function Jobs(actions: seq<NodeAction>): (jobs: seq<Job>)
    requires Supported(actions)
    ensures |jobs| == |actions| && forall i :: 0 <= i < |jobs| ==> (jobs[i].hard <==> actions[i].blockingType == HARD)
  {
    seq(|actions|, i requires 0 <= i < |actions| =>
      Job(actions[i].blockingType == HARD, DurationAtNode(actions[i].action)))
  }

  /** The loop over the actions of one node. */
  method EffectiveActionDuration(actions: seq<NodeAction>) returns (effectiveActionDuration: real)
    requires Supported(actions)
    ensures effectiveActionDuration == Accumulate(Jobs(actions)).0
  {
    hide BuiltIn, Sound, EstimateFrom;
    effectiveActionDuration := 0.0;
    var nonHardMaxDuration := 0.0;
    ghost var jobs := Jobs(actions);
    for i := 0 to |actions|
      invariant (effectiveActionDuration, nonHardMaxDuration) == Accumulate(jobs[..i])
    {
      var action := actions[i].action;
      BuiltInsAreSound(action, NodeScope);
      var duration := GetNodeActionDuration(BuiltIn(action, NodeScope).value, action);
      assert jobs[..i + 1][..i] == jobs[..i];
      if actions[i].blockingType == HARD {
        effectiveActionDuration := effectiveActionDuration + nonHardMaxDuration;
        effectiveActionDuration := effectiveActionDuration + duration;
        nonHardMaxDuration := 0.0;
      } else {
        nonHardMaxDuration := Max(nonHardMaxDuration, duration);
      }
    }
    assert jobs[..|actions|] == jobs;
  }

  /** A node whose only action is a SOFT noop takes five seconds, and is estimated to take none. */
  lemma SoftNoopIsNotEstimated()
    ensures var actions := [NodeAction(Action("id", "noop", []), SOFT)];
            && Supported(actions) && NonNegative(Jobs(actions)) && Accumulate(Jobs(actions)).0 == 0.0
            && IsSchedule(Jobs(actions), [0.0]) && IsMakespan(Jobs(actions), [0.0], 5.0)
  {
    var action := Action("id", "noop", []);
    var def := BuiltIn(action, NodeScope).value;
    BuiltInsAreSound(action, NodeScope);
    EstimateUnfolds(def, action, Running);
    var jobs := Jobs([NodeAction(action, SOFT)]);
    assert jobs == [Job(false, 5.0)];
    assert jobs[..0] == [];
    assert End(jobs, [0.0], 0) == 5.0;
  }

  function NodesTime(nodes: seq<Node>): real
    requires forall i :: 0 <= i < |nodes| ==> Supported(nodes[i].actions)
  {
    if nodes == [] then 0.0
    else NodesTime(nodes[..|nodes| - 1]) + Accumulate(Jobs(nodes[|nodes| - 1].actions)).0
  }

  /** The first node with the given identity, as `Array.find` returns it. */
  function FindNode(nodes: seq<Node>, nodeId: string, sequenceId: int): (node: Option<Node>)
    ensures node.Some? ==> node.value in nodes && IsNode(node.value, nodeId, sequenceId)
    ensures node.None? ==> forall k :: 0 <= k < |nodes| ==> !IsNode(nodes[k], nodeId, sequenceId)
  {
    if nodes == [] then None
    else if IsNode(nodes[0], nodeId, sequenceId) then Some(nodes[0])
    else FindNode(nodes[1..], nodeId, sequenceId)
  }

  predicate IsNode(node: Node, nodeId: string, sequenceId: int) {
    node.nodeId == nodeId && node.sequenceId == sequenceId
  }

  /** Where an edge starts, and the route to its end; None if a node or the position of the end node is missing. */
  function LegOf(order: Order, edge: OrderEdge, current: (real, real)): Option<((real, real), Route)> {
    var startNode := FindNode(order.nodes, edge.startNodeId, edge.sequenceId - 1);
    var endNode := FindNode(order.nodes, edge.endNodeId, edge.sequenceId + 1);
    if startNode.None? || endNode.None? || endNode.value.position.None? then None
    else
      var from := if startNode.value.position.Some? then startNode.value.position.value else current;
      var to := endNode.value.position.value;
      Some((from, Route(to.0, to.1, edge.maxSpeed)))
  }

  function LegsOf(order: Order, edges: seq<OrderEdge>, current: (real, real)): (r: Option<seq<((real, real), Route)>>)
    ensures r.Some? ==> |r.value| == |edges|
    ensures r.Some? ==> forall i :: 0 <= i < |edges| ==> r.value[i].1.maxSpeed == edges[i].maxSpeed
  {
    if edges == [] then Some([])
    else
      match (LegsOf(order, edges[..|edges| - 1], current), LegOf(order, edges[|edges| - 1], current))
      case (Some(legs), Some(leg)) => Some(legs + [leg])
      case _ => None
  }

  function LegsTime(o: Options, legs: seq<((real, real), Route)>): real
    requires forall i :: 0 <= i < |legs| ==> TargetSpeed(o, legs[i].1.maxSpeed) != 0.0
  {
    if legs == [] then 0.0
    else
      var (from, route) := legs[|legs| - 1];
      LegsTime(o, legs[..|legs| - 1]) + TravelEstimate(o, from.0, from.1, route)
  }

  /** The estimate as the caller sees it: None stands for the exception on a missing node or position. */
  function OrderTime(o: Options, order: Order, current: (real, real)): Option<real>
    requires forall i :: 0 <= i < |order.nodes| ==> Supported(order.nodes[i].actions)
    requires forall i :: 0 <= i < |order.edges| ==> TargetSpeed(o, order.edges[i].maxSpeed) != 0.0
  {
    match LegsOf(order, order.edges, current)
    case Some(legs) => Some(LegsTime(o, legs) + NodesTime(order.nodes))
    case None => None
  }

  lemma {:induction false} MissingLeg(order: Order, edges: seq<OrderEdge>, i: nat, current: (real, real))
    requires i < |edges| && LegOf(order, edges[i], current).None?
    ensures LegsOf(order, edges, current).None?
  {
    if i < |edges| - 1 {
      MissingLeg(order, edges[..|edges| - 1], i, current);
    }
  }

  lemma NextLeg(o: Options, order: Order, i: nat, current: (real, real), legs: seq<((real, real), Route)>)
    requires i < |order.edges| && LegsOf(order, order.edges[..i], current) == Some(legs)
    requires forall k :: 0 <= k < |order.edges| ==> TargetSpeed(o, order.edges[k].maxSpeed) != 0.0
    requires LegOf(order, order.edges[i], current).Some?
    ensures var leg := LegOf(order, order.edges[i], current).value;
            && leg.1.maxSpeed == order.edges[i].maxSpeed
            && LegsOf(order, order.edges[..i + 1], current) == Some(legs + [leg])
            && LegsTime(o, legs + [leg]) == LegsTime(o, legs) + TravelEstimate(o, leg.0.0, leg.0.1, leg.1)
  {
    var leg := LegOf(order, order.edges[i], current).value;
    assert order.edges[..i + 1][..i] == order.edges[..i];
    assert (legs + [leg])[..i] == legs;
  }

  lemma NextNode(nodes: seq<Node>, i: nat)
    requires i < |nodes| && forall k :: 0 <= k < |nodes| ==> Supported(nodes[k].actions)
    ensures NodesTime(nodes[..i + 1]) == NodesTime(nodes[..i]) + Accumulate(Jobs(nodes[i].actions)).0
  {
    assert nodes[..i + 1][..i] == nodes[..i];
  }

  /** The loop over the nodes of an order. */
  method EffectiveNodesDuration(nodes: seq<Node>) returns (effectiveActionDuration: real)
    requires forall i :: 0 <= i < |nodes| ==> Supported(nodes[i].actions)
    ensures effectiveActionDuration == NodesTime(nodes)
  {
    effectiveActionDuration := 0.0;
    for i := 0 to |nodes|
      invariant effectiveActionDuration == NodesTime(nodes[..i])
    {
      var nodeTime := EffectiveActionDuration(nodes[i].actions);
      NextNode(nodes, i);
      effectiveActionDuration := effectiveActionDuration + nodeTime;
    }
    assert nodes[..|nodes|] == nodes;
  }

  /** The loop over the edges of an order. */
  method EdgeTraversalTime(o: Options, order: Order, current: (real, real)) returns (edgeTraversalTime: Option<real>)
    requires forall i :: 0 <= i < |order.edges| ==> TargetSpeed(o, order.edges[i].maxSpeed) != 0.0
    ensures match LegsOf(order, order.edges, current)
            case Some(legs) => edgeTraversalTime == Some(LegsTime(o, legs))
            case None => edgeTraversalTime == None
  {
    var sum := 0.0;
    ghost var legs: seq<((real, real), Route)> := [];
    for i := 0 to |order.edges|
      invariant LegsOf(order, order.edges[..i], current) == Some(legs)
      invariant forall k :: 0 <= k < |legs| ==> TargetSpeed(o, legs[k].1.maxSpeed) != 0.0
      invariant sum == LegsTime(o, legs)
    {
      var leg := LegOf(order, order.edges[i], current);
      if leg.None? {
        MissingLeg(order, order.edges, i, current);
        return None;
      }
      NextLeg(o, order, i, current, legs);
      sum := sum + TravelEstimate(o, leg.value.0.0, leg.value.0.1, leg.value.1);
      legs := legs + [leg.value];
    }
    assert order.edges[..|order.edges|] == order.edges;
    edgeTraversalTime := Some(sum);
  }

  method CalculateEstimatedOrderExecutionTime(o: Options, order: Order, current: (real, real)) returns (time: Option<real>)
    requires forall i :: 0 <= i < |order.nodes| ==> Supported(order.nodes[i].actions)
    requires forall i :: 0 <= i < |order.edges| ==> TargetSpeed(o, order.edges[i].maxSpeed) != 0.0
    ensures time == OrderTime(o, order, current)
  {
    hide Supported, NodesTime, LegsTime, LegsOf, TargetSpeed, BuiltIn;
    var effectiveActionDuration := EffectiveNodesDuration(order.nodes);
    var edgeTraversalTime := EdgeTraversalTime(o, order, current);
    if edgeTraversalTime.None? {
      return None;
    }
    time := Some(edgeTraversalTime.value + effectiveActionDuration);
  }

  /* The estimate and the simulation */

  /** Each edge starts where the one before it ends. */
  predicate Chained(fromX: real, fromY: real, legs: seq<((real, real), Route)>)
    decreases |legs|
  {
    legs != [] ==>
      legs[0].0 == (fromX, fromY) && Chained(legs[0].1.endX, legs[0].1.endY, legs[1..])
  }

  function Routes(legs: seq<((real, real), Route)>): (routes: seq<Route>)
    ensures |routes| == |legs|
    ensures forall i :: 0 <= i < |legs| ==> routes[i] == legs[i].1
  {
    seq(|legs|, i requires 0 <= i < |legs| => legs[i].1)
  }

  lemma {:induction false} LegsTimeFromFront(o: Options, legs: seq<((real, real), Route)>)
    requires legs != []
    requires forall i :: 0 <= i < |legs| ==> TargetSpeed(o, legs[i].1.maxSpeed) != 0.0
    ensures LegsTime(o, legs) ==
            TravelEstimate(o, legs[0].0.0, legs[0].0.1, legs[0].1) + LegsTime(o, legs[1..])
  {
    var n := |legs| - 1;
    if n > 0 {
      LegsTimeFromFront(o, legs[..n]);
      assert legs[..n][1..] == legs[1..][..n - 1];
    } else {
      assert legs[..n] == [] == legs[1..];
    }
  }

  lemma {:induction false} ChainedLegsAreRoute(o: Options, fromX: real, fromY: real, legs: seq<((real, real), Route)>)
    requires Chained(fromX, fromY, legs)
    requires forall i :: 0 <= i < |legs| ==> TargetSpeed(o, legs[i].1.maxSpeed) != 0.0
    ensures LegsTime(o, legs) == RouteEstimate(o, fromX, fromY, Routes(legs))
    decreases |legs|
  {
    if legs != [] {
      LegsTimeFromFront(o, legs);
      ChainedLegsAreRoute(o, legs[0].1.endX, legs[0].1.endY, legs[1..]);
      assert Routes(legs)[1..] == Routes(legs[1..]);
    }
  }

  /* The whole estimate */

  function Sum(times: seq<real>): real {
    if times == [] then 0.0 else times[0] + Sum(times[1..])
  }

  lemma {:induction false} SumOfLast(times: seq<real>)
    requires times != []
    ensures Sum(times) == Sum(times[..|times| - 1]) + times[|times| - 1]
  {
    var n := |times| - 1;
    if n > 0 {
      SumOfLast(times[1..]);
      assert times[1..][..n - 1] == times[..n][1..];
    }
  }

  /** The actions of a node take the given time, and the last one is HARD. */
  ghost predicate TakesTime(jobs: seq<Job>, time: real) {
    && NonNegative(jobs) && (jobs == [] || jobs[|jobs| - 1].hard)
    && exists starts :: IsSchedule(jobs, starts) && IsMakespan(jobs, starts, time)
  }

  lemma NodeTakesTime(jobs: seq<Job>, time: real)
    requires TakesTime(jobs, time)
    ensures Accumulate(jobs).0 == time
  {
    var starts :| IsSchedule(jobs, starts) && IsMakespan(jobs, starts, time);
    NodeEstimateIsMakespan(jobs, starts, time);
  }

  lemma {:induction false} NodesTakeTime(nodes: seq<Node>, times: seq<real>)
    requires |times| == |nodes| && forall i :: 0 <= i < |nodes| ==> Supported(nodes[i].actions)
    requires forall i :: 0 <= i < |nodes| ==> TakesTime(Jobs(nodes[i].actions), times[i])
    ensures NodesTime(nodes) == Sum(times)
  {
    if nodes != [] {
      hide TakesTime, Supported, Accumulate, Jobs;
      var n := |nodes| - 1;
      NodesTakeTime(nodes[..n], times[..n]);
      NodeTakesTime(Jobs(nodes[n].actions), times[n]);
      SumOfLast(times);
    }
  }

  /** If each node ends with a HARD action, the estimate is the time of the legs and of the actions at the nodes. */
  lemma EstimateIsWhole(o: Options, order: Order, current: (real, real), times: seq<real>)
    requires forall i :: 0 <= i < |order.edges| ==> TargetSpeed(o, order.edges[i].maxSpeed) != 0.0
    requires |times| == |order.nodes| && forall i :: 0 <= i < |times| ==> Supported(order.nodes[i].actions)
    requires forall i :: 0 <= i < |times| ==> TakesTime(Jobs(order.nodes[i].actions), times[i])
    ensures var legs := LegsOf(order, order.edges, current);
            OrderTime(o, order, current) == if legs.Some? then Some(LegsTime(o, legs.value) + Sum(times)) else None
  {
    hide TakesTime, Supported, Accumulate, Jobs, LegsTime, LegsOf, NodesTime, TargetSpeed;
    NodesTakeTime(order.nodes, times);
  }

  /* The nodes of an order */

  /** No two nodes have the same identity. */
  predicate Identified(order: Order) {
    forall i, j :: 0 <= i < j < |order.nodes| ==>
      !IsNode(order.nodes[i], order.nodes[j].nodeId, order.nodes[j].sequenceId)
  }

  /** The k-th node of the order is the one that the i-th edge names as its start. */
  predicate StartsAt(order: Order, i: int, k: int) {
    && 0 <= i < |order.edges| && 0 <= k < |order.nodes|
    && order.nodes[k].nodeId == order.edges[i].startNodeId
    && order.nodes[k].sequenceId + 1 == order.edges[i].sequenceId
  }

  predicate EndsAt(order: Order, i: int, k: int) {
    && 0 <= i < |order.edges| && 0 <= k < |order.nodes|
    && order.nodes[k].nodeId == order.edges[i].endNodeId
    && order.nodes[k].sequenceId == order.edges[i].sequenceId + 1
  }

  lemma IdentifiedIsFound(order: Order, nodeId: string, sequenceId: int, k: nat)
    requires Identified(order) && k < |order.nodes| && IsNode(order.nodes[k], nodeId, sequenceId)
    ensures FindNode(order.nodes, nodeId, sequenceId) == Some(order.nodes[k])
  {
    var node := FindNode(order.nodes, nodeId, sequenceId);
    var j :| 0 <= j < |order.nodes| && order.nodes[j] == node.value;
  }

  lemma {:induction false} LegAt(order: Order, edges: seq<OrderEdge>, current: (real, real), i: nat)
    requires LegsOf(order, edges, current).Some? && i < |edges|
    ensures LegOf(order, edges[i], current) == Some(LegsOf(order, edges, current).value[i])
  {
    if i < |edges| - 1 {
      LegAt(order, edges[..|edges| - 1], current, i);
    }
  }

  /**
   The i-th leg starts at the position of the node that the i-th edge names as its start, or at the current one if
   that node has none, and leads to the position of its end node.
   */
  lemma LegsFollowNodes(order: Order, current: (real, real), i: nat, s: nat, e: nat)
    requires Identified(order) && StartsAt(order, i, s) && EndsAt(order, i, e)
    requires LegsOf(order, order.edges, current).Some?
    ensures var start, end := order.nodes[s].position, order.nodes[e].position;
            && end.Some?
            && LegsOf(order, order.edges, current).value[i] ==
               (if start.Some? then start.value else current, Route(end.value.0, end.value.1, order.edges[i].maxSpeed))
  {
    var edge := order.edges[i];
    LegAt(order, order.edges, current, i);
    IdentifiedIsFound(order, edge.startNodeId, edge.sequenceId - 1, s);
    IdentifiedIsFound(order, edge.endNodeId, edge.sequenceId + 1, e);
  }

  /** The edge has its two nodes, and the end node has a position. */
  ghost predicate EdgeGiven(order: Order, i: nat) {
    (exists s :: StartsAt(order, i, s)) && exists e :: EndsAt(order, i, e) && order.nodes[e].position.Some?
  }

  ghost predicate NodesGiven(order: Order) {
    forall i :: 0 <= i < |order.edges| ==> EdgeGiven(order, i)
  }

  lemma StartIsFound(order: Order, i: nat)
    requires Identified(order) && i < |order.edges|
    ensures var edge := order.edges[i];
            FindNode(order.nodes, edge.startNodeId, edge.sequenceId - 1).Some? <==> exists s :: StartsAt(order, i, s)
  {
    var edge := order.edges[i];
    var node := FindNode(order.nodes, edge.startNodeId, edge.sequenceId - 1);
    if node.Some? {
      var s :| 0 <= s < |order.nodes| && order.nodes[s] == node.value;
      assert StartsAt(order, i, s);
    } else if s :| StartsAt(order, i, s) {
      assert IsNode(order.nodes[s], edge.startNodeId, edge.sequenceId - 1);
    }
  }

  lemma EndIsFound(order: Order, i: nat)
    requires Identified(order) && i < |order.edges|
    ensures var edge := order.edges[i];
            var node := FindNode(order.nodes, edge.endNodeId, edge.sequenceId + 1);
            node.Some? && node.value.position.Some? <==>
              exists e :: EndsAt(order, i, e) && order.nodes[e].position.Some?
  {
    var edge := order.edges[i];
    var node := FindNode(order.nodes, edge.endNodeId, edge.sequenceId + 1);
    if node.Some? {
      var e :| 0 <= e < |order.nodes| && order.nodes[e] == node.value;
      assert EndsAt(order, i, e);
    }
    if e :| EndsAt(order, i, e) && order.nodes[e].position.Some? {
      IdentifiedIsFound(order, edge.endNodeId, edge.sequenceId + 1, e);
    }
  }

  lemma LegExists(order: Order, current: (real, real), i: nat)
    requires Identified(order) && i < |order.edges|
    ensures LegOf(order, order.edges[i], current).Some? <==> EdgeGiven(order, i)
  {
    hide Identified, StartsAt, EndsAt, FindNode;
    StartIsFound(order, i);
    EndIsFound(order, i);
  }

  lemma {:induction false} AllLegsExist(order: Order, edges: seq<OrderEdge>, current: (real, real))
    requires forall i :: 0 <= i < |edges| ==> LegOf(order, edges[i], current).Some?
    ensures LegsOf(order, edges, current).Some?
  {
    if edges != [] {
      AllLegsExist(order, edges[..|edges| - 1], current);
    }
  }

  /** The estimate fails exactly if a node of an edge, or the position of its end node, is missing. */
  lemma EstimatedExactlyIfGiven(order: Order, current: (real, real))
    requires Identified(order)
    ensures LegsOf(order, order.edges, current).Some? <==> NodesGiven(order)
  {
    if NodesGiven(order) {
      forall i | 0 <= i < |order.edges| ensures LegOf(order, order.edges[i], current).Some? {
        LegExists(order, current, i);
      }
      AllLegsExist(order, order.edges, current);
    } else {
      var i :| 0 <= i < |order.edges| && !EdgeGiven(order, i);
      LegExists(order, current, i);
      MissingLeg(order, order.edges, i, current);
    }
  }

  /** Each edge starts at the end node of the edge before it. */
  predicate Follows(order: Order) {
    forall i :: 0 <= i < |order.edges| - 1 ==>
      && order.edges[i + 1].startNodeId == order.edges[i].endNodeId
      && order.edges[i + 1].sequenceId == order.edges[i].sequenceId + 2
  }

  lemma {:induction false} FollowingIsChained(order: Order, current: (real, real), i: nat)
    requires Follows(order) && LegsOf(order, order.edges, current).Some? && i < |order.edges|
    ensures var legs := LegsOf(order, order.edges, current).value;
            Chained(legs[i].0.0, legs[i].0.1, legs[i..])
    decreases |order.edges| - i
  {
    var legs := LegsOf(order, order.edges, current).value;
    LegAt(order, order.edges, current, i);
    assert legs[i..][1..] == legs[i + 1..];
    if i + 1 < |legs| {
      LegAt(order, order.edges, current, i + 1);
      FollowingIsChained(order, current, i + 1);
    }
  }

  /** The legs are driven along the edges of the order. */
  ghost predicate DrivesOrder(order: Order, legs: seq<Leg>) {
    && |legs| == |order.edges|
    && forall i: nat, e: nat :: EndsAt(order, i, e) && order.nodes[e].position.Some? ==>
         var end := order.nodes[e].position.value;
         legs[i].edge == Route(end.0, end.1, order.edges[i].maxSpeed)
  }

  /** The vehicle is where the first edge starts. */
  ghost predicate AtStart(order: Order, a: Agv, current: (real, real)) {
    forall s: nat :: StartsAt(order, 0, s) ==>
      (a.vehicle.x, a.vehicle.y) ==
      if order.nodes[s].position.Some? then order.nodes[s].position.value else current
  }

  /** An order that can be estimated, and a run along it. */
  ghost predicate TravelsOrder(order: Order, a: Agv, current: (real, real), legs: seq<Leg>) {
    Identified(order) && NodesGiven(order) && Follows(order) && DrivesOrder(order, legs) && AtStart(order, a, current)
  }

  lemma OrderIsPlanned(order: Order, a: Agv, current: (real, real), legs: seq<Leg>)
    requires TravelsOrder(order, a, current, legs)
    ensures var planned := LegsOf(order, order.edges, current);
            planned.Some? && Chained(a.vehicle.x, a.vehicle.y, planned.value) && Routes(planned.value) == Edges(legs)
  {
    hide Identified, LegsOf, Chained, Follows;
    EstimatedExactlyIfGiven(order, current);
    var planned := LegsOf(order, order.edges, current).value;
    forall i: nat | i < |planned| ensures planned[i].1 == legs[i].edge {
      assert EdgeGiven(order, i);
      var s :| StartsAt(order, i, s);
      var e :| EndsAt(order, i, e) && order.nodes[e].position.Some?;
      LegsFollowNodes(order, current, i, s, e);
    }
    if planned != [] {
      assert EdgeGiven(order, 0);
      var s :| StartsAt(order, 0, s);
      var e :| EndsAt(order, 0, e) && order.nodes[e].position.Some?;
      LegsFollowNodes(order, current, 0, s, e);
      FollowingIsChained(order, current, 0);
      assert planned[0..] == planned;
    } else {
      NothingChained(a.vehicle.x, a.vehicle.y);
    }
  }

  lemma NothingChained(fromX: real, fromY: real)
    ensures Chained(fromX, fromY, [])
  {
  }

  /**
   Travel of a whole order whose edges follow one another: the driving time of every simulated run along them is
   the travel part of the estimate, up to one interval per edge.
   */
  lemma OrderTravelMeetsEstimate(o: Options, a: Agv, order: Order, current: (real, real), legs: seq<Leg>, maxInterval: real)
    requires Euclidean(o.plane) && DrivesRoute(o, a, legs, maxInterval)
    requires TravelsOrder(order, a, current, legs)
    ensures LegsOf(order, order.edges, current).Some?
    ensures forall i :: 0 <= i < |order.edges| ==> TargetSpeed(o, order.edges[i].maxSpeed) != 0.0
    ensures var planned := LegsOf(order, order.edges, current).value;
            LegsTime(o, planned) <= RouteTime(o, a, legs) <= LegsTime(o, planned) + |legs| as real * maxInterval
  {
    OrderIsPlanned(order, a, current, legs);
    var planned := LegsOf(order, order.edges, current).value;
    SpeedsAreLegal(o, a, legs, maxInterval);
    forall i | 0 <= i < |planned| ensures TargetSpeed(o, planned[i].1.maxSpeed) != 0.0 {
      assert Edges(legs)[i] == planned[i].1;
      assert Edges(legs)[i] in Edges(legs);
    }
    ChainedLegsAreRoute(o, a.vehicle.x, a.vehicle.y, planned);
    RouteMeetsEstimate(o, a, legs, maxInterval);
  }

  /** The simulated time of a prompt run is the same estimate plus one start tick, up to one interval, per edge. */
  lemma OrderTravelTakesEstimate(o: Options, a: Agv, order: Order, current: (real, real), legs: seq<Leg>, maxInterval: real)
    requires Euclidean(o.plane) && DrivesRoute(o, a, legs, maxInterval) && PromptRoute(o, a, legs)
    requires TravelsOrder(order, a, current, legs)
    ensures LegsOf(order, order.edges, current).Some?
    ensures forall i :: 0 <= i < |order.edges| ==> TargetSpeed(o, order.edges[i].maxSpeed) != 0.0
    ensures var time := RouteStarts(legs) + LegsTime(o, LegsOf(order, order.edges, current).value);
            time <= RouteTicks(legs) <= time + |legs| as real * maxInterval
  {
    hide Euclidean, DrivesRoute, PromptRoute, TravelsOrder;
    OrderIsPlanned(order, a, current, legs);
    OrderTravelMeetsEstimate(o, a, order, current, legs, maxInterval);
    var planned := LegsOf(order, order.edges, current).value;
    SpeedsAreLegal(o, a, legs, maxInterval);
    forall i | 0 <= i < |planned| ensures TargetSpeed(o, planned[i].1.maxSpeed) != 0.0 {
      assert Edges(legs)[i] == planned[i].1;
      assert Edges(legs)[i] in Edges(legs);
    }
    ChainedLegsAreRoute(o, a.vehicle.x, a.vehicle.y, planned);
    RouteTakesEstimate(o, a, legs, maxInterval);
  }
}
