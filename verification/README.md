# Verified model of the VDA 5050 library

This project models the parts of the library that carry the most state, and proves what they promise.

- **Virtual AGV** (`Actions`, `ActionStateMachine`, `VirtualAgv`, `TickRound`, `VirtualAgvAdapter`, `OrderEstimate`):
  a vehicle that runs actions as state machines on periodic ticks, drives in straight steps, drains and charges its
  battery, and estimates order execution times. Proved are the histories of actions (`ActionHistory`), what
  requests make them report (`ActionRequests`), what commands and effects do (`AgvCommands`), the timing of actions
  against the estimates (`ActionTiming`), the fairness of a loop over a list that is spliced while it is iterated
  (`TickFairness`, `ActionTermination`, `TickExceptions`), motion and battery (`Motion`, `Charging`, `Geometry`), invariants of
  all reachable states (`AgvSafety`), the pause (`PauseSafety`), the low-battery error (`LowBattery`,
  `LowBatteryRuns`) and the handling of loads (`Loads`).
- **Subscriptions** (`JsString`, `MqttUtils`, `TopicFormat`, `SubscriptionTrie`, `SubscriptionManager`, `BrokerSync`,
  `SessionHistory`, `Client`, `Delivery`): MQTT topics printed and parsed with a configurable format, a nested map with
  wildcard keys that stands for a flat collection of subscriptions, the protocol that keeps the broker in sync with it, and
  the way of a message from publisher to handlers.
- **Tracking** (`JsMap`, `AgvIdMap`, `MasterControlClient`): a nested map that stands for a flat one, and chained
  handlers that have all seen the tracked states.

Classes update their fields as the source does; each method is proved against a function on values, and the lemmas are
about these functions and about runs of them. Numbers that the source holds as floating point are `real`; `sqrt`, `atan2`,
`sin` and `cos` are a length and a unit vector with the laws of the Euclidean plane. Strings that end up in topics are
sequences of UTF-16 code units.

The environment appears as parameters: the commands that the controller gives from within its callbacks (`Reactions`),
tick intervals, fresh ids, whether a role may use a topic, and whether a message passes validation. An exception
that the source would throw from a tick is an outcome of the tick and ends it.

## Findings

Where code and documentation disagree, the model follows the code. Each finding has an input that shows it, and the exact
condition under which the code does what is promised:

- `noop` is allowed on edges but has no ON_TERMINATE. Once asked to terminate, it throws in every later tick that reaches
  it, until it is paused, unpaused or cancelled. Until then, only as many ticks complete as there are actions ahead of it; then the AGV stands
  still, supposing that the host survives an exception from a timer (`ActionHistory.EdgeNoopThrows`,
  `ActionHistory.SomeRunThrows`, `TickExceptions.OverdueStallsAgv`).
- An action definition may name PAUSED as the next status, but the machine then resumes to no status and reports it
  (`ActionHistory.PausingLosesStatus`, `ActionHistory.LosesStatusExactly`).
- Non-HARD actions after the last HARD action of a node add nothing to the estimate
  (`OrderEstimate.SoftNoopIsNotEstimated`, `OrderEstimate.NodeEstimateIsMakespan`).
- The low-battery error is forgotten on ticks that do not report its removal, and when the vehicle stops on a low battery
  again. It then stays published until an order is accepted, which drops it in any case
  (`LowBatteryRuns.RecoveredErrorStaysPublished`, `LowBatteryRuns.FirstOfTwoErrorsStays`,
  `LowBattery.ErrorGoneExactlyIfReleased`).
- `stopTraverse` ends a pause without unpausing the actions, which then stay paused
  (`PauseSafety.StopTraverseStrands`, `PauseSafety.MutualExactlyIfCareful`).
- `AgvIdMap` iterates grouped by manufacturer, not in insertion order (`AgvIdMap.OutOfInsertionOrder`,
  `AgvIdMap.IterationOrderExactly`).
- A repeated `unsubscribe` is rejected, not ignored (`Client.UnsubscribeTwice`, `Client.Client.Unsubscribe`).
- With %manufacturer% or %serialNumber% omitted from the format, subscriptions share filters, and unsubscribing one can
  silence another (`BrokerSync.SharedFilterLost`, `BrokerSync.InSyncExactly`).
- A lookup yields duplicates if a component of the path is undefined (`SubscriptionManager.WildcardFoundTwice`,
  `SubscriptionManager.OnceExactlyIfResolved`).
- With a format that begins with %manufacturer%, wildcard subscriptions do not reach a manufacturer that begins with "$",
  which passes validation (`Delivery.HiddenFromWildcard`, `Delivery.PublishedReachesExactly`).

## Model

| member | source | states |
|---|---|---|
| `Actions.GetNodeActionDuration` | src/adapter/virtual-agv-adapter.ts:1028-1041 | The loop ends for every sound definition and returns the sum of the durations along the path of `next` statuses that starts at ON_INIT. |
| `Actions.BuiltInsAreSound` | src/adapter/virtual-agv-adapter.ts:742-988 | Every built-in definition leads from ON_INIT to a terminal status; only `noop` on an edge lacks the ON_TERMINATE that its scope demands. |
| `Actions.BuiltInsSupported` | src/adapter/virtual-agv-adapter.ts:742-988 | Which built-in actions are supported in which scopes, and which can be cancelled. |
| `Actions.BuiltInEstimates` | src/adapter/virtual-agv-adapter.ts:742-988 | The estimated duration of each built-in action, with its duration parameter or the default. |
| `Actions.FirstParameter` | src/adapter/virtual-agv-adapter.ts:1429-1433 | A parameter has the value of the first one with its key. |
| `ActionStateMachine.VirtualActionStateMachine.constructor` | src/adapter/virtual-agv-adapter.ts:1455-1466 | A new machine has no status, no pending request and no accounted time. |
| `ActionStateMachine.VirtualActionStateMachine.Tick` | src/adapter/virtual-agv-adapter.ts:1490-1546 | One tick in place: the new fields and what is reported are those of the transition function. What that reports is told from the events and earlier reports alone by the lemmas on requests, histories and timings below. |
| `ActionStateMachine.VirtualActionStateMachine.TransitionTo` | src/adapter/virtual-agv-adapter.ts:1598-1616 | Entering a terminal status ends the machine: its request flags become undefined. |
| `ActionStateMachine.VirtualActionStateMachine.RequestTermination` | src/adapter/virtual-agv-adapter.ts:1554-1560 | Only an edge action that has not ended takes a termination request. |
| `ActionStateMachine.VirtualActionStateMachine.RequestCancel` | src/adapter/virtual-agv-adapter.ts:1569-1575 | Only a cancelable action of an order that has not ended takes a cancel request. |
| `ActionStateMachine.VirtualActionStateMachine.RequestPause` | src/adapter/virtual-agv-adapter.ts:1581-1584 | Sets the pause request and nothing else. |
| `ActionStateMachine.VirtualActionStateMachine.RequestUnpause` | src/adapter/virtual-agv-adapter.ts:1590-1593 | Withdraws the pause request and nothing else. |
| `ActionHistory.HistoryIsPath` | src/adapter/virtual-agv-adapter.ts:1490-1546 | Under every interleaving of tick, pause, unpause, cancel and terminate, the reported statuses are a path of the definition's graph extended with PAUSED. |
| `ActionHistory.HistoriesAreExactlyPaths` | src/adapter/virtual-agv-adapter.ts:1490-1546 | A history is reported by some run if and only if it is such a path. |
| `ActionHistory.OneTerminalReport` | src/adapter/virtual-agv-adapter.ts:1598-1616 | A terminal status is reported at most once, it is the last report, and the machine reports nothing afterwards. |
| `ActionHistory.ResumeReturns` | src/adapter/virtual-agv-adapter.ts:1495-1506 | Unpausing returns to the interrupted status, or to the `next` of ON_INIT if none had been entered. |
| `ActionHistory.ThrowsExactlyWithoutOnTerminate` | src/adapter/virtual-agv-adapter.ts:1520-1526 | A tick of a sound machine throws exactly if a termination is due and the definition has no ON_TERMINATE. |
| `ActionHistory.SomeRunThrows` | src/adapter/virtual-agv-adapter.ts:1520-1526 | Some run throws if and only if the definition lacks the ON_TERMINATE that its scope demands, whatever its ON_INIT. |
| `ActionHistory.EdgeNoopThrows` | src/adapter/virtual-agv-adapter.ts:744-769 | The built-in `noop` on an edge throws when it is terminated: a concrete run. |
| `ActionHistory.LosesStatusExactly` | src/adapter/virtual-agv-adapter.ts:1501-1506 | Some run of a definition of the declared type reports no status at all if and only if the clock may enter PAUSED, which then has no status to resume to. |
| `ActionHistory.PausingLosesStatus` | src/adapter/virtual-agv-adapter.ts:187-213 | A definition whose RUNNING leads to PAUSED reports RUNNING, PAUSED, undefined: a concrete run. |
| `ActionRequests.PauseComesFirst` | src/adapter/virtual-agv-adapter.ts:1495-1506 | While the last word on pausing differs from what was last reported, the next tick reports PAUSED, or the interrupted status, whatever else has been asked for. |
| `ActionRequests.FirstReport` | src/adapter/virtual-agv-adapter.ts:1508-1512 | Otherwise the first tick reports the `next` of ON_INIT. |
| `ActionRequests.CanceledFails` | src/adapter/virtual-agv-adapter.ts:1514-1521 | Otherwise, if the events contain a cancel that scope and definition admit, the next tick, of whatever length, reports FAILED. |
| `ActionRequests.TerminatedEnds` | src/adapter/virtual-agv-adapter.ts:1522-1529 | Otherwise, if they contain a terminate of an edge action, it reports what ON_TERMINATE says. |
| `ActionRequests.PausedWaits` | src/adapter/virtual-agv-adapter.ts:1531-1533 | Otherwise, a paused action reports nothing. |
| `ActionTiming.PausePreservesWork` | src/adapter/virtual-agv-adapter.ts:1496-1546 | For any pattern of pauses, the time accounted to a status is the sum of the intervals of the ticks that found the machine working in it. |
| `ActionTiming.TimedExit` | src/adapter/virtual-agv-adapter.ts:1535-1545 | The timed exit happens exactly at the first such tick at which that sum reaches the duration. |
| `ActionTiming.TicksMeetEstimate` | src/adapter/virtual-agv-adapter.ts:1490-1546 | At every point of every run without cancel and terminate, accounted time plus what is still to come lies between the estimate and the estimate plus one interval for each timed status. |
| `ActionTiming.EstimateBoundsWork` | src/adapter/virtual-agv-adapter.ts:1028-1041 | A finished action has worked at least its estimate D and at most D + k * dt, k being the number of its timed statuses. |
| `ActionTiming.UnpausedTimeIsWork` | src/adapter/virtual-agv-adapter.ts:1490-1546 | With ticks alone, as long as the action goes on, all time after the tick that initialises it is worked. |
| `ActionTiming.UnpausedActionTakesEstimate` | src/adapter/virtual-agv-adapter.ts:1028-1041 | With ticks alone, the simulated time from the tick that initialises an action to the tick that finishes it, that one included, is between D and D + k * dt. |
| `AgvSafety.RunsAreSafe` | src/adapter/virtual-agv-adapter.ts:1158-1371 | Every interleaving of commands, machine ticks, driving and charging keeps: paused or charging implies standing; standing implies zero velocity; driving implies a route; charge in [0,100] and reach = floor(maxReach * charge / 100); paused implies that every live action but startPause and stopPause has been asked to pause. |
| `AgvSafety.ReachableStatesAreSafe` | src/adapter/virtual-agv-adapter.ts:539-581 | The state that `attach` creates is safe, hence every reachable one. |
| `AgvSafety.BuiltInsAreConventional` | src/adapter/virtual-agv-adapter.ts:867-908 | The built-in definitions start a pause only on behalf of an action that a pause does not hold back. |
| `PauseSafety.StopTraverseKeepsMutual` | src/adapter/virtual-agv-adapter.ts:721-726 | In a safe state in which no action is asked to pause unless the vehicle is paused, `stopTraverse` keeps it so if and only if the vehicle is not paused or nothing is listed but startPause and stopPause actions not asked to pause themselves. |
| `PauseSafety.MutualExactlyIfCareful` | src/adapter/virtual-agv-adapter.ts:721-726 | Over every run of commands, machine ticks, driving and charging: no state has an action asked to pause on an unpaused vehicle, if and only if `stopTraverse` is commanded in such states only. |
| `PauseSafety.AttachedMutualExactlyIfCareful` | src/adapter/virtual-agv-adapter.ts:539-556 | The same for all runs from `attach` on. |
| `PauseSafety.BuiltInsResumeAtEnd` | src/adapter/virtual-agv-adapter.ts:889-908 | The premise of both: the built-in definitions end a pause with a terminal status only. |
| `PauseSafety.StrandedActionStays` | src/adapter/virtual-agv-adapter.ts:1495-1532 | An action paused on an unpaused vehicle stays exactly as it is over every run in which no startPause takes effect and it is not itself asked to end. |
| `PauseSafety.StopTraverseStrands` | src/adapter/virtual-agv-adapter.ts:721-726 | Such a run from `attach` on, with the built-in definitions: an instant noop runs, startPause is executed, the noop pauses, and `stopTraverse` leaves it paused on an unpaused vehicle, whatever follows as above. |
| `LowBattery.LowBatteryErrorRemoved` | src/adapter/virtual-agv-adapter.ts:1251-1264 | A charging tick forgets the remembered low-battery error if and only if it finds or raises the charge ten percent above the threshold, and removes it from the published list, if it is listed there, if and only if the tick also is one that reports; all other errors stay as they are. |
| `LowBattery.RunsListErrors` | src/controller/agv-controller.ts:1047-1063 | Over every run, no error is published twice, and unless an order is accepted the remembered one is published. |
| `LowBattery.OrderDropsErrors` | src/controller/agv-controller.ts:1894-1903 | The filter over the references of errors keeps no low-battery error, whether the order is new, an update or stitched; the adapter goes on remembering its error. |
| `LowBattery.MoveRemembers` | src/adapter/virtual-agv-adapter.ts:1214-1256 | Exactly a stop on a low battery makes the adapter remember an error, in place of any earlier one, and exactly a charging tick that recovers the charge makes it forget. |
| `LowBattery.MoveShows` | src/adapter/virtual-agv-adapter.ts:1214-1264 | Exactly a stop on a low battery publishes an error, and exactly an accepted order, or a recovery while it is remembered at a tick that reports, withdraws it. |
| `LowBattery.ForgottenErrorStays` | src/adapter/virtual-agv-adapter.ts:1251-1264 | Over every run in which the vehicle does not stop with the same charge again, an error that is not remembered is published afterwards exactly if it was before and no order has been accepted. |
| `LowBattery.ErrorGoneExactlyIfReleased` | src/adapter/virtual-agv-adapter.ts:1214-1264 | Over every run, further stops on a low battery included unless they quote the same charge (and so publish the error anew): the remembered error, if published, is gone afterwards if and only if an order has been accepted, or, before the vehicle stopped on a low battery again, the charge has recovered at a tick that reports. |
| `LowBatteryRuns.BuiltInChargers` | src/adapter/virtual-agv-adapter.ts:913-966 | The actions that start and stop the charging in these runs are the built-in ones. |
| `LowBatteryRuns.RecoveredErrorStaysPublished` | src/adapter/virtual-agv-adapter.ts:1251-1264 | A run from `attach` on, with the default speed, reach, charging time and threshold, that leaves the error published however long the vehicle charges, no order being accepted. |
| `LowBatteryRuns.FirstOfTwoErrorsStays` | src/adapter/virtual-agv-adapter.ts:1214-1228 | The same with two stops on a low battery, and a brief charge between them: the first error stays published although the recovery is reported. |
| `AgvSafety.DischargeFalls` | src/adapter/virtual-agv-adapter.ts:1106-1113 | Discharging never raises the charge, and never below 0. |
| `Motion.DriveStep` | src/adapter/virtual-agv-adapter.ts:1176-1211 | A driving step either arrives exactly at the end node or shortens the remaining distance by exactly speed * dt and stays on the line. |
| `Motion.TraversalStaysOnCourse` | src/adapter/virtual-agv-adapter.ts:1171-1231 | In runs without initPosition, stopTraverse and another edge (the same edge may be commanded again), across pauses and restarts, the vehicle is on the segment from its starting point to the end node at the distance covered so far, never beyond it. |
| `Motion.TraversalDrainsByDistance` | src/adapter/virtual-agv-adapter.ts:1106-1113 | The whole discharge of a run without charging is 100 / maxReach times the straight-line distance covered, clamped at 0. |
| `Motion.TraversalMeetsEstimate` | src/adapter/virtual-agv-adapter.ts:1406-1416 | An edge of length D traversed at speed s takes driving time between D/s and D/s plus one interval. |
| `Motion.DrivesAtLimit` | src/adapter/virtual-agv-adapter.ts:1066-1066 | Whenever the vehicle drives on an undisturbed traversal, its velocity is the vehicle speed or the speed limit of the edge, and exceeds neither. |
| `Motion.TraversalCostsItsLength` | src/adapter/virtual-agv-adapter.ts:1182-1208 | A completed traversal has discharged the battery by the length of the edge. |
| `Motion.OneStartTick` | src/adapter/virtual-agv-adapter.ts:1182-1208 | From the command to the arrival, all motion ticks but the first are driving steps, unless a pause, charging or a low battery holds the vehicle up. |
| `Motion.TraversalTakesEstimate` | src/adapter/virtual-agv-adapter.ts:1406-1416 | The simulated time of such a traversal, from the command to the tick that arrives, is the start tick plus between D/s and D/s plus one interval. |
| `Motion.RouteMeetsEstimate` | src/adapter/virtual-agv-adapter.ts:1406-1416 | Summed over the edges of a route, the driving time meets the estimate within one interval per edge. |
| `Motion.RouteTakesEstimate` | src/adapter/virtual-agv-adapter.ts:1406-1416 | Summed over a route that is not held up, the simulated time is the estimate plus one start tick per edge, and at most one interval per edge longer. |
| `Motion.DrivingStartsCharged` | src/adapter/virtual-agv-adapter.ts:1182-1188 | Driving starts only on a motion tick and with a charge at or above the threshold. |
| `Motion.OneLowStepPerDrop` | src/adapter/virtual-agv-adapter.ts:1203-1228 | Over every run, charging or not: each time the charge falls below the threshold the vehicle makes at most one step more, and one if it is driving with a low battery at the start. |
| `Loads.LoadsAlternate` | src/adapter/virtual-agv-adapter.ts:783-832 | In runs in which no two picks or drops are live at the same time, finished picks and drops alternate starting with a pick, and a load is present exactly when picks exceed drops by one. |
| `Loads.BuiltInsHandleProperly` | src/adapter/virtual-agv-adapter.ts:770-838 | The built-in pick and drop check for the opposite load state and handle the load when they finish. |
| `Loads.TwoPicksBreakAlternation` | src/adapter/virtual-agv-adapter.ts:588-600 | The premise is needed: two picks executed in a row both finish. |
| `Loads.TicksBreakAlternationExactly` | src/adapter/virtual-agv-adapter.ts:770-838 | From every state that keeps the load invariant and in which no pick or drop is paused or asked to end, some sequence of machine ticks breaks the alternation if and only if two picks or drops are live. |
| `TickRound.LoopIsRun` | src/adapter/virtual-agv-adapter.ts:1158-1162 | The loop over the list that is spliced while it is iterated is a run of single moves, whatever the controller commands from its callbacks. |
| `TickRound.TickIsRun` | src/adapter/virtual-agv-adapter.ts:1158-1169 | So is a whole tick: what runs of moves keep, ticks keep. |
| `TickRound.LoopAnswers` | src/adapter/virtual-agv-adapter.ts:1158-1162 | All moves of the loop are ticks of machines of the given length, and each report is directly followed by what the controller commands on it. |
| `TickRound.TickInOrder` | src/adapter/virtual-agv-adapter.ts:1158-1169 | A tick that completes is such a loop, one motion step, then, exactly if that arrives at the end of the edge, the reaction to it, and then one charging step. |
| `TickFairness.TickedInOrder` | src/adapter/virtual-agv-adapter.ts:1158-1162 | In each tick, whether or not an exception ends it, every machine is ticked at most once, in list order. |
| `TickFairness.SkippedOnlyBehindEnded` | src/adapter/virtual-agv-adapter.ts:1152-1162 | A machine is skipped in a tick that completes if and only if its immediate predecessor was ticked and ended in this tick. |
| `TickFairness.SkipsAreBounded` | src/adapter/virtual-agv-adapter.ts:604-611 | Over its life, in all runs, a machine is skipped by completed ticks at most as often as there were machines ahead of it when it was pushed. |
| `ActionTermination.UnpausedActionsEnd` | src/adapter/virtual-agv-adapter.ts:1158-1169 | Every action that is executed while no pause holds it back (stopPause, which is executed during a pause only, included) and is not asked to pause when ticked has left the list after more than D/q + k + 1 + n ticks of at least q seconds, n being the number of machines listed when it was executed. |
| `ActionTermination.TickProgresses` | src/adapter/virtual-agv-adapter.ts:1490-1546 | A tick of an unpaused machine ends it or uses up at least the tick interval, or one unit per status, of what is left of it. |
| `TickExceptions.SoundRunsThrowNothing` | src/adapter/virtual-agv-adapter.ts:1158-1169 | With definitions that have what their scope demands, no tick of any run is cut short. |
| `TickExceptions.NoopBecomesOverdue` | src/adapter/virtual-agv-adapter.ts:744-769 | The built-in `noop` on an edge that is asked to terminate while it works becomes overdue: it is to end and has no ON_TERMINATE. |
| `TickExceptions.CutShortExactly` | src/adapter/virtual-agv-adapter.ts:1158-1169 | A tick drives and charges if no exception cuts it short; otherwise it does neither. |
| `TickExceptions.OverdueStallsAgv` | src/adapter/virtual-agv-adapter.ts:1158-1169 | An overdue machine at any place of the list stays there until it is paused, unpaused or cancelled, and until then at most as many ticks complete as there are machines ahead of it. |
| `TickExceptions.SkippedOverdue` | src/adapter/virtual-agv-adapter.ts:1158-1162 | Such ticks exist: directly behind a machine that ends, an overdue one is skipped, and the tick completes. |
| `VirtualAgvAdapter.VirtualAgvAdapter.constructor` | src/adapter/virtual-agv-adapter.ts:539-556 | The attached vehicle stands, unpaused, uncharging, unloaded, with an empty list. |
| `AgvCommands.AttachedState` | src/adapter/virtual-agv-adapter.ts:539-556 | Its position and charge are the given ones, and nothing is going on. |
| `VirtualAgvAdapter.VirtualAgvAdapter.ExecuteAction` | src/adapter/virtual-agv-adapter.ts:588-612 | Reports FAILED for what is not executable and changes nothing; otherwise reports nothing yet, stops driving on demand and pushes a machine that is asked to pause if the vehicle is paused, startPause and stopPause excepted. |
| `VirtualAgvAdapter.VirtualAgvAdapter.FinishEdgeAction` | src/adapter/virtual-agv-adapter.ts:614-620 | Asks the first machine of that action and scope to terminate, and changes nothing else. |
| `VirtualAgvAdapter.VirtualAgvAdapter.CancelAction` | src/adapter/virtual-agv-adapter.ts:622-628 | Asks the first machine of that action and scope to cancel, and changes nothing else. |
| `AgvCommands.CancelAsksFirst` | src/adapter/virtual-agv-adapter.ts:622-628 | Cancelling asks the first listed machine that runs the action, and no other: its request is pending afterwards if its scope and definition admit it. |
| `AgvCommands.FinishAsksFirst` | src/adapter/virtual-agv-adapter.ts:614-620 | So does finishing an edge action. |
| `AgvCommands.UnknownIsIgnored` | src/adapter/virtual-agv-adapter.ts:614-628 | Neither changes anything if no machine runs the action. |
| `AgvCommands.ExecutesExactly` | src/adapter/virtual-agv-adapter.ts:588-612 | When each built-in action is refused, and exactly what executing it does otherwise: to the driving vehicle, to the list, and to the pause flag of the new machine. |
| `VirtualAgvAdapter.VirtualAgvAdapter.TraverseEdge` | src/adapter/virtual-agv-adapter.ts:717-719 | Sets the route and nothing else. |
| `VirtualAgvAdapter.VirtualAgvAdapter.StopTraverse` | src/adapter/virtual-agv-adapter.ts:721-726 | Drops the route, stops the vehicle, ends the pause, and leaves the machines alone. |
| `AgvCommands.TraverseStops` | src/adapter/virtual-agv-adapter.ts:721-726 | Afterwards there is no route, the vehicle stands where it was, unpaused, and its actions are as before. |
| `VirtualAgvAdapter.VirtualAgvAdapter.FindMachine` | src/adapter/virtual-agv-adapter.ts:615-615 | The loop finds the first machine that runs the action, wherever it is listed, and none exactly if none runs it. |
| `VirtualAgvAdapter.VirtualAgvAdapter.StartPause` | src/adapter/virtual-agv-adapter.ts:1312-1329 | Stops and pauses the vehicle and asks all machines but its own to pause; nothing if it is paused already. |
| `VirtualAgvAdapter.VirtualAgvAdapter.StopPause` | src/adapter/virtual-agv-adapter.ts:1331-1349 | Unpauses the vehicle and all machines but its own; nothing if it is not paused. |
| `AgvCommands.PauseHoldsAll` | src/adapter/virtual-agv-adapter.ts:1312-1329 | A pause stops the vehicle and asks all machines but its own to pause. |
| `AgvCommands.PauseEndsForAll` | src/adapter/virtual-agv-adapter.ts:1331-1349 | Its end withdraws the request from all but its own. |
| `AgvCommands.InstantActionTakesEffect` | src/adapter/virtual-agv-adapter.ts:839-908 | startPause, stopPause and initPosition end with their first tick; the vehicle then is paused and stands, is unpaused, or is at the given position. |
| `AgvCommands.EnteredStatusActs` | src/adapter/virtual-agv-adapter.ts:1598-1616 | Whatever status is entered, the vehicle undergoes what the definition links with that status. |
| `VirtualAgvAdapter.VirtualAgvAdapter.StartCharging` | src/adapter/virtual-agv-adapter.ts:1351-1362 | Stops the vehicle and starts charging. |
| `VirtualAgvAdapter.VirtualAgvAdapter.PerformEffect` | src/adapter/virtual-agv-adapter.ts:1273-1371 | The linked state of an entered status, as the transition function on values performs it. |
| `VirtualAgvAdapter.VirtualAgvAdapter.FinalizeAction` | src/adapter/virtual-agv-adapter.ts:1152-1154 | Splices exactly the ended machine out of the list. |
| `VirtualAgvAdapter.VirtualAgvAdapter.TickOne` | src/adapter/virtual-agv-adapter.ts:1598-1616 | A machine that ends is removed before its linked state takes effect; the result is the single move that the run lemmas are about. |
| `VirtualAgvAdapter.VirtualAgvAdapter.TickMachines` | src/adapter/virtual-agv-adapter.ts:1160-1162 | The for-of loop over the live list ends in the state of the recursive loop, also if an exception ends it. |
| `VirtualAgvAdapter.VirtualAgvAdapter.AdvanceTraverse` | src/adapter/virtual-agv-adapter.ts:1171-1231 | Motion of a tick in place, as proved to stay on course above; tells whether the edge has been traversed. |
| `VirtualAgvAdapter.VirtualAgvAdapter.AdvanceBatteryCharge` | src/adapter/virtual-agv-adapter.ts:1233-1269 | Charging of a tick in place, as proved to keep the charge in [0,100] above. |
| `VirtualAgvAdapter.VirtualAgvAdapter.UpdateBatteryState` | src/adapter/virtual-agv-adapter.ts:1106-1113 | Discharge by the straight-line distance, clamped at 0, with the reach that belongs to it. |
| `AgvCommands.FullBatteryReaches` | src/adapter/virtual-agv-adapter.ts:1106-1113 | A full battery lasts for exactly the configured distance, and falls linearly until then. |
| `AgvCommands.ReportsEachPercent` | src/adapter/virtual-agv-adapter.ts:1259-1264 | The rising charge is reported after the least number of ticks that raise it by one percent. |
| `VirtualAgvAdapter.VirtualAgvAdapter.OnTick` | src/adapter/virtual-agv-adapter.ts:1158-1169 | A whole tick in place is the tick on values: machines, then motion, then charging, and neither of the latter after an exception. |
| `OrderEstimate.ScheduleExists` | src/adapter/virtual-agv-adapter.ts:1394-1405 | Every list of actions has a schedule in which non-HARD actions run in parallel and HARD ones alone; its makespan is the accumulator plus the longest action after the last HARD one. |
| `OrderEstimate.AccumulatorFollowsSchedule` | src/adapter/virtual-agv-adapter.ts:1394-1405 | In every such schedule the accumulator is the end of the last HARD action, and with the longest action after it the makespan. |
| `OrderEstimate.NodeEstimateIsMakespan` | src/adapter/virtual-agv-adapter.ts:1392-1405 | The estimate of a node is that makespan if and only if no action after the last HARD one takes time; always if the list is empty or ends in a HARD action. |
| `OrderEstimate.SoftNoopIsNotEstimated` | src/adapter/virtual-agv-adapter.ts:1394-1405 | A node with one SOFT noop takes 5 seconds and is estimated to take 0. |
| `OrderEstimate.EffectiveActionDuration` | src/adapter/virtual-agv-adapter.ts:1396-1404 | The inner loop computes the accumulator. |
| `OrderEstimate.EffectiveNodesDuration` | src/adapter/virtual-agv-adapter.ts:1393-1405 | The loop over the nodes sums it up. |
| `OrderEstimate.EdgeTraversalTime` | src/adapter/virtual-agv-adapter.ts:1406-1416 | The loop over the edges sums distance / speed over the legs of the order, and fails if there is none for an edge. |
| `OrderEstimate.LegsFollowNodes` | src/adapter/virtual-agv-adapter.ts:1410-1413 | The leg of an edge starts at the position of its start node, or at the current one if that node has none, and leads to the position of its end node. |
| `OrderEstimate.EstimatedExactlyIfGiven` | src/adapter/virtual-agv-adapter.ts:1410-1413 | The estimate fails if and only if a node of an edge, or the position of an end node, is missing. |
| `OrderEstimate.FollowingIsChained` | src/adapter/virtual-agv-adapter.ts:1407-1416 | If each edge starts at the end node of the one before it, each leg starts where the one before it ends. |
| `OrderEstimate.CalculateEstimatedOrderExecutionTime` | src/adapter/virtual-agv-adapter.ts:1392-1418 | Their sum. |
| `OrderEstimate.EstimateIsWhole` | src/adapter/virtual-agv-adapter.ts:1392-1418 | If the actions of each node end with a HARD one, it is the time of the legs plus the makespans at the nodes. |
| `OrderEstimate.ChainedLegsAreRoute` | src/adapter/virtual-agv-adapter.ts:1407-1416 | For edges that follow one another the sum is the estimate of the route. |
| `OrderEstimate.OrderTravelMeetsEstimate` | src/adapter/virtual-agv-adapter.ts:1406-1416 | So for an order whose nodes are given and told apart and whose edges follow one another, the driving time of a run along them meets the estimate within one interval per edge. |
| `OrderEstimate.OrderTravelTakesEstimate` | src/adapter/virtual-agv-adapter.ts:1406-1416 | And its simulated time, if it is not held up, with one start tick per edge on top. |
| `JsString.SplitJoin` | src/common/subscription-manager.ts:205-221 | Joining levels without slashes and splitting again returns the levels. |
| `JsString.JoinSplit` | src/common/subscription-manager.ts:205-221 | Splitting and joining returns the string. |
| `MqttUtils.GetUtf8BytesCount` | src/common/mqtt-utils.ts:17-41 | The loop counts the octets of UTF-8, two for a surrogate without partner. |
| `MqttUtils.EncodeDecodes` | src/common/mqtt-utils.ts:18-19 | The encoding counted is that of section 3 of RFC 3629: each code point can be read back, whatever follows. |
| `MqttUtils.CountIsUtf8Length` | src/common/mqtt-utils.ts:17-41 | The count and the number of lone surrogates add up to the UTF-8 length. |
| `MqttUtils.CountIsUtf8LengthExactly` | src/common/mqtt-utils.ts:17-41 | The count is the UTF-8 length if and only if the string is not malformed. |
| `MqttUtils.CountConcat` | src/common/mqtt-utils.ts:17-41 | Counts of concatenated strings add up. |
| `MqttUtils.AssertMqttTopicUtf8Count` | src/common/mqtt-utils.ts:11-15 | Fails exactly above 65535. |
| `MqttUtils.AssertMqttTopicLength` | src/common/mqtt-utils.ts:5-9 | Fails exactly if the count, for well-formed topics the UTF-8 length, exceeds 65535: the shortcut for short strings lets nothing pass. |
| `TopicFormat.CompileAcceptsExactlyLegal` | src/common/subscription-manager.ts:202-214 | Compilation succeeds if and only if every placeholder occurs at most once and then as a complete level, and %topic% occurs. |
| `TopicFormat.CompileYieldsCompiled` | src/common/subscription-manager.ts:202-214 | What the closures rely on: distinct indices, levels without slashes. |
| `TopicFormat.PrintsReplaced` | src/common/subscription-manager.ts:202-222 | A topic has the levels of the format string, each of the five placeholders replaced by what it stands for. |
| `TopicFormat.MajorVersionOf` | src/common/subscription-manager.ts:203-203 | The major version is what stands before the first dot. |
| `TopicFormat.TopicOnlyCompiles` | src/common/subscription-manager.ts:202-214 | The format %topic% alone is legal, with no index for the other placeholders. |
| `TopicFormat.ParsePrinted` | src/common/subscription-manager.ts:215-230 | For every legal format, parsing a printed topic returns what was printed, and undefined for omitted placeholders. |
| `TopicFormat.ResolvePublished` | src/common/subscription-manager.ts:172-182 | A receiver with the same format resolves a published message to exactly [manufacturer, serialNumber, topic]. |
| `TopicFormat.AppliesMatches` | src/common/subscription-manager.ts:184-230 | A delivered message that is found to apply to a subscription matches its MQTT filter (section 4.7.1.3 of MQTT 3.1.1). |
| `TopicFormat.MatchesApplies` | src/common/subscription-manager.ts:184-230 | With all placeholders in the format the converse holds. |
| `TopicFormat.LookupIsMatchingExactly` | src/common/subscription-manager.ts:184-230 | Lookup and wildcard matching agree on all delivered messages if and only if the format has %manufacturer% and %serialNumber%. |
| `TopicFormat.FiltersInjectiveExactly` | src/common/subscription-manager.ts:54-56 | Different subscriptions have different filters if and only if the format has %manufacturer% and %serialNumber%. |
| `TopicFormat.TopicLengthExactly` | src/common/subscription-manager.ts:231-238 | The counted length of a topic is its UTF-8 length if and only if none of its levels is malformed. |
| `TopicFormat.AssignedIsFilled` | src/common/subscription-manager.ts:215-221 | The five assignments replace all placeholders, whatever an earlier call left in the shared array. |
| `TopicFormat.MqttTopics.constructor` | src/common/subscription-manager.ts:205-206 | The array holds the levels of the format. |
| `TopicFormat.MqttTopics.Assign` | src/common/subscription-manager.ts:216-220 | Index -1 changes no element. |
| `TopicFormat.MqttTopics.Fill` | src/common/subscription-manager.ts:216-220 | The shared array becomes the filled levels; literal levels never change. |
| `TopicFormat.MqttTopics.Construct` | src/common/subscription-manager.ts:215-222 | Prints the topic, independently of earlier calls. |
| `TopicFormat.MqttTopics.Utf8Length` | src/common/subscription-manager.ts:231-238 | The reduction over the levels yields the count of the topic that would be printed, for every format and argument. |
| `SubscriptionTrie.InsertLooksUp` | src/common/subscription-manager.ts:97-110 | Descending with creation of missing maps adds one path and changes no other. |
| `SubscriptionTrie.InsertShaped` | src/common/subscription-manager.ts:97-110 | Every leaf hangs at the path of its pattern. |
| `SubscriptionTrie.FoundCounts` | src/common/subscription-manager.ts:184-200 | A lookup visits a leaf 2^u times if each property of its pattern is undefined or equal to the path, u being the number of undefined path components, and not at all otherwise. |
| `SubscriptionTrie.LeavesAreLookups` | src/common/subscription-manager.ts:147-156 | A walk visits exactly the leaves that a lookup can reach. |
| `SubscriptionTrie.LeavesDiffer` | src/common/subscription-manager.ts:147-156 | It visits none twice. |
| `SubscriptionManager.ResolvedFindsOnce` | src/common/subscription-manager.ts:172-200 | If all three components are resolved, lookup is the simple filter: each live subscription whose properties are undefined or equal is found exactly once, nothing else is. |
| `SubscriptionManager.OnceExactlyIfResolved` | src/common/subscription-manager.ts:190-199 | A subscription that applies is found exactly once if and only if all three components are resolved. |
| `SubscriptionManager.WildcardFoundTwice` | src/common/subscription-manager.ts:190-199 | With the format %topic% and a header without manufacturer, a manager with one wildcard subscription finds it twice. |
| `SubscriptionManager.ListedAreFilters` | src/common/subscription-manager.ts:145-159 | The listed topics are the filters with at least one live subscription. |
| `SubscriptionManager.ListedOnce` | src/common/subscription-manager.ts:145-159 | With all placeholders each of them is listed once. |
| `SubscriptionManager.SubscriptionManager.constructor` | src/common/subscription-manager.ts:38-42 | No subscription is live. |
| `SubscriptionManager.SubscriptionManager.Clear` | src/common/subscription-manager.ts:75-78 | No subscription is live afterwards. |
| `SubscriptionManager.SubscriptionManager.GetMqttTopic` | src/common/subscription-manager.ts:54-56 | The filter of a pattern, undefined properties as "+". |
| `SubscriptionManager.SubscriptionManager.GetMqttTopicUtf8Length` | src/common/subscription-manager.ts:68-70 | Its length. |
| `SubscriptionManager.SubscriptionManager.Descend` | src/common/subscription-manager.ts:97-110 | Finds or creates the one leaf of a path; it holds entries exactly if the pattern is in use. |
| `SubscriptionManager.SubscriptionManager.Enter` | src/common/subscription-manager.ts:112-113 | The leaf and the id index, which alias each other, agree on the new subscription. |
| `SubscriptionManager.SubscriptionManager.Add` | src/common/subscription-manager.ts:91-119 | Fails exactly if the filter is too long, changing no subscription; otherwise exactly this one becomes live, and a subscribe packet is required exactly if no live subscription has its pattern. |
| `SubscriptionManager.SubscriptionManager.Remove` | src/common/subscription-manager.ts:128-138 | Undefined exactly if the id is not live; otherwise exactly this one ends, and an unsubscribe packet is required exactly if its pattern is out of use. |
| `SubscriptionManager.SubscriptionManager.FindInternal` | src/common/subscription-manager.ts:184-200 | The generator yields the entries of the visited leaves in order. |
| `SubscriptionManager.SubscriptionManager.Find` | src/common/subscription-manager.ts:172-182 | After any run of add, remove and clear, the nested-map lookup yields each (id, handler) as often as the flat collection of live subscriptions says. |
| `SubscriptionManager.SubscriptionManager.Walk` | src/common/subscription-manager.ts:147-156 | The recursive walk pushes the filters of the leaves that hold entries. |
| `SubscriptionManager.SubscriptionManager.GetAll` | src/common/subscription-manager.ts:145-159 | One filter for each pattern in use. |
| `BrokerSync.RunInSync` | src/common/client.ts:528-565 | With all placeholders in the format, over every run of start, stop, subscribe, unsubscribe, connection loss and reconnect, a connected client's broker holds exactly the filters of the live subscriptions. |
| `BrokerSync.InSyncExactly` | src/common/client.ts:528-565 | This holds in all runs if and only if the format has %manufacturer% and %serialNumber%, or is so long that nothing can be subscribed. |
| `BrokerSync.SharedFilterLost` | src/common/client.ts:535-550 | Otherwise four steps lose a live subscription: start, subscribe twice with one filter, unsubscribe one. |
| `BrokerSync.AcceptableIsValid` | src/common/client.ts:906-927 | Names that pass validation are single topic levels and no wildcard. |
| `BrokerSync.NamesAreValid` | src/common/client.ts:906-927 | Exactly which names of topics, manufacturers and serial numbers pass, character by character, and that what is not given passes for subscriptions only. |
| `SessionHistory.SessionExactly` | src/common/client.ts:474-510 | After any run a client is started if the last word was to start it, and connected if since then, or since a reconnect, the connection has not been lost. |
| `SessionHistory.LiveIsGranted` | src/common/client.ts:528-565 | Every live subscription has been granted, under its id, and has not been ended since, by itself or by a stop. |
| `SessionHistory.GrantedIsLive` | src/common/client.ts:823-872 | Every subscription that has been granted and not been ended since is live, with the path and handler that were given. |
| `BrokerSync.PublishedMatches` | src/common/client.ts:712-735 | In every format, a published message matches the filter of every subscription that applies to it. |
| `Delivery.PublishedReachesExactly` | src/common/client.ts:712-735 | In every format, a published message reaches the filter of a subscription that applies to it, by sections 4.7.1.3 and 4.7.2 of MQTT 3.1.1, if and only if not all of this holds: the format begins with %manufacturer%, the subscription leaves the manufacturer open, and the manufacturer begins with "$". |
| `Delivery.DeliveredExactlyIfReached` | src/common/client.ts:1156-1163 | With all placeholders, after any run of a connected client, its broker delivers a published message if and only if some live subscription applies and is reached. |
| `Delivery.PublishAndDispatch` | src/common/client.ts:1257-1285 | A client publishes, the broker delivers, the same or another client, after any run of its own, dispatches. In every format, each delivered copy invokes the handler of each live subscription that applies once, and no other; with all placeholders in the format, a message is delivered exactly if one of these subscriptions is reached. |
| `Delivery.NobodyLeftOut` | src/common/client.ts:906-919 | So with all placeholders nobody is left out, unless the format begins with %manufacturer% and the manufacturer with "$". |
| `Delivery.ManufacturerFirstCompiles` | src/common/subscription-manager.ts:202-214 | The format %manufacturer%/%topic% is legal. |
| `Delivery.HiddenFromWildcard` | src/common/client.ts:785-785 | With it, what manufacturer "$" publishes is not delivered to a client that has subscribed to this topic of all AGVs. |
| `Client.HeaderIdsWrapAround` | src/common/client.ts:1377-1382 | The n-th message on a topic has header id n modulo 2^32. |
| `Client.PublishedFindsOnce` | src/common/client.ts:1257-1276 | From publisher to handlers: a published message invokes exactly the handlers of the live subscriptions that apply to its topic and subject, once each, whatever placeholders the format has. |
| `Client.Client.constructor` | src/common/client.ts:417-433 | A new client is neither started nor connected. |
| `Client.Client.OnConnect` | src/common/client.ts:1156-1163 | On a clean session, resubscribing what is listed makes the broker hold the filters of the live subscriptions. |
| `Client.Client.Start` | src/common/client.ts:474-482 | The step of the protocol; nothing if started. |
| `Client.Client.Stop` | src/common/client.ts:500-510 | Ends the connection and all subscriptions and keeps the header ids. |
| `Client.Client.Reset` | src/common/client.ts:1082-1086 | No subscription is live afterwards. |
| `Client.Client.LoseConnection` | src/common/client.ts:1187-1190 | The broker forgets the session; the subscriptions stay live. |
| `Client.Client.Reconnect` | src/common/client.ts:1156-1163 | A started client that is offline resubscribes. |
| `Client.Client.ValidateSubscription` | src/common/client.ts:823-834 | Which of the first three errors occurs, in the order of the checks. |
| `Client.Client.AddSubscription` | src/common/client.ts:836-872 | After the checks: fails exactly if the filter is too long; otherwise the step of the protocol. |
| `Client.Client.SubscribeTopic` | src/common/client.ts:823-872 | Which of the four errors occurs when, in the order of the checks; otherwise the step of the protocol. |
| `Client.Client.Unsubscribe` | src/common/client.ts:528-565 | Rejects if and only if the client is not started or the subscription is not live (its documentation says the latter is ignored); otherwise the step of the protocol. |
| `Client.UnsubscribeTwice` | src/common/client.ts:528-536 | A started client subscribes and unsubscribes; unsubscribing once more is rejected. |
| `Client.Client.TakeHeaderId` | src/common/client.ts:1377-1382 | The id handed out is the number of ids used up on the topic before, modulo 2^32. |
| `Client.Client.PublishTopic` | src/common/client.ts:712-735 | Which of the five errors occurs when, in the order of the checks: not started, topic, subject, object validation, length; otherwise the message, with the subject in its header; the header id is used up by the last two errors as well. |
| `Client.Client.DispatchMessage` | src/common/client.ts:1257-1285 | The handlers invoked are those that lookup finds, in order; none for a message that fails validation. |
| `JsMap.SetGets` | src/common/agvid-map.ts:48-55 | Setting a key of an insertion-ordered map changes the value of that key only. |
| `JsMap.DeleteGets` | src/common/agvid-map.ts:62-71 | Deleting a key removes that key only. |
| `AgvIdMap.PutRefinesFlat` | src/common/agvid-map.ts:48-55 | Setting in the nested map is setting in the flat map keyed by (manufacturer, serialNumber). |
| `AgvIdMap.RemoveRefinesFlat` | src/common/agvid-map.ts:62-71 | Deleting is deleting in the flat map, and no empty inner map survives. |
| `AgvIdMap.EntriesAreLookups` | src/common/agvid-map.ts:80-86 | The iteration yields a pair if and only if a lookup returns it. |
| `AgvIdMap.EntriesDistinct` | src/common/agvid-map.ts:80-86 | It yields no identifier twice. |
| `AgvIdMap.InsertionOrderExactly` | src/common/agvid-map.ts:80-86 | A new identifier is iterated last if and only if its manufacturer is new or the last one. |
| `AgvIdMap.SetsIterateExactly` | src/common/agvid-map.ts:80-86 | After any run of `set`s alone, iteration is in the order of first insertion if and only if the identifiers of each manufacturer were inserted consecutively. |
| `AgvIdMap.IterationOrderExactly` | src/common/agvid-map.ts:80-86 | Over every run of `set`, `delete` and `clear`, iteration is in insertion order in all states, which the documentation promises, if and only if each `set` of a new identifier finds its manufacturer new or last. |
| `AgvIdMap.RemoveKeepsOrder` | src/common/agvid-map.ts:62-71 | Deleting takes one identifier out of the iteration and keeps the order of the others. |
| `AgvIdMap.KnownIdKeepsPlace` | src/common/agvid-map.ts:48-55 | Setting a known identifier keeps the order. |
| `AgvIdMap.IterationIsConsecutive` | src/common/agvid-map.ts:80-86 | The iteration is grouped by manufacturer. |
| `AgvIdMap.OutOfInsertionOrder` | src/common/agvid-map.ts:80-86 | Set (A, 1), (B, 1) and (A, 2): (A, 2) is iterated before (B, 1). |
| `AgvIdMap.AgvIdMap.Size` | src/common/agvid-map.ts:22-26 | The sum over the inner maps is the size of the flat map. |
| `AgvIdMap.AgvIdMap.Get` | src/common/agvid-map.ts:34-40 | The lookup in the flat map. |
| `AgvIdMap.AgvIdMap.Set` | src/common/agvid-map.ts:48-55 | The update of the flat map. |
| `AgvIdMap.AgvIdMap.Delete` | src/common/agvid-map.ts:62-71 | The removal from the flat map. |
| `AgvIdMap.AgvIdMap.Clear` | src/common/agvid-map.ts:76-78 | The empty map. |
| `AgvIdMap.AgvIdMap.Iterate` | src/common/agvid-map.ts:80-86 | The nested loops visit each pair of the flat map once. |
| `MasterControlClient.HandlersSeeTrackedStates` | src/client/master-control-client.ts:144-203 | After any run, what a registered handler has last seen of an AGV is what `getTrackedState` returns, whenever the handler was registered. |
| `MasterControlClient.RunKeeps` | src/client/master-control-client.ts:144-203 | Registration, connection messages and resets keep this, and nobody else is called. |
| `MasterControlClient.TracksLastMessages` | src/client/master-control-client.ts:167-203 | After any run, `getTrackedState` returns the connection of the last message of the AGV since the last reset, or undefined; the handlers are those registered since, in order. |
| `MasterControlClient.MessageIsTold` | src/client/master-control-client.ts:195-203 | Each message calls each of these handlers once, in the order of their registration, and nobody else. |
| `MasterControlClient.RegistrationIsReplayed` | src/client/master-control-client.ts:144-158 | A new handler is told the last message of each known AGV once, and nobody else is told anything. |
| `MasterControlClient.ResetForgets` | src/client/master-control-client.ts:186-190 | A reset forgets states and handlers. |
| `MasterControlClient.MasterControlClient.Invoke` | src/client/master-control-client.ts:148-153 | The chain of closures calls all handlers once each in the order of registration. |
| `MasterControlClient.MasterControlClient.TrackAgvs` | src/client/master-control-client.ts:144-158 | Chains the handler and replays the known states to it alone. |
| `MasterControlClient.MasterControlClient.ReplayTo` | src/client/master-control-client.ts:155-157 | The loop dispatches every known state once. |
| `MasterControlClient.MasterControlClient.OnConnection` | src/client/master-control-client.ts:195-203 | Stores the state and tells all handlers, as told from the events alone by the lemmas that follow. |
| `MasterControlClient.MasterControlClient.GetTrackedState` | src/client/master-control-client.ts:167-170 | The state that every registered handler has last seen. |
| `MasterControlClient.MasterControlClient.GetTrackedStates` | src/client/master-control-client.ts:178-184 | Every tracked AGV once, with its state. |
| `MasterControlClient.MasterControlClient.Reset` | src/client/master-control-client.ts:186-190 | Forgets states and handlers. |
| `AgvSafety.TickMachineSafe` | src/adapter/virtual-agv-adapter.ts:1323-1327 | The tick of one machine keeps safety: a machine that starts the pause has left the list or asks all others to pause. |
| `AgvSafety.ObeySafe` | src/adapter/virtual-agv-adapter.ts:588-628 | So does every command of the controller. |
| `AgvSafety.AdvanceTraverseSafe` | src/adapter/virtual-agv-adapter.ts:1171-1231 | So does motion. |
| `AgvSafety.AdvanceChargeSafe` | src/adapter/virtual-agv-adapter.ts:1233-1269 | So does charging. |
| `PauseSafety.MoveMutual` | src/adapter/virtual-agv-adapter.ts:1312-1349 | Every single move keeps the pause mutual, `stopTraverse` exactly under the condition above. |
| `Charging.ChargeIsLinear` | src/adapter/virtual-agv-adapter.ts:1238-1268 | On a charging spot the charge is that at the start plus rate times time, up to 100, and charging ends exactly when 100 is reached, for any sequence of ticks. |
| `Charging.EmptyBatteryFillsInTime` | src/adapter/virtual-agv-adapter.ts:1238-1243 | An empty battery is full exactly once it has been charged for the configured number of hours. |
| `Motion.LowStepStops` | src/adapter/virtual-agv-adapter.ts:1204-1214 | After a move with a charge below the threshold the vehicle drives only if it did before and made no step; without charging no move raises the charge. |
| `Motion.OtherMovesKeepPlace` | src/adapter/virtual-agv-adapter.ts:1273-1371 | What is neither motion nor initPosition nor a command about the route keeps the place, and can at most stop the vehicle. |
| `Loads.RunKeepsLoad` | src/adapter/virtual-agv-adapter.ts:1273-1292 | Every move of such runs keeps the load and the number of finished picks and drops in step. |
| `TickFairness.TickMachineShape` | src/adapter/virtual-agv-adapter.ts:1598-1605 | A tick removes exactly the ticked machine if it ended, and otherwise keeps the list. |
| `TickFairness.ObeyAppends` | src/adapter/virtual-agv-adapter.ts:604-611 | A command appends at most one machine, at the end of the list. |
| `ActionTermination.OtherTickLeavesAlone` | src/adapter/virtual-agv-adapter.ts:1158-1162 | The tick of another machine changes neither state nor membership of a machine. |
| `ActionTiming.WorkStep` | src/adapter/virtual-agv-adapter.ts:1535-1545 | A tick in a status adds its interval to the time of that status, and leaves the status once the duration is reached. |
| `BrokerSync.SubscribedInSync` | src/common/client.ts:838-871 | In every format, subscribing keeps the broker in sync. |
| `BrokerSync.UnsubscribedInSync` | src/common/client.ts:535-563 | With all placeholders, so does unsubscribing. |
| `BrokerSync.StepInSync` | src/common/client.ts:528-565 | With all placeholders, so does every step. |
| `BrokerSync.ShortestFilter` | src/common/client.ts:836-838 | No subscription has a shorter filter than the one to a one-letter topic of any AGV. |
| `BrokerSync.NothingSubscribable` | src/common/client.ts:836-838 | If that one is too long, no subscription ever becomes live. |
| `MasterControlClient.TrackKeeps` | src/client/master-control-client.ts:144-158 | Registering a handler keeps all handlers up to date. |
| `MasterControlClient.MessageKeeps` | src/client/master-control-client.ts:195-203 | So does a connection message. |
| `VirtualAgvAdapter.VirtualAgvAdapter.SetPause` | src/adapter/virtual-agv-adapter.ts:1323-1327 | The loop asks all machines but the given one. |
| `VirtualAgvAdapter.VirtualAgvAdapter.PushMachine` | src/adapter/virtual-agv-adapter.ts:604-611 | Appends one new machine. |
| `VirtualAgvAdapter.VirtualAgvAdapter.StopDriving` | src/adapter/virtual-agv-adapter.ts:1013-1020 | The vehicle stands with zero velocity. |
| `VirtualAgvAdapter.VirtualAgvAdapter.StartDriving` | src/adapter/virtual-agv-adapter.ts:998-1005 | The vehicle drives with the given velocity. |
| `VirtualAgvAdapter.VirtualAgvAdapter.TickAlone` | src/adapter/virtual-agv-adapter.ts:1490-1546 | The tick of the machine at one index changes that entry of the list only, or removes it. |
| `VirtualAgvAdapter.VirtualAgvAdapter.TickAndReact` | src/adapter/virtual-agv-adapter.ts:1160-1162 | One round of the loop, with what the controller commands on a report. |
| `SubscriptionManager.SubscriptionManager.Grow` | src/common/subscription-manager.ts:103-107 | Creates the missing leaf; it holds nothing. |
| `SubscriptionManager.SubscriptionManager.Place` | src/common/subscription-manager.ts:97-113 | The new subscription is live, and its leaf has one entry exactly if its pattern was not in use. |
| `SubscriptionManager.SubscriptionManager.Register` | src/common/subscription-manager.ts:96-118 | The result tells whether the filter has to be subscribed. |
| `SubscriptionManager.SubscriptionManager.Name` | src/common/subscription-manager.ts:115-115 | Every leaf knows the filter of its pattern. |
| `SubscriptionManager.SubscriptionManager.FindBelow` | src/common/subscription-manager.ts:190-199 | The entries below one key. |
| `SubscriptionManager.SubscriptionManager.WalkBelow` | src/common/subscription-manager.ts:155-155 | The walks of all children, in order. |
| `SubscriptionManager.EnterHolds` | src/common/subscription-manager.ts:112-113 | The id index and the leaves stay in step with the live subscriptions when one is added. |
| `SubscriptionManager.LeaveHolds` | src/common/subscription-manager.ts:129-133 | And when one is removed. |
| `TopicFormat.FullInjective` | src/common/subscription-manager.ts:215-222 | With all placeholders, equal filters come from equal patterns. |
| `TopicFormat.JoinWellFormed` | src/common/subscription-manager.ts:221-221 | A joined topic is malformed exactly if one of its levels is. |

## Left out

- `AgvController` and `MasterController`: the controller is the environment that calls the adapter and reacts in its callbacks; of it only the list of published low-battery errors is modelled, which it changes on behalf of the adapter and when it accepts an order; when it accepts one is left open.
- Generated validators, MQTT transport, promises, timers, debug output, id generation, TLS and WebSocket options.
- Orientation, map id, last node id and load contents of the vehicle: only position, velocity, battery and the presence of a load are modelled.
- Speed and time distributions of the adapter options, IEEE rounding, a target speed of zero (whose estimate is infinite), and a clock that runs backwards.
- Definitions whose `next` is PAUSED: the declared types allow them, but no built-in definition is one. Apart from ActionHistory.LosesStatusExactly, the results about histories, timing, termination and exceptions are about definitions without (`NeverNamesPaused`).
- Action types without definition, and subclasses that call `startDriving` or `stopDriving` themselves.
- AgvSafety.RunsAreSafe: its pause clause is stated for definitions that start a pause only from actions that a pause does not hold back (`Conventional`), as all built-in ones do, because otherwise the machine that starts the pause is live and not asked to pause.
- Linked states of ON_CANCEL and ON_TERMINATE: no built-in definition has one.
- The lazy evaluation of the generator in `find`: handlers that subscribe or unsubscribe while a message is dispatched.
- Intermediate maps of the subscription index are values; the leaves, which two indexes alias, are objects. In-place growth of intermediate maps along the path is therefore one recursive insertion.
- Failing (un)subscribe packets, publications queued while offline, objects that cannot be turned into JSON, and last will messages.
- Section 4.7.1.2 ("#") of MQTT 3.1.1: a filter has a multi-level wildcard only if a literal level of the format is "#", and then nothing can be published.
- Section 3.3.5 of MQTT 3.1.1: how many copies the broker delivers when several filters of one client match.
- The registry of extension topics and the direction rules of client roles: one boolean tells whether a topic is permitted.
