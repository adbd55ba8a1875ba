# Expert Kit control and routing model

Expert Kit serves mixture-of-experts models. A Controller keeps Worker records and publishes which
Worker processes may compute which experts; Frontends replicate those routes, split every routed layer
over the Workers and sum the results; Workers load weights, admit batches, and drain experts that move
away. This project models that protocol in Dafny and proves what it is for: routes that agree with
the records they come from, clients that end with the current routes, layers that are summed exactly
once, and weights that are removed only when nobody uses them.

`dafny verify dfyconfig.toml` checks everything. The files, from the bottom up:

- `Ordering.dfy`, `Parts.dfy`, `Topology.dfy`: sorted sets, weighted sums, 64-entry parts, route maps.
- `ControllerState.dfy`: every Controller step as a function from memory and store to memory, store and
  reply. A durable write may fail before or after it took effect (`StoreReply`).
- `ControllerRoutes.dfy`, `ControllerLog.dfy`, `ControllerDrains.dfy`, `ControllerInvariant.dfy`,
  `ControllerRuns.dfy`, `ControllerGuarantees.dfy`, `ControllerSessions.dfy`: the invariant, every step and
  every run with failed writes and restarts. `ControllerEffects.dfy`: what each call leaves in the records,
  routes and store and when it gives which reply, said without the step functions.
  `ControllerRuntime.dfy`: the store and runtime objects, with the source's loops, updates in place and
  roll-backs, proved equal to those functions.
- `TopologyAssembler.dfy`, `Replication.dfy`, `ClientSafety.dfy`: the Frontend's assembly of topology
  messages, the proof that it meets the Controller's log, and what it accepts from any sender.
- `RoutedBatch.dfy`, `Selection.dfy`, `ExpertLists.dfy`, `Grouping.dfy`, `Dispatch.dfy`,
  `RoutedLayer.dfy`: one routed layer with retry. The two tensors of expert ids and routing weights are
  one matrix of slots. `f(t, e)` is one hidden coordinate of expert `e` on token `t`; it is arbitrary,
  and the same for every replica of `e`.
- `QueueState.dfy`, `QueueInvariant.dfy`, `QueueEffects.dfy`, `ReceiverQueue.dfy`, `WeightSession.dfy`,
  `SessionEffects.dfy`: admission, drain gates and the interleaving of target application, drain tasks and
  queue work on a Worker.
- `TargetAssembler.dfy`, `StateReporter.dfy`, `DramCache.dfy`, `SafeTensors.dfy`: multipart target lists,
  coalesced state reports, the weight cache, and the weight-file range check.
- `Rebalance.dfy`, `Recovery.dfy`: the placement planners.
- `WorkerEnvironment.dfy`, `DrainCutover.dfy`: Controller, Worker session and Frontend together.

Results that a reader would not get from one body:

- In every run the incrementally kept route map is the one recomputed from all records, even after
  steps whose durable write failed (`ControllerRuns.ReachableRoutesExact`), and a client that holds any
  view ever issued, also before a restart, ends one `topology_messages` call with exactly those routes
  (`Replication.ReachableReplicationExact`).
- Whatever replicas are chosen, tasks interleave and Workers fail, a returned layer is the plain weighted
  sum (`RoutedLayer.ExecuteRoutedLayer`).
- After a Worker refuses a batch because an expert or the whole Worker drains, the Frontend's retry does
  not send it back to that process: the Controller's log, the Worker's gates, the refusal's version and
  the Frontend's version test fit together (`DrainCutover.RetryLeavesDrained`).
- In every interleaving, weights under removal are used by no admitted batch
  (`WeightSession.RemovalIsSafe`). The environment this asks for (`Allowed`) is what a Controller run
  provides, with failed writes and restarts: a generation names one target list
  (`WorkerEnvironment.NamedOnce`), the assembler gives back that list and never goes back, and a drain
  names none of its targets (`WorkerEnvironment.DrivenIsAllowed`, `ControllerRemovalIsSafe`). What remains
  assumed is that a drain arrives after the targets of its generation.
- A Controller knows an expert as the Worker's weight manager shows it, once the change is not pending,
  with one exception, which is stated exactly: the manager forgets the state of an expert it loads again
  and does not report that (`StateReporter.ManagerIsKnown`, `ForgottenStaysKnown`).
- Recovery does not keep every node within its capacity: a node whose occupancy cannot be read counts as
  empty and may be filled a second time (`Recovery.UnreadableOverfills`). With experts for all the room
  the planner sees, this happens exactly at unreadable nodes that hold something and can hold something.
- Whatever messages arrive and in whatever order, a view a Frontend installs is sound, and its version and
  routes never go back (`ClientSafety.EveryViewIsSound`); a list of routes is accepted exactly when it is
  well formed (`ClientSafety.DecodeExact`).
- An expert that becomes a target again and is ready is served again (`SessionEffects.ReopenedIsServed`), and
  a drain that nothing overtakes and nobody uses gets through (`SessionEffects.DrainGetsThrough`).
- The SafeTensors scan does not accept every list of ranges that gives each byte to exactly one tensor:
  an empty tensor strictly inside another is refused (`SafeTensors.EmptyInsideIsRejected`). That is the
  only exception (`SafeTensors.ScanIsExact`).

## Model

| member | source | states |
|---|---|---|
| `ControllerRoutes.RouteIndexIsRecomputed` | ek-computation/src/controller/runtime_state.rs:1231-1314 | when the index is exact key by key, the kept route map equals the map recomputed from all worker records, with no empty list |
| `ControllerRoutes.PublishedSound` | ek-computation/src/controller/runtime_state.rs:1241-1281 | a publication lists exactly the affected experts whose replicas differ, each once, with the replicas recomputed from the records |
| `ControllerRoutes.PublishMakesExact` | ek-computation/src/controller/runtime_state.rs:1231-1314 | if only the affected experts may be out of date, a successful publication makes every instance exact |
| `ControllerLog.PublishKeepsLog` | ek-computation/src/controller/runtime_state.rs:1283-1309 | a publication adds at most one version, fresh and durable, keeps every older version's meaning, and leaves a bounded chain of revisions that each lead from one issued route map to the next |
| `ControllerDrains.FreshDrainOk` | ek-computation/src/controller/runtime_state.rs:723-756 | a drain issued at the current version names experts that no route map from that version on sends to its process |
| `ControllerDrains.DrainsSurvivePublish` | ek-computation/src/controller/runtime_state.rs:1243-1259 | a later publication does not route a drained expert or a drained Worker again |
| `ControllerInvariant.RegisterKeepsInv` | ek-computation/src/controller/runtime_state.rs:292-399 | registration, refused, repeated, first or replacing an older start, keeps routes, log and drains |
| `ControllerInvariant.OpenHeartbeatKeepsInv` | ek-computation/src/controller/runtime_state.rs:401-417 | a new lease keeps the invariant |
| `ControllerInvariant.HeartbeatKeepsInv` | ek-computation/src/controller/runtime_state.rs:419-493 | a heartbeat, also one whose publication fails and is rolled back, keeps the invariant |
| `ControllerInvariant.CloseHeartbeatKeepsInv` | ek-computation/src/controller/runtime_state.rs:495-532 | ending liveness keeps the invariant |
| `ControllerInvariant.SetTargetsKeepsInv` | ek-computation/src/controller/runtime_state.rs:582-766 | a target change, with a failed save, a failed publication or none, keeps routes, log and drains |
| `ControllerInvariant.StateReportKeepsInv` | ek-computation/src/controller/runtime_state.rs:768-845 | full and partial state reports keep the invariant |
| `ControllerInvariant.DrainAuthorizationsKeepsInv` | ek-computation/src/controller/runtime_state.rs:847-927 | creating a whole-Worker drain keeps the invariant |
| `ControllerInvariant.CompleteDrainKeepsInv` | ek-computation/src/controller/runtime_state.rs:929-978 | completing a drain keeps the invariant |
| `ControllerRuns.RestartKeepsOk` | ek-computation/src/controller/runtime_state.rs:225-286 | a restart, with any write failing at any instance, keeps the store ahead of every issued version and starts in a valid state |
| `ControllerRuns.StepKeepsOk` | ek-computation/src/controller/runtime_state.rs:215-978 | every step keeps the invariant and every issued version's routes |
| `ControllerRuns.RunKeepsOk` | ek-computation/src/controller/runtime_state.rs:215-978 | over any run no version ever names two route maps |
| `ControllerRuns.ReachableRoutesExact` | ek-computation/src/controller/runtime_state.rs:1231-1314 | in every reachable state the route map of each instance is the recomputed one and stores no empty replica list |
| `ControllerRuns.VersionsIncrease` | ek-computation/src/controller/runtime_state.rs:1283-1309 | versions never go back over any run, and an unchanged version means unchanged routes |
| `ControllerRuns.RestartIsNewer` | ek-computation/src/controller/runtime_state.rs:236-250 | after a restart every version issued before is in the past |
| `ControllerRuns.ReachableDrains` | ek-computation/src/controller/runtime_state.rs:610-756 | in every reachable state a record has at most one unfinished expert drain; it carries the current generation, is disjoint from the targets, and no issued route map from its minimum version on sends its experts to that process; after a whole-Worker drain none routes to the process at all |
| `ControllerGuarantees.ShutdownKeepsCoverage` | ek-computation/src/controller/runtime_state.rs:854-916 | creating a whole-Worker drain leaves the set of routed experts unchanged, and each has a replica on another Worker |
| `ControllerGuarantees.ReachableShutdownKeepsCoverage` | ek-computation/src/controller/runtime_state.rs:1172-1188 | the same after any run, so also when several Workers shut down one after another: the routed experts stay, each with a replica on another Worker |
| `ControllerGuarantees.RegisterHandsFloor` | ek-computation/src/controller/runtime_state.rs:292-399 | a successful registration hands out the generation it inherits and changes no other record or placement |
| `ControllerGuarantees.PlaceTargetsMoves` | ek-computation/src/controller/runtime_state.rs:676-766 | a target change takes effect as a whole, or leaves memory as it was |
| `ControllerGuarantees.OtherCallsAreSame` | ek-computation/src/controller/runtime_state.rs:401-532 | heartbeats, reports and drains move no placement and no generation |
| `ControllerGuarantees.GenerationsNeverDecrease` | ek-computation/src/controller/runtime_state.rs:654-720 | for a Worker registering for one instance, the generation it holds never decreases over failed writes and restarts, and the same generation means the same targets |
| `ControllerGuarantees.PlacementsInOrder` | ek-computation/src/controller/runtime_state.rs:225-258 | the same between any two moments of a run from the first start on |
| `ControllerGuarantees.RepliesNeverDecrease` | ek-computation/src/controller/runtime_state.rs:388-399 | the generations in the registration and target replies to one Worker never decrease, whatever fails or restarts between them |
| `ControllerSessions.CallForward` | ek-computation/src/controller/runtime_state.rs:292-978 | every call, accepted, refused or rolled back, moves what is recorded about a process start forward: heartbeat and report numbers and generations do not go back, shutdown and withdrawal are final, drains are only added and completed |
| `ControllerSessions.RunForward` | ek-computation/src/controller/runtime_state.rs:419-493 | the same over any run without a restart or a takeover of that Worker |
| `ControllerSessions.ReachableHeardFrom` | ek-computation/src/controller/runtime_state.rs:439-477 | in every reachable state a live Worker has sent a heartbeat |
| `ControllerEffects.RoutedExactly` | ek-computation/src/controller/runtime_state.rs:1243-1259 | a Worker is routed for exactly the experts of its instance that are targets and reported ready while it is live and included, under its current start |
| `ControllerEffects.RegisterDoes` | ek-computation/src/controller/runtime_state.rs:292-399 | a new start replaces the record by one without history that takes over the placement of the replaced start or the stored one of the same instance; a repeated registration changes nothing; exact replies |
| `ControllerEffects.NewStartIsNotRouted` | ek-computation/src/controller/runtime_state.rs:367-386 | no route names a new start until it is heard |
| `ControllerEffects.OpenHeartbeatDoes` | ek-computation/src/controller/runtime_state.rs:401-417 | the new lease is the next number, and only the lease of that record changes |
| `ControllerEffects.HeartbeatAnswers` | ek-computation/src/controller/runtime_state.rs:437-470 | stale stream, rolled-back number, repeated and contradicting heartbeat, leaving shutdown: each has its reply; any other is applied or its durable write failed |
| `ControllerEffects.HeartbeatDoes` | ek-computation/src/controller/runtime_state.rs:466-493 | an applied heartbeat makes the Worker live with that number and run state and changes nothing else; any other leaves memory alone |
| `ControllerEffects.HeartbeatRoutes` | ek-computation/src/controller/runtime_state.rs:478-493 | after a heartbeat the Worker is routed for exactly what it may serve |
| `ControllerEffects.CloseHeartbeatDoes` | ek-computation/src/controller/runtime_state.rs:495-532 | closing the newest open stream leaves the Worker not live, its lease closed and no route naming it, and nothing else changed; any other call leaves memory alone |
| `ControllerEffects.OldStreamIsStale` | ek-computation/src/controller/runtime_state.rs:440-442 | once a stream is opened, every earlier one is refused and cannot end liveness |
| `ControllerEffects.StateReportDoes` | ek-computation/src/controller/runtime_state.rs:768-845 | after an applied full report the record holds exactly what the report says, after an update also what it did not name; the last entry of an expert counts; routes follow; exact replies |
| `ControllerEffects.FullReportWithdraws` | ek-computation/src/controller/runtime_state.rs:814-827 | after a full report no route sends the Worker an expert that the report did not list as ready |
| `ControllerEffects.SetTargetsDoes` | ek-computation/src/controller/runtime_state.rs:582-766 | an accepted change puts exactly the asked targets in effect under the next generation and stores them; an expert is then in an unfinished expert drain exactly when it is ready, no new target, and was a target or was being drained; that drain carries the new generation and the current version |
| `ControllerEffects.NormalizedTargets` | ek-computation/src/controller/runtime_state.rs:587-588 | no entry of a target list is lost, and the last one of an expert counts |
| `ControllerEffects.DrainAuthorizationsDoes` | ek-computation/src/controller/runtime_state.rs:847-927 | the answer is exactly the unfinished drains in order; a whole-Worker drain is created exactly when the Worker shuts down, has none yet and every ready expert has another process, and then no route names the Worker |
| `ControllerEffects.CompleteDrainDoes` | ek-computation/src/controller/runtime_state.rs:929-978 | completion finishes the drain with that number and no other; a finished one is left alone, an unknown one refused; a whole-Worker drain ends liveness |
| `ControllerEffects.RestartDoes` | ek-computation/src/controller/runtime_state.rs:225-286 | a restart comes up exactly when every stored instance's version can be written; each starts one version further without routes, and nothing of the old process is left but the stored placements |
| `ControllerEffects.ReachableNumbers` | ek-computation/src/controller/runtime_state.rs:409-411 | within 2^64 calls the drains of one record have different numbers, and no lease or drain number is used that was not handed out |
| `ControllerEffects.AdvanceDoes` | ek-computation/src/controller/state_store.rs:121-134 | the version given out is one past the stored and the current one; a failed write gives out none and may have reached the store |
| `ControllerEffects.SaveDoes` | ek-computation/src/controller/state_store.rs:95-119 | a saved placement replaces that Worker's, with the same ways to fail |
| `ControllerRuntime.ControllerStateStore.Save` | ek-computation/src/controller/state_store.rs:95-119 | the store keeps the saved placement; a failed write may or may not have taken effect |
| `ControllerRuntime.ControllerStateStore.AdvanceTopologyVersion` | ek-computation/src/controller/state_store.rs:121-134 | the new version is one past the larger of the stored and the current one, or the write fails |
| `ControllerRuntime.ControllerRuntimeState.RestoreFrom` | ek-computation/src/controller/runtime_state.rs:225-286 | the start loop advances the known instances in any order and gives a valid state whose issued versions extend the old ones |
| `ControllerRuntime.ControllerRuntimeState.ComputeChanges` | ek-computation/src/controller/runtime_state.rs:1241-1281 | the loop over affected experts computes the published changes |
| `ControllerRuntime.ControllerRuntimeState.InstallTopology` | ek-computation/src/controller/runtime_state.rs:1291-1312 | routes are edited entry by entry and the oldest revisions are dropped beyond the limit |
| `ControllerRuntime.ControllerRuntimeState.PublishRoutes` | ek-computation/src/controller/runtime_state.rs:1231-1314 | updates in place are the specified publication |
| `ControllerRuntime.ControllerRuntimeState.PutAndPublish` | ek-computation/src/controller/runtime_state.rs:367-386 | a failed publication leaves memory exactly as before |
| `ControllerRuntime.ControllerRuntimeState.RegisterWorker` | ek-computation/src/controller/runtime_state.rs:292-399 | the object stays valid and takes the specified registration step |
| `ControllerRuntime.ControllerRuntimeState.OpenHeartbeatStream` | ek-computation/src/controller/runtime_state.rs:401-417 | as above, for a new lease |
| `ControllerRuntime.ControllerRuntimeState.ReceiveHeartbeat` | ek-computation/src/controller/runtime_state.rs:419-493 | as above, for a heartbeat |
| `ControllerRuntime.ControllerRuntimeState.CloseHeartbeatStream` | ek-computation/src/controller/runtime_state.rs:495-532 | as above, for the end of a stream, whose effect is `CloseHeartbeatDoes` |
| `ControllerRuntime.ControllerRuntimeState.ReplaceTargets` | ek-computation/src/controller/runtime_state.rs:582-766 | as above, for a target change with its save, publication and new drain, whose effect is `SetTargetsDoes` |
| `ControllerRuntime.ControllerRuntimeState.MoveTargets` | ek-computation/src/controller/runtime_state.rs:684-721 | a failed publication restores the record and the placement cache |
| `ControllerRuntime.ControllerRuntimeState.ReceiveStateReport` | ek-computation/src/controller/runtime_state.rs:768-845 | as above, for a state report, whose effect is `StateReportDoes` |
| `ControllerRuntime.ControllerRuntimeState.AuthorizeDrains` | ek-computation/src/controller/runtime_state.rs:847-927 | as above, for drain authorization |
| `ControllerRuntime.ControllerRuntimeState.FinishDrain` | ek-computation/src/controller/runtime_state.rs:929-978 | as above, for drain completion |
| `ControllerRuntime.ControllerRuntimeState.MessagesSince` | ek-computation/src/controller/runtime_state.rs:989-1029 | the history walk yields the specified deltas or snapshot |
| `ControlParts.PartsRejoin` | ek-computation/src/controller/runtime_state.rs:1339-1409 | cutting a list into parts of 64 and joining them in order gives the list back |
| `TopologyAssembler.TopologyMessageAssembler.DecodeRoutes` | ek-transport/src/expertkit_transport/controller/messages.py:195-251 | the decoding loop accepts or refuses entries as specified, with the first error |
| `TopologyAssembler.TopologyMessageAssembler.ConsumeMessage` | ek-transport/src/expertkit_transport/controller/messages.py:75-193 | one message retains a part, installs a complete view, or is the specified protocol error |
| `Replication.SnapshotInstalls` | ek-computation/src/controller/runtime_state.rs:1359-1385 | the parts of a snapshot replace any older view by exactly its version and routes |
| `Replication.RevisionInstalls` | ek-computation/src/controller/runtime_state.rs:1387-1409 | the parts of one revision take the view of its previous version to the view of its version |
| `Replication.FollowingInstalls` | ek-computation/src/controller/runtime_state.rs:1014-1028 | following the kept history walks through issued views from any starting version |
| `Replication.ReplicationExact` | ek-computation/src/controller/runtime_state.rs:989-1029 | one call's messages are never refused and end with the current version and routes |
| `Replication.ReachableReplicationExact` | ek-transport/src/expertkit_transport/controller/messages.py:117-193 | the same in every reachable state, for any view issued before or after restarts, ending with the routes recomputed from the records |
| `Replication.MessagesAnswer` | ek-computation/src/controller/runtime_state.rs:989-1013 | a client ahead is refused, a current one gets nothing, one of an unknown instance an empty snapshot |
| `Replication.UpdatesWhenKept` | ek-computation/src/controller/runtime_state.rs:1014-1024 | a client whose version is in the kept history gets exactly the revisions from there on, as updates |
| `Replication.SnapshotWhenNotKept` | ek-computation/src/controller/runtime_state.rs:1025-1029 | an older one gets the whole routes |
| `ClientSafety.DecodeExact` | ek-transport/src/expertkit_transport/controller/messages.py:195-251 | a route list is accepted exactly when experts are in the model and named once, replicas usable, no process twice in a route, and a process described in one way |
| `ClientSafety.CompleteExact` | ek-transport/src/expertkit_transport/controller/messages.py:160-193 | a snapshot is installed exactly when well formed, not older, empty at version zero and no second meaning of the installed version; an update exactly when it follows the installed version, is not empty and well formed |
| `ClientSafety.ConsumeDoes` | ek-transport/src/expertkit_transport/controller/messages.py:117-159 | a part of another instance, out of range, too large, of another message or repeated is refused and changes nothing; any other is retained and the last one decides |
| `ClientSafety.RetainedIsBounded` | ek-transport/src/expertkit_transport/controller/messages.py:132-158 | whatever arrives, at most one incomplete message within the model's bounds is retained |
| `ClientSafety.EveryViewIsSound` | ek-transport/src/expertkit_transport/controller/messages.py:75-193 | whatever arrives, the installed view is sound, versions never go back, and one version keeps its routes |
| `Selection.Eligible` | ek-transport/src/expertkit_transport/routing/selection.py:52-61 | candidates are replicas; an excluded one is a candidate only as a fallback when all are excluded; there is none exactly when all are excluded and no fallback applies |
| `Selection.EligibleExactly` | ek-transport/src/expertkit_transport/routing/selection.py:52-61 | eligible are all replicas that are not excluded, in route order; without any, all as a fallback or none |
| `Selection.RotationReaches` | ek-transport/src/expertkit_transport/routing/selection.py:62-67 | in as many turns as there are eligible replicas each gets one |
| `Selection.RoundRobinSelector.Select` | ek-transport/src/expertkit_transport/routing/selection.py:42-67 | the choice is the next eligible replica in rotation, one turn per choice |
| `ExpertLists.FlatInjective` | ek-transport/src/expertkit_transport/routing/grouping.py:54-66 | different experts or chunks never share a counter |
| `ExpertLists.DistinctExpertsByChunk` | ek-transport/src/expertkit_transport/routing/grouping.py:36-70 | the flat histogram gives each chunk its exact sorted expert list |
| `Grouping.SplitBatch` | ek-transport/src/expertkit_transport/routing/grouping.py:73-105 | pieces stay within the row limit, keep every assignment at its token and slot exactly once, and carry exact expert lists |
| `Grouping.ChooseTargets` | ek-transport/src/expertkit_transport/routing/grouping.py:173-191 | one eligible replica per expert, and per-Worker dictionaries that agree; the error names the first expert without a candidate |
| `Grouping.SelectRows` | ek-transport/src/expertkit_transport/routing/grouping.py:229-246 | the rows of one target are those with an assignment for it, with all other slots emptied |
| `Grouping.GroupWorkerBatches` | ek-transport/src/expertkit_transport/routing/grouping.py:108-258 | every valid assignment lands unchanged in exactly one plan, whose target was chosen among the eligible replicas of its expert, within the row limit and with an exact expert list; otherwise exactly the specified error |
| `Grouping.RefusalIs` | ek-transport/src/expertkit_transport/routing/grouping.py:145-191 | a batch is refused for another instance, for exactly the listed unrouted experts, or for the first expert all of whose replicas are to be avoided; otherwise not |
| `RoutedBatch.PlanSumIsCounted` | ek-transport/src/expertkit_transport/routing/dispatch.py:58-66 | plans add to a token each slot as often as they hold it |
| `RoutedBatch.PartitionSums` | ek-transport/src/expertkit_transport/routing/execute.py:184-213 | plans that partition the assignments add up to the plain weighted sum, for every expert function |
| `Dispatch.AddPartial` | ek-transport/src/expertkit_transport/routing/dispatch.py:58-66 | one partial output is scattered into the accumulator once |
| `Dispatch.DispatchOnce` | ek-transport/src/expertkit_transport/routing/dispatch.py:95-137 | in any completion order every success is added exactly once and failures come back in input order |
| `Dispatch.DispatchSplits` | ek-transport/src/expertkit_transport/routing/dispatch.py:104-137 | successes and failures together hold what the plans held |
| `RoutedLayer.UnfinishedBatch` | ek-transport/src/expertkit_transport/routing/execute.py:42-89 | the rebuilt matrix holds exactly the failed plans' assignments with their ids and weights; the failed processes of each expert are exactly those that failed it |
| `RoutedLayer.UnfinishedIsExact` | ek-transport/src/expertkit_transport/routing/execute.py:73-88 | the rebuilt batch carries an exact sorted expert list |
| `RoutedLayer.RetryCompletes` | ek-transport/src/expertkit_transport/routing/execute.py:222-265 | first successes and retry plans together hold every assignment exactly once |
| `RoutedLayer.RetrySums` | ek-transport/src/expertkit_transport/routing/execute.py:251-265 | their sums are the plain weighted sum |
| `RoutedLayer.RequiredIsHighest` | ek-transport/src/expertkit_transport/routing/execute.py:102-110 | the required version is the highest one a failed Worker asks for, and none exactly when none asks |
| `RoutedLayer.FatalIsFirst` | ek-transport/src/expertkit_transport/routing/execute.py:215-220 | a failure that is not retryable ends the layer, and it is the first one in plan order |
| `RoutedLayer.FailedByFailed` | ek-transport/src/expertkit_transport/routing/execute.py:73-88 | the processes avoided for an expert are exactly those that failed a plan naming it |
| `RoutedLayer.PlansErrorEnds` | ek-transport/src/expertkit_transport/routing/execute.py:214-265 | which answer, refresh and clock lead to which error: a refresh is too old exactly when a failed Worker asks for a later version, and the error names the highest one and the failed experts |
| `RoutedLayer.PlanRetry` | ek-transport/src/expertkit_transport/routing/execute.py:235-242 | the retry partitions what failed and sends an expert back to a process that failed it only when the refreshed route has no other |
| `RoutedLayer.DispatchCompletePlan` | ek-transport/src/expertkit_transport/routing/dispatch.py:73-92 | a complete plan's rows are the result, or its failure is kept |
| `RoutedLayer.ExecuteRoutedLayer` | ek-transport/src/expertkit_transport/routing/execute.py:135-265 | a returned layer is the plain weighted sum over every valid slot; which error ends it is decided by the Workers' answers, the refresh and the clock as `PlansEnd` says on their own fields |
| `QueueInvariant.QueueRunOk` | ek-transport/src/expertkit_transport/transports/queue.py:110-201 | in every reachable queue the pending, byte, active and per-expert counters are counts over the admitted batches, within the limits |
| `QueueInvariant.GateIsHighest` | ek-transport/src/expertkit_transport/transports/queue.py:308-321 | a draining refusal names the highest version among the gates it met |
| `QueueInvariant.GateHolds` | ek-transport/src/expertkit_transport/transports/queue.py:231-247 | an idle gated expert stays idle until its gate is cleared |
| `QueueInvariant.StopHolds` | ek-transport/src/expertkit_transport/transports/queue.py:262-267 | an empty stopped queue stays empty |
| `QueueInvariant.IdleMeansUnused` | ek-transport/src/expertkit_transport/transports/queue.py:249-267 | a zero counter means no admitted batch names the expert; idle means no batch at all |
| `QueueEffects.AdmissionExact` | ek-transport/src/expertkit_transport/transports/queue.py:110-159 | a batch is admitted exactly when the queue is open, does not hold it, nothing gates it and it fits; otherwise the first of these that fails is the answer |
| `QueueEffects.AdmitDoes` | ek-transport/src/expertkit_transport/transports/queue.py:140-159 | an admitted batch waits at the end of the line, a refused one leaves no trace |
| `QueueEffects.TakeDoes` | ek-transport/src/expertkit_transport/transports/queue.py:161-174 | the oldest waiting batch goes to execution, alone |
| `QueueEffects.CancelDoes` | ek-transport/src/expertkit_transport/transports/queue.py:176-189 | a waiting batch leaves and the others keep their places |
| `QueueEffects.CloseDoes` | ek-transport/src/expertkit_transport/transports/queue.py:280-300 | closing throws away exactly the waiting batches |
| `QueueEffects.BeginDrainDoes` | ek-transport/src/expertkit_transport/transports/queue.py:231-238 | exactly the named gates close, each with the larger of the two versions |
| `QueueEffects.FirstComeFirstServed` | ek-transport/src/expertkit_transport/transports/queue.py:161-174 | a batch behind another in line never goes to execution while that one waits, in any run |
| `ReceiverQueueObject.ReceiverQueue.AdmitBatch` | ek-transport/src/expertkit_transport/transports/queue.py:110-159 | admission or the specified refusal, on a queue that stays valid |
| `ReceiverQueueObject.ReceiverQueue.TakeBatch` | ek-transport/src/expertkit_transport/transports/queue.py:161-174 | the oldest waiting batch becomes active |
| `ReceiverQueueObject.ReceiverQueue.CancelBatch` | ek-transport/src/expertkit_transport/transports/queue.py:176-189 | only a waiting batch leaves, and its bytes and experts are released |
| `ReceiverQueueObject.ReceiverQueue.FinishBatch` | ek-transport/src/expertkit_transport/transports/queue.py:191-201 | only an active batch finishes |
| `ReceiverQueueObject.ReceiverQueue.BeginDrainOf` | ek-transport/src/expertkit_transport/transports/queue.py:210-238 | gates rise to the larger version |
| `ReceiverQueueObject.ReceiverQueue.ClearExpertDrains` | ek-transport/src/expertkit_transport/transports/queue.py:240-247 | exactly the named gates open |
| `ReceiverQueueObject.ReceiverQueue.Close` | ek-transport/src/expertkit_transport/transports/queue.py:280-300 | waiting batches are handed back and released, active ones stay |
| `WeightSession.ClearKeepsInv` | ek-worker/src/expertkit_worker/control/weight_stream.py:371-391 | clearing ready targets never opens the gate of a drain still in force; which gates it opens is `FinishApplyReopens` and `ReportReopens` |
| `WeightSession.ApplyKeepsInv` | ek-worker/src/expertkit_worker/control/weight_stream.py:255-291 | a newer placement supersedes older expert drains and keeps the invariant |
| `WeightSession.GateKeepsInv` | ek-worker/src/expertkit_worker/control/weight_stream.py:426-434 | a drain gates its experts unless it is superseded |
| `WeightSession.StepKeepsInv` | ek-worker/src/expertkit_worker/control/weight_stream.py:255-464 | every step of every task keeps the invariant |
| `WeightSession.RemovalIsSafe` | ek-worker/src/expertkit_worker/control/weight_stream.py:422-464 | while weights are removed the drain is not superseded and no admitted batch names a drained expert; for a whole-Worker drain there is no batch |
| `WeightSession.OneRemoval` | ek-worker/src/expertkit_worker/control/weight_stream.py:446-454 | at most one drain removes at a time, and never while targets are applied |
| `SessionEffects.FinishApplyReopens` | ek-worker/src/expertkit_worker/control/weight_stream.py:280-291 | the snapshot after a target application opens exactly the gates of ready targets |
| `SessionEffects.ReportReopens` | ek-worker/src/expertkit_worker/control/weight_stream.py:371-391 | so does a report of ready targets as it is sent |
| `SessionEffects.ReopenedIsServed` | ek-transport/src/expertkit_transport/transports/queue.py:240-247 | a batch for such experts is then admitted, on a queue that is open, not stopped and has room |
| `SessionEffects.StartDoes` | ek-worker/src/expertkit_worker/control/weight_stream.py:393-420 | a new drain starts unless its placement is replaced; a known one is left alone |
| `SessionEffects.ApplyDoes` | ek-worker/src/expertkit_worker/control/weight_stream.py:255-277 | a newer placement ends exactly the expert drains of older ones |
| `SessionEffects.ApplyRemembers` | ek-worker/src/expertkit_worker/control/weight_stream.py:263-271 | and they are remembered as superseded |
| `SessionEffects.GateDoes` | ek-worker/src/expertkit_worker/control/weight_stream.py:426-434 | a drain in force closes the gates of its experts, one that was overtaken gives up |
| `SessionEffects.ObserveDoes` | ek-worker/src/expertkit_worker/control/weight_stream.py:435-445 | a gated drain goes on exactly when no admitted batch uses what it drains |
| `SessionEffects.DrainGetsThrough` | ek-worker/src/expertkit_worker/control/weight_stream.py:422-464 | a drain that nothing overtakes and nobody uses is completed, with its gates closed and the lock free |
| `SessionEffects.HistoriesStayBounded` | ek-worker/src/expertkit_worker/control/weight_stream.py:482-498 | the tables of finished and superseded drains hold a drain once and at most 64 of them, in every run |
| `DrainCutover.PublishedIsValid` | ek-transport/src/expertkit_transport/routing/topology.py:74-95 | what the Controller publishes passes the checks of a routing snapshot: no empty route, no process twice in a route, positive limits, one description per process |
| `DrainCutover.DrainedNotChosen` | ek-computation/src/controller/runtime_state.rs:723-756 | over any issued view from a drain's minimum version on, a drained expert has no candidate on the drained process, in every run |
| `DrainCutover.RefusalNamesVersion` | ek-transport/src/expertkit_transport/transports/queue.py:308-321 | a draining refusal asks for at least the version of every gate the batch met and of a whole-Worker stop |
| `DrainCutover.RetryLeavesDrained` | ek-transport/src/expertkit_transport/routing/execute.py:231-242 | a Worker driven by the Controller has closed the gates of an unfinished drain and refuses a batch: the retry never sends a drained expert, after a whole-Worker drain no expert, back to that process |
| `WeightSession.GateOutlives` | ek-transport/src/expertkit_transport/transports/queue.py:231-247 | the gates of a drain stay closed with its version or a later one as long as none of its experts is a target |
| `WeightSession.PlacementWasBegun` | ek-worker/src/expertkit_worker/control/weight_stream.py:255-277 | the placement a session is at is one it was told to apply |
| `WorkerEnvironment.NamedOnce` | ek-computation/src/controller/runtime_state.rs:676-721 | over a whole run, with failed saves, failed publications and restarts, a generation names one target list |
| `WorkerEnvironment.AuthorizedIsApart` | ek-computation/src/controller/runtime_state.rs:723-756 | an expert drain that a record ever had unfinished names no target of its generation |
| `WorkerEnvironment.AppliedIsPlanned` | ek-worker/src/expertkit_worker/control/parts.py:98-153 | a list the assembler completes from the Controller's parts is the Controller's list of that generation |
| `WorkerEnvironment.DrivenIsAllowed` | ek-worker/src/expertkit_worker/control/weight_stream.py:216-233 | what a Controller run sends to a Worker is the environment its drains rely on |
| `WorkerEnvironment.ControllerRemovalIsSafe` | ek-worker/src/expertkit_worker/control/weight_stream.py:422-464 | removal is safe in every interleaving of a session driven by a Controller run |
| `WorkerEnvironment.GateStaysHeld` | ek-worker/src/expertkit_worker/control/weight_stream.py:371-391 | the gates of a drain stay closed as long as the Controller has it unfinished |
| `TargetAssembler.NeverGoesBack` | ek-worker/src/expertkit_worker/control/parts.py:107-119 | whatever parts arrive in whatever order, the lists that come out never go back to an older generation |
| `TargetAssembler.ListsAreOriginal` | ek-worker/src/expertkit_worker/control/parts.py:120-153 | parts of any placements mixed: what comes out is one of their lists, whole |
| `TargetAssembler.TargetsArriveExactly` | ek-worker/src/expertkit_worker/control/parts.py:98-153 | parts in any order, repeated, and mixed with older generations give nothing until the last missing part and then exactly the original list |
| `TargetAssembler.JoinedIsOriginal` | ek-computation/src/controller/runtime_state.rs:1339-1357 | the Controller's parts joined by index are the original list |
| `TargetAssembler.PartRefused` | ek-worker/src/expertkit_worker/control/parts.py:98-135 | a part without a generation, outside the bounds or contradicting an earlier one is an error and changes nothing; an older one is ignored |
| `TargetAssembler.PartRetained` | ek-worker/src/expertkit_worker/control/parts.py:120-153 | any other is retained, and the last missing one gives the list, or an error for a repeated expert or too many |
| `TargetAssembler.TargetListAssembler.Add` | ek-worker/src/expertkit_worker/control/parts.py:98-153 | the object takes the specified step, with every error case |
| `StateReporter.SelectedIsBatch` | ek-worker/src/expertkit_worker/control/state_reporter.py:266-273 | a batch is of one generation, bounded, in change order and oldest first; it is empty only when nothing is pending |
| `StateReporter.SelectedIsFull` | ek-worker/src/expertkit_worker/control/state_reporter.py:266-273 | a batch below its bound leaves nothing of its generation behind |
| `StateReporter.TakeSends` | ek-worker/src/expertkit_worker/control/state_reporter.py:275-292 | an update carries the next number and the generation and states of exactly the changes that leave |
| `StateReporter.FullSends` | ek-worker/src/expertkit_worker/control/state_reporter.py:199-219 | the parts of a snapshot share the next number, say where they stand and join to the whole list |
| `StateReporter.FullCovers` | ek-worker/src/expertkit_worker/control/state_reporter.py:173-197 | after any snapshot, every expert that is not left pending is known as the snapshot shows it, and what stays pending was recorded after the mark |
| `StateReporter.TakeKeepsCovers` | ek-worker/src/expertkit_worker/control/state_reporter.py:275-292 | an update batch keeps the view right for every expert that is not pending |
| `StateReporter.StreamTells` | ek-worker/src/expertkit_worker/control/weight_stream.py:298-312 | for any snapshot and any run: an expert that is not pending is known by its latest recorded change, or, if none was recorded since the mark, by the snapshot |
| `StateReporter.StreamAgreesExactly` | ek-worker/src/expertkit_worker/control/weight_stream.py:278-312 | expert by expert, the receiver knows what replaying every change gives exactly when a change was recorded since the mark or the snapshot agrees with the changes before it |
| `StateReporter.StreamIsFaithful` | ek-worker/src/expertkit_worker/control/weight_stream.py:298-312 | if the snapshot is the replay of the changes up to some point at or after the mark, the receiver ends with the replay of all of them |
| `StateReporter.ManagerIsKnown` | ek-worker/src/expertkit_worker/weights/manager.py:271-276 | an expert that is not pending is known as the manager shows it now, exactly unless the manager forgot it after the receiver was told about it |
| `StateReporter.ForgottenStaysKnown` | ek-worker/src/expertkit_worker/weights/manager.py:786-799 | the exception happens: a failed expert is loaded again and still known as failed although nothing is pending |
| `StateReporter.SequencesGrow` | ek-worker/src/expertkit_worker/control/state_reporter.py:294-296 | report numbers strictly increase; the parts of one snapshot share theirs |
| `StateReporter.ExpertStateReporter.RecordChange` | ek-worker/src/expertkit_worker/control/state_reporter.py:135-153 | a change replaces the pending one of its expert |
| `StateReporter.ExpertStateReporter.FullStateParts` | ek-worker/src/expertkit_worker/control/state_reporter.py:173-219 | the snapshot is checked, cut into parts, and what it covers is no longer pending |
| `StateReporter.ExpertStateReporter.TakeBatch` | ek-worker/src/expertkit_worker/control/state_reporter.py:275-292 | the selected batch leaves |
| `StateReporter.AcknowledgedWasSent` | ek-worker/src/expertkit_worker/control/state_reporter.py:252-264 | over any stream the acknowledged number never goes back or past the last one given out, and every number given out on the stream was sent |
| `StateReporter.ExpertStateReporter.AcknowledgeReport` | ek-worker/src/expertkit_worker/control/state_reporter.py:252-264 | accepted exactly for a number sent and not below the last accepted one; true exactly when it moves forward; a refusal changes nothing |
| `DramCacheModel.EvictIsShortest` | ek-worker/src/expertkit_worker/weights/dram_cache.py:181-190 | eviction takes the shortest sufficient prefix of the idle entries in LRU order, or all of them |
| `DramCacheModel.EvictKeeps` | ek-worker/src/expertkit_worker/weights/dram_cache.py:181-190 | a leased entry is never dropped |
| `DramCacheModel.DramCache.Acquire` | ek-worker/src/expertkit_worker/weights/dram_cache.py:113-122 | a hit takes a lease and becomes most recently used; counts stay the counts of open leases |
| `DramCacheModel.DramCache.TryReserve` | ek-worker/src/expertkit_worker/weights/dram_cache.py:124-138 | eviction first, then the budget if it fits; used plus reserved bytes stay within the limit |
| `DramCacheModel.DramCache.Remove` | ek-worker/src/expertkit_worker/weights/dram_cache.py:140-152 | removed exactly when present and unleased |
| `DramCacheModel.DramCache.Clear` | ek-worker/src/expertkit_worker/weights/dram_cache.py:165-175 | refused while anything is reserved or leased |
| `DramCacheModel.DramCache.CloseLease` | ek-worker/src/expertkit_worker/weights/dram_cache.py:49-55 | closing an open lease never fails, takes one reference from its entry and changes nothing else; a spent handle stays spent, so a second close does nothing |
| `DramCacheModel.DramCache.Commit` | ek-worker/src/expertkit_worker/weights/dram_cache.py:200-224 | a reservation becomes a leased entry no larger than it, or gives its budget back with the right error; either way it is spent |
| `DramCacheModel.DramCache.Cancel` | ek-worker/src/expertkit_worker/weights/dram_cache.py:86-92 | an open reservation gives exactly its budget back and is spent; cancelling it again changes nothing |
| `Rebalance.BestIsLeast` | ek-computation/src/controller/service/control.rs:186-193 | the selected Worker is open and no fuller, relative to capacity, than any other open one |
| `Rebalance.PlanIsBalanced` | ek-computation/src/controller/service/control.rs:183-196 | the planner never runs out of candidates; loads stay within capacity, sum to the experts placed, and satisfy (load_i - 1) * cap_j <= load_j * cap_i |
| `Rebalance.OrderDoesNotMatter` | ek-computation/src/controller/service/control.rs:148-159 | any ordering of the node list gives the same plan |
| `Rebalance.PlanRebalanceNodes` | ek-computation/src/controller/service/control.rs:131-206 | a plan exists exactly when the capacity suffices; it places every required expert |
| `Recovery.PlaceDirectly` | ek-computation/src/controller/elastic/recovery.rs:150-180 | the first min(count, free slots) experts are placed, each on a node with the most room left at that moment, no node above its free slots |
| `Recovery.FindVictim` | ek-computation/src/controller/elastic/recovery.rs:345-378 | the first target with a candidate gives up the one with most replicas, then least identifier |
| `Recovery.EvictAndPlace` | ek-computation/src/controller/elastic/recovery.rs:293-410 | each placement takes the place of one victim on its node; experts are left over only when every loaded expert on a readable target has at most one surviving replica; no expert loses its last one |
| `Recovery.RecoverUniqueExperts` | ek-computation/src/controller/elastic/recovery.rs:146-213 | the lost experts split into directly placed, placed by eviction and unplaced; a node that was read ends within the larger of its occupancy and capacity, an unreadable one within their sum |
| `Recovery.BoundsHold` | ek-computation/src/controller/scheduler.rs:19-29 | with at least as many experts as the planner sees room, a node stays within the larger of occupancy and capacity exactly when it was read, was empty, or can hold nothing |
| `Recovery.UnreadableOverfills` | ek-computation/src/controller/scheduler.rs:19-25 | a full node of four slots that cannot be read ends with eight experts |
| `SafeTensors.CheckedElementCount` | ek-worker/src/expertkit_worker/weights/format.py:100-108 | accepted exactly when dimensions are nonnegative and every partial product is in range; the result is the product |
| `SafeTensors.ParseTensor` | ek-worker/src/expertkit_worker/weights/format.py:111-156 | accepted exactly when the region lies in the data and its length is the shape product times the element width |
| `SafeTensors.ScanIsExact` | ek-worker/src/expertkit_worker/weights/format.py:230-237 | the scan accepts exactly the range lists, in any order, that give every byte to one tensor and put no empty tensor inside another |
| `SafeTensors.EmptyInsideIsRejected` | ek-worker/src/expertkit_worker/weights/format.py:230-237 | a list that covers every byte once and is refused for an empty tensor inside another |
| `SafeTensors.ParseSafetensors` | ek-worker/src/expertkit_worker/weights/format.py:217-243 | a header is accepted exactly when its entries fit one by one and together tile the data |

## Left out

- gRPC, HTTP, PostgreSQL, JSON, protobuf and configuration: the model starts from decoded records; database reads are parameters.
- The topology stream loop (`ek-computation/src/controller/service/topology.rs`): it reads version and messages under two locks, so replication is stated for one `topology_messages` call.
- ControllerGuarantees.GenerationsNeverDecrease: holds for a Worker that keeps registering for one instance; a failed publication rolls back memory but not the saved placement, so the store may be one placement ahead.
- Registration field and URL checks: folded into one validity predicate over the fields other steps use.
- The notification channel and read-only accessors of the runtime state: they carry no state of their own.
- DrainAuthorizationAssembler: the same assembly as for target lists; a drain may carry version 0, which a Worker refuses. Authorizations in `WorkerEnvironment` are whole.
- WorkerEnvironment.DrivenIsAllowed: that the targets of a generation are applied before its drains arrive is a condition, because the Controller's weight service is not part of this model.
- Deadlines, clocks, sleeps and the report delay: expiry is a parameter; the delay is measured from the first pending change, which need not be the oldest.
- Output pools, buffer leases, tracing and tensor devices: a Worker's partial output is the exact weighted sum of its rows.
- Floating-point rounding and dtype casts: sums are over real numbers.
- RoutedLayer.ExecuteRoutedLayer: histogram counters are unbounded where the source uses 32 bits; identities compare character by character.
- WeightSession.Step: the session is modelled on values, one step per stretch between suspension points, not as an object. A section under the queue's condition lock never suspends, so computing ready targets and clearing their gates is one step. The order in which superseded drains enter the bounded history is by drain id. A known drain number with other content ends the stream in the source and is ignored here.
- The weight manager, the loader, the transports and the Controller's weight service: abstract; a manager call may succeed, fail or be cancelled.
- StateReporter.ManagerIsKnown: a change enters the reporter in the step that makes it, as the manager calls the reporter before it suspends; a change that the reporter rejects as out of shape is not modelled.
- Rebalance.OrderDoesNotMatter: node ids are distinct, as database keys are.
- Recovery.EvictAndPlace: all reads see one database state, and an expert listed on a readable target is among that expert's hosts; each read may fail on its own.
- DramCacheModel.DramCache.CloseLease: a task cancelled while it waits for the cache's lock has marked its lease closed and keeps the reference; the model's calls are not interrupted.
- The dispatcher, poller, progressive loading, CLI, observability, benchmarks and framework integrations: wiring without a hard property.
