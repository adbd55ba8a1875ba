/** Controller, Worker and Frontend together: how traffic leaves a drained expert.

    The Controller withdraws the routes and issues a drain with a minimum version.  The Worker gates
    the experts and refuses their batches with that version.  The Frontend refreshes, and goes on only
    with a snapshot that is new enough. */
module DrainCutover {
  import opened Topology
  import opened ControllerState
  import opened ControllerRoutes
  import opened ControllerLog
  import opened ControllerInvariant
  import opened ControllerRuns
  import ControllerGuarantees
  import R = RoutedBatch
  import Grouping
  import Dispatch
  import RoutedLayer
  import Queue = QueueState
  import QueueInvariant
  import Session = WeightSession
  import Environment = WorkerEnvironment

  // ---------------------------------------------------------------- installed snapshots

  function ConnectionOf(r: WorkerRoute): R.Connection {
    R.Connection(R.Identity(r.workerId, r.startId), r.maxBatchTokens)
  }

  function ConnectionsOf(replicas: seq<WorkerRoute>): (c: seq<R.Connection>)
    ensures |c| == |replicas|
    ensures forall i :: 0 <= i < |replicas| ==> c[i] == ConnectionOf(replicas[i])
  {
    seq(|replicas|, i requires 0 <= i < |replicas| => ConnectionOf(replicas[i]))
  }

  /** The routing snapshot a Frontend installs for one view. */
  function SnapshotOf(instance: nat, version: nat, routes: RouteMap): Grouping.TopologySnapshot {
    Grouping.TopologySnapshot(instance, version, map key | key in routes :: ConnectionsOf(routes[key]))
  }

  lemma ConnectionHasRoute(routes: RouteMap, instance: nat, version: nat, layer: nat, e: nat, c: R.Connection) returns (r: WorkerRoute)
    requires c in Grouping.RouteOf(SnapshotOf(instance, version, routes), layer, e)
    ensures r in ReplicasAt(routes, ExpertKey(layer, e)) && c == ConnectionOf(r)
  {
    var replicas := routes[ExpertKey(layer, e)];
    var cs := ConnectionsOf(replicas);
    var i :| 0 <= i < |cs| && cs[i] == c;
    r := replicas[i];
  }

  /** What the Controller publishes is a snapshot the router accepts. */
  lemma PublishedIsValid(mem: Memory, store: StoreState, issued: Issued, instance: nat)
    requires Inv(mem, store, issued)
    ensures Grouping.ValidSnapshot(SnapshotOf(instance, Version(mem, instance), Routes(mem, instance)))
  {
    var routes := Routes(mem, instance);
    var topology := SnapshotOf(instance, Version(mem, instance), routes);
    assert NoEmptyRoute(routes);
    forall key | key in topology.routes ensures topology.routes[key] != [] { assert routes[key] != []; }
    forall key, c | key in topology.routes && c in topology.routes[key]
      ensures exists r :: r in routes[key] && c == ConnectionOf(r) && r.workerId in mem.workers && r == ControllerState.RouteOf(mem.workers[r.workerId]) && r.maxBatchTokens > 0
    {
      var r := PublishedConnection(mem, store, issued, instance, key, c);
    }
    forall key | key in topology.routes ensures Grouping.NoProcessTwice(topology.routes[key]) {
      PublishedOnce(mem, store, issued, instance, key);
    }
  }

  /** A published route names each process once. */
  lemma PublishedOnce(mem: Memory, store: StoreState, issued: Issued, instance: nat, key: ExpertKey)
    requires Inv(mem, store, issued) && key in Routes(mem, instance)
    ensures Grouping.NoProcessTwice(ConnectionsOf(Routes(mem, instance)[key]))
  {
    var replicas := Routes(mem, instance)[key];
    assert replicas == ReplicasAt(Routes(mem, instance), key) == Replicas(mem.workers, instance, key);
    DistinctWorkers(mem.workers, ServingList(mem.workers, instance, key));
    ConnectedOnce(replicas);
  }

  ghost predicate WorkersOnce(replicas: seq<WorkerRoute>) {
    forall i, j :: 0 <= i < j < |replicas| ==> replicas[i].workerId != replicas[j].workerId
  }

  lemma DistinctWorkers(workers: map<string, WorkerRecord>, ids: seq<string>)
    requires Keyed(workers) && (forall i :: 0 <= i < |ids| ==> ids[i] in workers)
    requires forall i, j :: 0 <= i < j < |ids| ==> ids[i] != ids[j]
    ensures WorkersOnce(RoutesFor(workers, ids))
  {
  }

  lemma ConnectedOnce(replicas: seq<WorkerRoute>)
    requires WorkersOnce(replicas)
    ensures Grouping.NoProcessTwice(ConnectionsOf(replicas))
  {
  }

  lemma PublishedConnection(mem: Memory, store: StoreState, issued: Issued, instance: nat, key: ExpertKey, c: R.Connection)
    returns (r: WorkerRoute)
    requires Inv(mem, store, issued) && key in Routes(mem, instance) && c in ConnectionsOf(Routes(mem, instance)[key])
    ensures r in Routes(mem, instance)[key] && c == ConnectionOf(r) && r.maxBatchTokens > 0
    ensures r.workerId in mem.workers && r == ControllerState.RouteOf(mem.workers[r.workerId])
  {
    var replicas := Routes(mem, instance)[key];
    var cs := ConnectionsOf(replicas);
    var i :| 0 <= i < |cs| && cs[i] == c;
    r := replicas[i];
    assert replicas == ReplicasAt(Routes(mem, instance), key) == Replicas(mem.workers, instance, key);
    ReplicaIsRecord(mem.workers, instance, key, r);
  }

  // ---------------------------------------------------------------- drained experts

  /** No replica choice over a view from the drain's minimum version on sends a drained expert back. */
  lemma DrainedNotChosen(limit: nat, actions: seq<Action>, w: string, n: nat, version: nat, layer: nat, e: nat,
                         avoid: Grouping.Avoid, c: R.Connection)
    requires limit > 0
    requires var mem := Run(Boot(limit), actions).mem; mem.Some? && w in mem.value.workers && n < |mem.value.workers[w].drains|
    requires var sys := Run(Boot(limit), actions);
             var worker := sys.mem.value.workers[w];
             var known := Known(sys.issued, worker.registration.instance);
             && version in known && version >= worker.drains[n].minVersion
             && (worker.drains[n].stopAll || (IsOpenExpertDrain(worker.drains[n]) && ExpertKey(layer, e) in worker.drains[n].experts))
             && c in Grouping.Candidates(SnapshotOf(worker.registration.instance, version, known[version]), layer, avoid, e)
    ensures var r := Run(Boot(limit), actions).mem.value.workers[w].registration;
            c.identity != R.Identity(r.workerId, r.startId)
  {
    var sys := Run(Boot(limit), actions);
    var worker := sys.mem.value.workers[w];
    var instance := worker.registration.instance;
    var routes := Known(sys.issued, instance)[version];
    ReachableDrains(limit, actions, w, n);
    Grouping.CandidateIsReplica(SnapshotOf(instance, version, routes), layer, avoid, e, c);
    var r := ConnectionHasRoute(routes, instance, version, layer, e, c);
  }

  /** The version in a draining refusal is at least that of every gate the batch met, and of a
      whole-Worker stop. */
  lemma RefusalNamesVersion(q: Queue.Queue, limits: Queue.Limits, item: nat, layer: nat, experts: seq<nat>, bytes: nat, version: nat)
    requires Queue.AdmitRefusal(q, limits, item, layer, experts, bytes) == Some(Queue.Draining(version))
    ensures q.stopAll.Some? ==> version >= q.stopAll.value
    ensures forall e :: e in experts && ExpertKey(layer, e) in q.gates ==> version >= q.gates[ExpertKey(layer, e)]
  {
    QueueInvariant.GateIsHighest(q, layer, experts, |experts|);
    forall e | e in experts && ExpertKey(layer, e) in q.gates ensures version >= q.gates[ExpertKey(layer, e)] {
      var i :| 0 <= i < |experts| && experts[i] == e;
    }
  }

  /** A batch refused under a drain whose gates are closed is refused with that drain's version. */
  lemma RefusalCoversDrain(q: Queue.Queue, limits: Queue.Limits, item: nat, layer: nat, experts: seq<nat>, bytes: nat, version: nat,
                           a: Session.Authorization, e: nat)
    requires Queue.AdmitRefusal(q, limits, item, layer, experts, bytes) == Some(Queue.Draining(version))
    requires Session.GateHeld(q, a) && (a.stopAll || (e in experts && ExpertKey(layer, e) in a.experts))
    ensures version >= a.minVersion
  {
    RefusalNamesVersion(q, limits, item, layer, experts, bytes, version);
  }

  lemma {:induction false} RequiredCovers(failures: seq<Dispatch.Failure>, i: nat)
    requires i < |failures| && failures[i].error.minVersion.Some?
    ensures RoutedLayer.RequiredVersion(failures).Some? && RoutedLayer.RequiredVersion(failures).value >= failures[i].error.minVersion.value
    decreases |failures|
  {
    if i < |failures| - 1 { RequiredCovers(failures[..|failures| - 1], i); }
  }

  /** Controller, Worker and Frontend.  The Controller has drain `d` unfinished after `calls`; the Worker,
      driven by it, has closed the gates of `d` and refuses a batch; the Frontend goes on with an issued
      view that is new enough.  Then the retry sends no drained expert, and after a whole-Worker drain
      no expert at all, back to that process, whatever the processes to avoid. */
  lemma RetryLeavesDrained(limit: nat, calls: seq<Action>, w: string, instance: nat, n: nat, d: Drain,
                           worker: Environment.Worker, steps: seq<Session.Action>, at: seq<nat>, k: nat,
                           item: nat, layer: nat, experts: seq<nat>, bytes: nat, refused: nat, e: nat,
                           failures: seq<Dispatch.Failure>, i: nat, version: nat, avoid: Grouping.Avoid, c: R.Connection)
    requires limit > 0 && ControllerGuarantees.RegistersFor(calls, w, instance) && Environment.Driven(limit, calls, w, worker, steps, at)
    requires Environment.IsUnfinished(limit, calls, w, n, d) && Environment.ClosesGates(worker, steps, k, Environment.AuthorizationOf(d))
    requires d.stopAll || (e in experts && ExpertKey(layer, e) in d.experts)
    requires Queue.AdmitRefusal(Session.Run(worker.limits, steps).queue, worker.limits, item, layer, experts, bytes) == Some(Queue.Draining(refused))
    requires i < |failures| && failures[i].error.minVersion == Some(refused) && !RoutedLayer.TooOld(failures, version)
    requires var record := Environment.RecordAt(limit, calls, w, |calls|);
             var known := Known(Environment.At(limit, calls, |calls|).issued, record.registration.instance);
             version in known &&
             c in Grouping.Candidates(SnapshotOf(record.registration.instance, version, known[version]), layer, avoid, e)
    ensures var r := Environment.RecordAt(limit, calls, w, |calls|).registration;
            c.identity != R.Identity(r.workerId, r.startId)
  {
    var a := Environment.AuthorizationOf(d);
    assert version >= d.minVersion by {
      Environment.GateStaysHeld(limit, calls, w, instance, worker, steps, at, k, n, d);
      RefusalCoversDrain(Session.Run(worker.limits, steps).queue, worker.limits, item, layer, experts, bytes, refused, a, e);
      RequiredCovers(failures, i);
    }
    DrainedNotChosen(limit, calls[..|calls|], w, n, version, layer, e, avoid, c);
  }
}
