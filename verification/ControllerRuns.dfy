/** Whole runs of the Controller: any sequence of calls, failed durable writes and restarts. */
module ControllerRuns {
  import opened Ordering
  import opened Topology
  import opened ControllerState
  import opened ControllerRoutes
  import opened ControllerLog
  import opened ControllerDrains
  import opened ControllerInvariant

  /** The process (if one runs), its durable store, and the log of everything it ever issued. */
  datatype System = System(mem: Option<Memory>, store: StoreState, issued: Issued)

  datatype Action =
    | DoRegister(registration: Registration, reply: StoreReply)
    | DoOpenHeartbeat(w: string, s: string)
    | DoHeartbeat(w: string, s: string, lease: nat, sequence: nat, runState: RunState, reply: StoreReply)
    | DoCloseHeartbeat(w: string, s: string, lease: nat, reply: StoreReply)
    | DoSetTargets(w: string, s: string, targets: seq<TargetExpert>, save: StoreReply, reply: StoreReply)
    | DoStateReport(w: string, s: string, generation: nat, sequence: nat, full: bool, states: seq<ReportedState>, reply: StoreReply)
    | DoDrainAuthorizations(w: string, s: string, reply: StoreReply)
    | DoCompleteDrain(w: string, s: string, id: nat, reply: StoreReply)
    | DoRestart(historyLimit: nat, order: seq<nat>, replies: map<nat, StoreReply>)

  function Call(mem: Memory, store: StoreState, a: Action): (Memory, StoreState)
    requires !a.DoRestart?
  {
    match a
    case DoRegister(r, reply) => var o := Register(mem, store, r, reply); (o.mem, o.store)
    case DoOpenHeartbeat(w, s) => var o := OpenHeartbeat(mem, store, w, s); (o.mem, o.store)
    case DoHeartbeat(w, s, lease, n, run, reply) => var o := Heartbeat(mem, store, w, s, lease, n, run, reply); (o.mem, o.store)
    case DoCloseHeartbeat(w, s, lease, reply) => var o := CloseHeartbeat(mem, store, w, s, lease, reply); (o.mem, o.store)
    case DoSetTargets(w, s, ts, save, reply) => var o := SetTargets(mem, store, w, s, ts, save, reply); (o.mem, o.store)
    case DoStateReport(w, s, g, n, full, states, reply) =>
      var o := StateReport(mem, store, w, s, g, n, full, states, reply); (o.mem, o.store)
    case DoDrainAuthorizations(w, s, reply) => var o := DrainAuthorizations(mem, store, w, s, reply); (o.mem, o.store)
    case DoCompleteDrain(w, s, id, reply) => var o := CompleteDrain(mem, store, w, s, id, reply); (o.mem, o.store)
  }

  /** A restart drops the old process.  The new one refuses a zero history limit, and does not come
      up when a durable write fails. */
  function Restarted(store: StoreState, limit: nat, order: seq<nat>, replies: map<nat, StoreReply>): (StoreState, Option<Memory>) {
    if limit == 0 then (store, None) else Restore(store, limit, order, replies)
  }

  function Step(sys: System, a: Action): System {
    if a.DoRestart? then
      var (store, mem) := Restarted(sys.store, a.historyLimit, a.order, a.replies);
      System(mem, store, if mem.Some? then Observe(sys.issued, mem.value) else sys.issued)
    else if sys.mem.None? then sys
    else
      var (mem, store) := Call(sys.mem.value, sys.store, a);
      System(Some(mem), store, Observe(sys.issued, mem))
  }

  function Run(sys: System, actions: seq<Action>): System {
    if actions == [] then sys else Step(Run(sys, actions[..|actions| - 1]), actions[|actions| - 1])
  }

  /** An empty store and a process with nothing in memory. */
  function Boot(limit: nat): System {
    System(Some(Memory(map[], map[], map[], 0, 0, limit)), StoreState(map[], map[]), map[])
  }

  /** What survives while no process runs: the store is ahead of everything ever issued. */
  ghost predicate IssuedBounded(store: StoreState, issued: Issued) {
    && PositiveVersions(issued)
    && (forall i :: i in issued ==> issued[i] != map[])
    && (forall i, v :: i in issued && v in issued[i] ==> v <= StoredVersion(store, i))
  }

  ghost predicate SystemOk(sys: System) {
    match sys.mem
    case Some(mem) => Inv(mem, sys.store, sys.issued)
    case None => IssuedBounded(sys.store, sys.issued)
  }

  // ---------------------------------------------------------------- restart

  lemma RunningIsBounded(mem: Memory, store: StoreState, issued: Issued)
    requires LogOk(mem, store, issued)
    ensures IssuedBounded(store, issued)
  {
    forall i | i in issued ensures issued[i] != map[] && forall v :: v in issued[i] ==> v <= StoredVersion(store, i) {
      VersionIsKnown(mem, store, issued, i);
      var t := mem.topologies[i];
      assert TopologyOk(t, Known(issued, i), mem.historyLimit);
      assert t.version in issued[i];
      forall v | v in issued[i] ensures v <= StoredVersion(store, i) { assert v in Known(issued, i); }
    }
  }

  /** What one restored instance looks like. */
  ghost predicate FreshTopology(t: InstanceTopology, stored: nat, after: nat) {
    t.routes == map[] && t.history == [] && stored < t.version <= after
  }

  lemma {:induction false} RestoredTopologies(store: StoreState, instances: seq<nat>, replies: map<nat, StoreReply>)
    requires NoDuplicates(instances)
    ensures var (after, topologies) := RestoreTopologies(store, instances, replies);
            && (forall i :: StoredVersion(store, i) <= StoredVersion(after, i))
            && (forall i :: i !in instances ==> StoredVersion(store, i) == StoredVersion(after, i))
            && after.placements == store.placements
            && (topologies.Some? ==>
                  forall i :: (i in topologies.value <==> i in instances) &&
                    (i in instances ==> FreshTopology(topologies.value[i], StoredVersion(store, i), StoredVersion(after, i))))
    decreases |instances|
  {
    if instances != [] {
      var front := instances[..|instances| - 1];
      var last := instances[|instances| - 1];
      RestoredTopologies(store, front, replies);
      assert forall i :: i in instances <==> i == last || i in front;
      assert last !in front;
    }
  }

  lemma Restored(store: StoreState, limit: nat, order: seq<nat>, replies: map<nat, StoreReply>)
    ensures var (after, mem) := Restore(store, limit, order, replies);
            && (forall i :: StoredVersion(store, i) <= StoredVersion(after, i))
            && after.placements == store.placements
            && (mem.Some? ==>
                  && mem.value.workers == map[] && mem.value.historyLimit == limit && mem.value.persisted == store.placements
                  && forall i :: (i in mem.value.topologies <==> i in KnownInstances(store)) &&
                       (i in mem.value.topologies ==>
                          FreshTopology(mem.value.topologies[i], StoredVersion(store, i), StoredVersion(after, i))))
  {
    RestoredTopologies(store, VisitOrder(store, order), replies);
  }

  lemma IssuedIsKnown(store: StoreState, issued: Issued)
    requires IssuedBounded(store, issued)
    ensures forall i :: i in issued ==> i in KnownInstances(store)
  {
    forall i | i in issued ensures i in KnownInstances(store) {
      var v :| v in issued[i];
      assert i in store.versions;
    }
  }

  lemma RestoredNames(issued: Issued, store: StoreState, after: StoreState, mem: Memory)
    requires IssuedBounded(store, issued)
    requires forall i :: i in issued ==> i in mem.topologies
    requires forall i :: i in mem.topologies ==> FreshTopology(mem.topologies[i], StoredVersion(store, i), StoredVersion(after, i))
    ensures var next := Observe(issued, mem);
            && next.Keys == mem.topologies.Keys
            && (forall i :: i in mem.topologies ==> next[i] == IssuedAt(issued, i)[mem.topologies[i].version := map[]])
            && Extends(next, issued) && PositiveVersions(next)
  {
    var next := Observe(issued, mem);
    forall i | i in issued ensures i in next && NamesKept(next[i], issued[i]) {
      assert mem.topologies[i].version > StoredVersion(store, i);
    }
  }

  lemma RestoredLog(issued: Issued, store: StoreState, after: StoreState, mem: Memory)
    requires IssuedBounded(store, issued) && mem.historyLimit > 0
    requires forall i :: i in issued ==> i in mem.topologies
    requires forall i :: i in mem.topologies ==> FreshTopology(mem.topologies[i], StoredVersion(store, i), StoredVersion(after, i))
    ensures LogOk(mem, after, Observe(issued, mem)) && Extends(Observe(issued, mem), issued)
  {
    RestoredNames(issued, store, after, mem);
    var next := Observe(issued, mem);
    forall i | i in mem.topologies ensures TopologyOk(mem.topologies[i], Known(next, i), mem.historyLimit) {
      var t := mem.topologies[i];
      assert next[i] == IssuedAt(issued, i)[t.version := map[]];
      forall v | v in Known(next, i) ensures v <= t.version {
        if v != 0 && v != t.version { assert v in issued[i]; }
      }
    }
  }

  lemma EmptyMemoryIsOk(mem: Memory, store: StoreState, issued: Issued)
    requires mem.workers == map[] && LogOk(mem, store, issued)
    requires forall i :: Routes(mem, i) == map[]
    ensures Inv(mem, store, issued)
  {
    forall i, key ensures ReplicasAt(Routes(mem, i), key) == Replicas(mem.workers, i, key) {
      NonemptyHasMember(ServingList(mem.workers, i, key));
    }
  }

  lemma RestartKeepsOk(store: StoreState, issued: Issued, limit: nat, order: seq<nat>, replies: map<nat, StoreReply>)
    requires IssuedBounded(store, issued)
    ensures var (after, mem) := Restarted(store, limit, order, replies);
            && IssuedBounded(after, issued)
            && (mem.Some? ==> Inv(mem.value, after, Observe(issued, mem.value)) && Extends(Observe(issued, mem.value), issued))
  {
    if limit > 0 {
      Restored(store, limit, order, replies);
      var (after, mem) := Restore(store, limit, order, replies);
      if mem.Some? {
        IssuedIsKnown(store, issued);
        RestoredLog(issued, store, after, mem.value);
        EmptyMemoryIsOk(mem.value, after, Observe(issued, mem.value));
      }
    }
  }

  // ---------------------------------------------------------------- every run

  lemma CallKeepsInv(mem: Memory, store: StoreState, issued: Issued, a: Action)
    requires Inv(mem, store, issued) && !a.DoRestart?
    ensures StepOk(Call(mem, store, a).0, Call(mem, store, a).1, issued)
  {
    match a
    case DoRegister(r, reply) => RegisterKeepsInv(mem, store, issued, r, reply);
    case DoOpenHeartbeat(w, s) => OpenHeartbeatKeepsInv(mem, store, issued, w, s);
    case DoHeartbeat(w, s, lease, n, run, reply) => HeartbeatKeepsInv(mem, store, issued, w, s, lease, n, run, reply);
    case DoCloseHeartbeat(w, s, lease, reply) => CloseHeartbeatKeepsInv(mem, store, issued, w, s, lease, reply);
    case DoSetTargets(w, s, ts, save, reply) => SetTargetsKeepsInv(mem, store, issued, w, s, ts, save, reply);
    case DoStateReport(w, s, g, n, full, states, reply) =>
      StateReportKeepsInv(mem, store, issued, w, s, g, n, full, states, reply);
    case DoDrainAuthorizations(w, s, reply) => DrainAuthorizationsKeepsInv(mem, store, issued, w, s, reply);
    case DoCompleteDrain(w, s, id, reply) => CompleteDrainKeepsInv(mem, store, issued, w, s, id, reply);
  }

  /** Every step keeps the invariant and the meaning of every issued version. */
  lemma StepKeepsOk(sys: System, a: Action)
    requires SystemOk(sys)
    ensures SystemOk(Step(sys, a)) && Extends(Step(sys, a).issued, sys.issued)
  {
    ExtendsItself(sys.issued);
    if a.DoRestart? {
      if sys.mem.Some? { RunningIsBounded(sys.mem.value, sys.store, sys.issued); }
      RestartKeepsOk(sys.store, sys.issued, a.historyLimit, a.order, a.replies);
    } else if sys.mem.Some? {
      CallKeepsInv(sys.mem.value, sys.store, sys.issued, a);
    }
  }

  lemma ExtendsTransitive(a: Issued, b: Issued, c: Issued)
    requires Extends(b, a) && Extends(c, b)
    ensures Extends(c, a)
  {
    forall i | i in a ensures i in c && NamesKept(c[i], a[i]) {
      assert i in b && NamesKept(b[i], a[i]) && NamesKept(c[i], b[i]);
    }
  }

  /** Over any run, the invariant holds and no version is ever given a second route map. */
  lemma {:induction false} RunKeepsOk(sys: System, actions: seq<Action>)
    requires SystemOk(sys)
    ensures SystemOk(Run(sys, actions)) && Extends(Run(sys, actions).issued, sys.issued)
    decreases |actions|
  {
    if actions == [] {
      ExtendsItself(sys.issued);
    } else {
      var before := Run(sys, actions[..|actions| - 1]);
      RunKeepsOk(sys, actions[..|actions| - 1]);
      StepKeepsOk(before, actions[|actions| - 1]);
      ExtendsTransitive(sys.issued, before.issued, Run(sys, actions).issued);
    }
  }

  lemma BootIsOk(limit: nat)
    requires limit > 0
    ensures SystemOk(Boot(limit))
  {
    EmptyMemoryIsOk(Boot(limit).mem.value, Boot(limit).store, map[]);
  }

  /** In every reachable state the maintained index is the recomputed one. */
  lemma ReachableRoutesExact(limit: nat, actions: seq<Action>, instance: nat)
    requires limit > 0
    ensures var sys := Run(Boot(limit), actions);
            sys.mem.Some? ==>
              && Routes(sys.mem.value, instance) == RecomputedRoutes(sys.mem.value.workers, instance)
              && NoEmptyRoute(Routes(sys.mem.value, instance))
  {
    BootIsOk(limit);
    RunKeepsOk(Boot(limit), actions);
    var sys := Run(Boot(limit), actions);
    if sys.mem.Some? { RouteIndexIsRecomputed(sys.mem.value, instance); }
  }

  /** Versions never go back over any run, and a version that stays the same keeps its routes. */
  lemma VersionsIncrease(sys: System, actions: seq<Action>, instance: nat)
    requires SystemOk(sys) && sys.mem.Some? && Run(sys, actions).mem.Some?
    ensures var before, after := sys.mem.value, Run(sys, actions).mem.value;
            && Version(before, instance) <= Version(after, instance)
            && (Version(before, instance) == Version(after, instance) ==> Routes(before, instance) == Routes(after, instance))
  {
    RunKeepsOk(sys, actions);
    var later := Run(sys, actions);
    VersionIsKnown(sys.mem.value, sys.store, sys.issued, instance);
    VersionIsKnown(later.mem.value, later.store, later.issued, instance);
    KnownKept(sys.issued, later.issued, instance, Version(sys.mem.value, instance));
  }

  lemma KnownKept(earlier: Issued, later: Issued, instance: nat, version: nat)
    requires Extends(later, earlier) && version in Known(earlier, instance)
    ensures version in Known(later, instance) && Known(later, instance)[version] == Known(earlier, instance)[version]
  {
    if instance in earlier {
      assert NamesKept(later[instance], earlier[instance]);
    }
  }

  /** A restart always moves on: no version issued before is current afterwards. */
  lemma RestartIsNewer(sys: System, limit: nat, order: seq<nat>, replies: map<nat, StoreReply>, instance: nat, version: nat)
    requires SystemOk(sys) && instance in sys.issued && version in sys.issued[instance]
    requires Step(sys, DoRestart(limit, order, replies)).mem.Some?
    ensures version < Version(Step(sys, DoRestart(limit, order, replies)).mem.value, instance)
  {
    if sys.mem.Some? { RunningIsBounded(sys.mem.value, sys.store, sys.issued); }
    IssuedIsKnown(sys.store, sys.issued);
    Restored(sys.store, limit, order, replies);
  }

  /** Drained experts and drained Workers, over every run: see `DrainOk`. */
  lemma ReachableDrains(limit: nat, actions: seq<Action>, w: string, n: nat)
    requires limit > 0
    requires var mem := Run(Boot(limit), actions).mem; mem.Some? && w in mem.value.workers && n < |mem.value.workers[w].drains|
    ensures var sys := Run(Boot(limit), actions);
            var worker := sys.mem.value.workers[w];
            var d := worker.drains[n];
            var known := Known(sys.issued, worker.registration.instance);
            && (IsOpenExpertDrain(d) ==>
                  && d.generation == worker.generation && d.experts !! worker.targets.Keys
                  && (forall m :: 0 <= m < |worker.drains| && m != n ==> !IsOpenExpertDrain(worker.drains[m]))
                  && (forall v :: v in known && v >= d.minVersion ==>
                        NotRoutedTo(known[v], d.experts, worker.registration.workerId, worker.registration.startId)))
            && (d.stopAll ==>
                  forall v :: v in known && v >= d.minVersion ==>
                    NeverRoutedTo(known[v], worker.registration.workerId, worker.registration.startId))
  {
    BootIsOk(limit);
    RunKeepsOk(Boot(limit), actions);
    var sys := Run(Boot(limit), actions);
    var worker := sys.mem.value.workers[w];
    assert WorkerDrainsOk(worker, Known(sys.issued, worker.registration.instance));
    assert DrainOk(worker.drains[n], worker, Known(sys.issued, worker.registration.instance));
  }
}
