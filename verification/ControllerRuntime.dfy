/** The Controller objects: the durable store and the runtime state that its services share. */
module ControllerRuntime {
  import opened Topology
  import opened ControllerState
  import opened ControllerLog
  import opened ControllerInvariant
  import opened ControllerRuns

  /** Undoing an insertion gives the old map back. */
  lemma UndoInsert<K, V>(m: map<K, V>, k: K, v: V)
    ensures k in m ==> m[k := v][k := m[k]] == m && (m[k := v] - {k})[k := m[k]] == m
    ensures k !in m ==> m[k := v] - {k} == m
  {
  }

  lemma ChangesOneMore(mem: Memory, instance: nat, keys: seq<ExpertKey>, n: nat)
    requires n < |keys|
    ensures var replicas := Replicas(mem.workers, instance, keys[n]);
            Changes(mem, instance, keys[..n + 1]) == Changes(mem, instance, keys[..n])
              + if ReplicasAt(Routes(mem, instance), keys[n]) == replicas then [] else [RouteEntry(keys[n], replicas)]
  {
    assert keys[..n + 1][..n] == keys[..n];
  }

  lemma RestoreOneMore(store: StoreState, instances: seq<nat>, replies: map<nat, StoreReply>, n: nat)
    requires n < |instances| && RestoreTopologies(store, instances[..n], replies).1.Some?
    ensures var (before, topologies) := RestoreTopologies(store, instances[..n], replies);
            var i := instances[n];
            var (after, version) := AdvanceVersion(before, i, StoredVersion(store, i), if i in replies then replies[i] else Done);
            RestoreTopologies(store, instances[..n + 1], replies)
            == (after, if version.None? then None else Some(topologies.value[i := InstanceTopology(version.value, map[], [])]))
  {
    assert instances[..n + 1][..n] == instances[..n];
  }

  /** Once a durable write fails, nothing after it is tried. */
  lemma {:induction false} RestoreStops(store: StoreState, instances: seq<nat>, replies: map<nat, StoreReply>, n: nat)
    requires n <= |instances| && RestoreTopologies(store, instances[..n], replies).1.None?
    ensures RestoreTopologies(store, instances, replies) == RestoreTopologies(store, instances[..n], replies)
    decreases |instances|
  {
    if n == |instances| {
      assert instances[..n] == instances;
    } else {
      var front := instances[..|instances| - 1];
      assert front[..n] == instances[..n];
      RestoreStops(store, front, replies, n);
    }
  }

  class ControllerStateStore {
    var placements: map<string, Placement>
    var versions: map<nat, nat>

    function View(): StoreState reads this { StoreState(placements, versions) }

    constructor ()
      ensures View() == StoreState(map[], map[])
    {
      placements, versions := map[], map[];
    }

    method Save(workerId: string, placement: Placement, reply: StoreReply) returns (ok: bool)
      modifies this
      ensures (View(), ok) == SavePlacement(old(View()), workerId, placement, reply)
    {
      if reply == Done || reply == Failed(true) {
        placements := placements[workerId := placement];
      }
      ok := reply.Done?;
    }

    method AdvanceTopologyVersion(instance: nat, current: nat, reply: StoreReply) returns (version: Option<nat>)
      modifies this
      ensures (View(), version) == AdvanceVersion(old(View()), instance, current, reply)
    {
      var stored := if instance in versions then versions[instance] else 0;
      var next := (if stored >= current then stored else current) + 1;
      if next > MAX_U64 || reply == Failed(false) { return None; }
      versions := versions[instance := next];
      version := if reply.Done? then Some(next) else None;
    }
  }

  class ControllerRuntimeState {
    var workers: map<string, WorkerRecord>
    var topologies: map<nat, InstanceTopology>
    var persisted: map<string, Placement>
    var nextLease: nat
    var nextDrainId: nat
    const historyLimit: nat
    const store: ControllerStateStore
    ghost var issued: Issued

    function Mem(): Memory reads this {
      Memory(workers, topologies, persisted, nextLease, nextDrainId, historyLimit)
    }

    ghost predicate Valid() reads this, store {
      Inv(Mem(), store.View(), issued)
    }

    /** A first start over an empty store. */
    constructor (historyLimit: nat, store: ControllerStateStore)
      requires historyLimit > 0 && store.View() == StoreState(map[], map[])
      ensures Valid() && this.store == store
      ensures Mem() == Boot(historyLimit).mem.value && issued == map[]
    {
      this.historyLimit, this.store := historyLimit, store;
      workers, topologies, persisted, nextLease, nextDrainId := map[], map[], map[], 0, 0;
      issued := map[];
      new;
      BootIsOk(historyLimit);
    }

    /** The memory of a process that has read its store and observed nothing yet. */
    constructor FromSnapshot(historyLimit: nat, store: ControllerStateStore, placements: map<string, Placement>,
                             topologies: map<nat, InstanceTopology>, ghost issued: Issued)
      requires historyLimit > 0
      ensures this.store == store && this.issued == issued
      ensures Mem() == Memory(map[], topologies, placements, 0, 0, historyLimit)
    {
      this.historyLimit, this.store, this.issued := historyLimit, store, issued;
      workers, this.topologies, persisted, nextLease, nextDrainId := map[], topologies, placements, 0, 0;
    }

    /** Advance every known instance past its stored version; stop at the first failed write. */
    static method RestoreVersions(store: ControllerStateStore, instances: seq<nat>, replies: map<nat, StoreReply>)
      returns (topologies: Option<map<nat, InstanceTopology>>)
      modifies store
      ensures (store.View(), topologies) == RestoreTopologies(old(store.View()), instances, replies)
    {
      var snapshot := store.View();
      var restored: map<nat, InstanceTopology> := map[];
      for n := 0 to |instances|
        invariant (store.View(), Some(restored)) == RestoreTopologies(snapshot, instances[..n], replies)
      {
        RestoreOneMore(snapshot, instances, replies, n);
        var i := instances[n];
        var reply := if i in replies then replies[i] else Done;
        var version := store.AdvanceTopologyVersion(i, StoredVersion(snapshot, i), reply);
        if version.None? {
          RestoreStops(snapshot, instances, replies, n + 1);
          return None;
        }
        restored := restored[i := InstanceTopology(version.value, map[], [])];
      }
      assert instances[..|instances|] == instances;
      return Some(restored);
    }

    /** Start over an existing store: every known instance moves to a fresh version before anything
        is served.  A failed write leaves the versions advanced so far and no running process. */
    static method RestoreFrom(historyLimit: nat, store: ControllerStateStore, order: seq<nat>,
                              replies: map<nat, StoreReply>, ghost issued: Issued)
      returns (state: Option<ControllerRuntimeState>)
      requires historyLimit > 0 && IssuedBounded(store.View(), issued)
      modifies store
      ensures var (after, mem) := Restore(old(store.View()), historyLimit, order, replies);
              store.View() == after && state.Some? == mem.Some? && (state.Some? ==> state.value.Mem() == mem.value)
      ensures state.None? ==> IssuedBounded(store.View(), issued)
      ensures state.Some? ==>
                && fresh(state.value) && state.value.store == store && state.value.Valid()
                && state.value.issued == Observe(issued, state.value.Mem()) && Extends(state.value.issued, issued)
    {
      RestartKeepsOk(store.View(), issued, historyLimit, order, replies);
      var placements := store.placements;
      var topologies := RestoreVersions(store, VisitOrder(store.View(), order), replies);
      if topologies.None? { return None; }
      ghost var mem := Memory(map[], topologies.value, placements, 0, 0, historyLimit);
      var process := new ControllerRuntimeState.FromSnapshot(historyLimit, store, placements, topologies.value,
                                                             Observe(issued, mem));
      return Some(process);
    }

    // -------------------------------------------------------------- publication

    method ComputeChanges(instance: nat, affected: set<ExpertKey>) returns (changes: seq<RouteEntry>)
      ensures changes == Published(Mem(), instance, affected)
    {
      var keys := SortedKeys(affected);
      changes := [];
      for n := 0 to |keys|
        invariant changes == Changes(Mem(), instance, keys[..n])
      {
        ChangesOneMore(Mem(), instance, keys, n);
        var replicas := Replicas(workers, instance, keys[n]);
        var previous := if instance in topologies then ReplicasAt(topologies[instance].routes, keys[n]) else [];
        if previous != replicas {
          changes := changes + [RouteEntry(keys[n], replicas)];
        }
      }
      assert keys[..|keys|] == keys;
    }

    method InstallTopology(instance: nat, version: nat, changes: seq<RouteEntry>)
      modifies this`topologies
      ensures topologies == old(topologies)[instance := NextTopology(old(Mem()), instance, version, changes)]
    {
      var routes, history := Routes(Mem(), instance), History(Mem(), instance);
      var previous := Version(Mem(), instance);
      ghost var before := routes;
      for n := 0 to |changes|
        invariant routes == ApplyEntries(before, changes[..n])
      {
        assert changes[..n + 1][..n] == changes[..n];
        if changes[n].replicas == [] {
          routes := routes - {changes[n].key};
        } else {
          routes := routes[changes[n].key := changes[n].replicas];
        }
      }
      assert changes[..|changes|] == changes;
      history := history + [Revision(previous, version, changes)];
      ghost var longer := history;
      while |history| > historyLimit
        invariant TrimHistory(history, historyLimit) == TrimHistory(longer, historyLimit)
      {
        history := history[1..];
      }
      topologies := topologies[instance := InstanceTopology(version, routes, history)];
    }

    method PublishRoutes(instance: nat, affected: set<ExpertKey>, reply: StoreReply) returns (r: Result<bool, ControllerError>)
      modifies this`topologies, store
      ensures Outcome(Mem(), store.View(), r) == Publish(old(Mem()), old(store.View()), instance, affected, reply)
    {
      var changes := ComputeChanges(instance, affected);
      if changes == [] { return Ok(false); }
      var version := store.AdvanceTopologyVersion(instance, Version(Mem(), instance), reply);
      if version.None? { return Err(Persistence); }
      InstallTopology(instance, version.value, changes);
      return Ok(true);
    }

    /** Replace one record and publish; a failed publication puts the old record back. */
    method PutAndPublish(w: string, worker: WorkerRecord, instance: nat, affected: set<ExpertKey>, reply: StoreReply)
      returns (r: Result<bool, ControllerError>)
      modifies this`workers, this`topologies, store
      ensures var p := Publish(PutWorker(old(Mem()), w, worker), old(store.View()), instance, affected, reply);
              r == p.reply && store.View() == p.store && Mem() == if p.reply.Ok? then p.mem else old(Mem())
    {
      ghost var before := workers;
      var previous := if w in workers then Some(workers[w]) else None;
      workers := workers[w := worker];
      r := PublishRoutes(instance, affected, reply);
      if r.Err? {
        workers := workers - {w};
        if previous.Some? { workers := workers[w := previous.value]; }
        UndoInsert(before, w, worker);
      }
    }

    /** Every step ends by noting what it issued. */
    ghost method Note()
      requires StepOk(Mem(), store.View(), issued)
      modifies this`issued
      ensures Valid() && issued == Observe(old(issued), Mem())
    {
      issued := Observe(issued, Mem());
    }

    // -------------------------------------------------------------- steps

    method RegisterWorker(r: Registration, reply: StoreReply) returns (answer: Result<RegisterReply, ControllerError>)
      requires Valid()
      modifies this, store
      ensures Valid() && issued == Observe(old(issued), Mem())
      ensures Outcome(Mem(), store.View(), answer) == Register(old(Mem()), old(store.View()), r, reply)
    {
      RegisterKeepsInv(Mem(), store.View(), issued, r, reply);
      answer := DoRegister(r, reply);
      Note();
    }

    method DoRegister(r: Registration, reply: StoreReply) returns (answer: Result<RegisterReply, ControllerError>)
      modifies this`workers, this`topologies, store
      ensures Outcome(Mem(), store.View(), answer) == Register(old(Mem()), old(store.View()), r, reply)
    {
      var w := r.workerId;
      if !ValidRegistration(r) { return Err(InvalidRegistration); }
      if w in workers && workers[w].registration.startId == r.startId {
        if workers[w].registration != r { return Err(InvalidRegistration); }
        return Ok(RegisterReply(Version(Mem(), r.instance), workers[w].generation, None));
      }
      var (generation, targets) := Inherited(Mem(), r);
      var record := NewRecord(r, generation, targets);
      if w !in workers {
        workers := workers[w := record];
        return Ok(RegisterReply(Version(Mem(), r.instance), generation, None));
      }
      var replaced := workers[w];
      var published := PutAndPublish(w, record, replaced.registration.instance, ReadyKeys(replaced), reply);
      if published.Err? { return Err(published.error); }
      return Ok(RegisterReply(Version(Mem(), r.instance), generation, Some(replaced.registration.startId)));
    }

    method OpenHeartbeatStream(w: string, s: string) returns (answer: Result<nat, ControllerError>)
      requires Valid()
      modifies this
      ensures Valid() && issued == Observe(old(issued), Mem())
      ensures Outcome(Mem(), store.View(), answer) == OpenHeartbeat(old(Mem()), old(store.View()), w, s)
    {
      OpenHeartbeatKeepsInv(Mem(), store.View(), issued, w, s);
      var bad := CheckStart(Mem(), w, s);
      if bad.Some? {
        answer := Err(bad.value);
      } else {
        nextLease := NextCounter(nextLease);
        workers := workers[w := workers[w].(lease := nextLease, leaseOpen := true)];
        answer := Ok(nextLease);
      }
      Note();
    }

    method ReceiveHeartbeat(w: string, s: string, lease: nat, sequence: nat, runState: RunState, reply: StoreReply)
      returns (answer: Result<bool, ControllerError>)
      requires Valid()
      modifies this, store
      ensures Valid() && issued == Observe(old(issued), Mem())
      ensures Outcome(Mem(), store.View(), answer)
              == Heartbeat(old(Mem()), old(store.View()), w, s, lease, sequence, runState, reply)
    {
      HeartbeatKeepsInv(Mem(), store.View(), issued, w, s, lease, sequence, runState, reply);
      answer := DoHeartbeat(w, s, lease, sequence, runState, reply);
      Note();
    }

    method DoHeartbeat(w: string, s: string, lease: nat, sequence: nat, runState: RunState, reply: StoreReply)
      returns (answer: Result<bool, ControllerError>)
      modifies this`workers, this`topologies, store
      ensures Outcome(Mem(), store.View(), answer)
              == Heartbeat(old(Mem()), old(store.View()), w, s, lease, sequence, runState, reply)
    {
      if runState.UnspecifiedRunState? { return Err(InvalidHeartbeatState); }
      var bad := CheckStart(Mem(), w, s);
      if bad.Some? { return Err(bad.value); }
      var worker := workers[w];
      var refusal := HeartbeatRefusal(worker, lease, sequence, runState);
      if refusal.Some? { return refusal.value; }
      var becameLive := !worker.live;
      var beating := worker.(live := true, lastHeartbeat := Some(sequence), runState := runState);
      if becameLive {
        var published := PutAndPublish(w, beating, worker.registration.instance, ReadyKeys(worker), reply);
        if published.Err? { return Err(published.error); }
      } else {
        workers := workers[w := beating];
      }
      return Ok(true);
    }

    method CloseHeartbeatStream(w: string, s: string, lease: nat, reply: StoreReply) returns (answer: Result<bool, ControllerError>)
      requires Valid()
      modifies this, store
      ensures Valid() && issued == Observe(old(issued), Mem())
      ensures Outcome(Mem(), store.View(), answer) == CloseHeartbeat(old(Mem()), old(store.View()), w, s, lease, reply)
    {
      CloseHeartbeatKeepsInv(Mem(), store.View(), issued, w, s, lease, reply);
      answer := DoCloseHeartbeat(w, s, lease, reply);
      Note();
    }

    method DoCloseHeartbeat(w: string, s: string, lease: nat, reply: StoreReply) returns (answer: Result<bool, ControllerError>)
      modifies this`workers, this`topologies, store
      ensures Outcome(Mem(), store.View(), answer) == CloseHeartbeat(old(Mem()), old(store.View()), w, s, lease, reply)
    {
      var bad := CheckStart(Mem(), w, s);
      if bad.Some? { return Err(bad.value); }
      var worker := workers[w];
      if worker.lease != lease || !worker.leaseOpen { return Ok(false); }
      var closed := worker.(leaseOpen := false, live := false);
      var published := PutAndPublish(w, closed, worker.registration.instance, ReadyKeys(worker), reply);
      if published.Err? { return Err(published.error); }
      return Ok(true);
    }

    method ReplaceTargets(w: string, s: string, targets: seq<TargetExpert>, save: StoreReply, advance: StoreReply)
      returns (answer: Result<PlacementReply, ControllerError>)
      requires Valid()
      modifies this, store
      ensures Valid() && issued == Observe(old(issued), Mem())
      ensures Outcome(Mem(), store.View(), answer)
              == SetTargets(old(Mem()), old(store.View()), w, s, targets, save, advance)
    {
      SetTargetsKeepsInv(Mem(), store.View(), issued, w, s, targets, save, advance);
      var bad := CheckStart(Mem(), w, s);
      if bad.Some? {
        answer := Err(bad.value);
      } else {
        answer := DoChangeTargets(w, NormalizeTargets(targets), save, advance);
      }
      Note();
    }

    method DoChangeTargets(w: string, targets: map<ExpertKey, Target>, save: StoreReply, advance: StoreReply)
      returns (answer: Result<PlacementReply, ControllerError>)
      requires w in workers
      modifies this`workers, this`topologies, this`persisted, this`nextDrainId, store
      ensures Outcome(Mem(), store.View(), answer) == ChangeTargets(old(Mem()), old(store.View()), w, targets, save, advance)
    {
      var refusal := TargetsRefusal(Mem(), w, targets);
      if refusal.Some? { return refusal.value; }
      var placement := NextPlacement(workers[w], targets);
      var saved := store.Save(w, placement, save);
      if !saved { return Err(Persistence); }
      answer := DoPlaceTargets(w, placement, advance);
    }

    /** Move one record and the placement cache and publish; a failed publication restores both. */
    method MoveTargets(w: string, placement: Placement, advance: StoreReply) returns (r: Result<bool, ControllerError>)
      requires w in workers
      modifies this`workers, this`topologies, this`persisted, store
      ensures var worker := old(workers[w]);
              var p := Publish(Moved(old(Mem()), w, placement), old(store.View()), worker.registration.instance,
                               worker.targets.Keys + placement.targets.Keys, advance);
              r == p.reply && store.View() == p.store && Mem() == if p.reply.Ok? then p.mem else old(Mem())
    {
      var worker := workers[w];
      ghost var cached := persisted;
      var previous := if w in persisted then Some(persisted[w]) else None;
      persisted := persisted[w := placement];
      var moved := worker.(generation := placement.generation, targets := placement.targets);
      assert PutWorker(Mem(), w, moved) == Moved(old(Mem()), w, placement);
      r := PutAndPublish(w, moved, worker.registration.instance, worker.targets.Keys + placement.targets.Keys, advance);
      if r.Err? {
        persisted := if previous.Some? then persisted[w := previous.value] else persisted - {w};
        UndoInsert(cached, w, placement);
      }
    }

    /** Install a saved placement and drain what it no longer holds. */
    method DoPlaceTargets(w: string, placement: Placement, advance: StoreReply)
      returns (answer: Result<PlacementReply, ControllerError>)
      requires w in workers
      modifies this`workers, this`topologies, this`persisted, this`nextDrainId, store
      ensures var worker := old(workers[w]);
              var p := Publish(Moved(old(Mem()), w, placement), old(store.View()), worker.registration.instance,
                               worker.targets.Keys + placement.targets.Keys, advance);
              Outcome(Mem(), store.View(), answer) == PlaceEnd(old(Mem()), p, w, placement)
    {
      var worker := workers[w];
      var published := MoveTargets(w, placement, advance);
      if published.Err? { return Err(published.error); }
      Redrain(w, DrainedBy(worker, placement.targets));
      return Ok(PlacementReply(placement.generation, true, TargetList(placement.targets)));
    }

    /** Close the unfinished expert drains and issue one for what must drain now. */
    method Redrain(w: string, experts: set<ExpertKey>)
      requires w in workers
      modifies this`workers, this`nextDrainId
      ensures Mem() == ReissueDrain(old(Mem()), w, experts)
    {
      var worker := workers[w];
      var drains := worker.drains;
      for n := 0 to |drains|
        invariant |drains| == |worker.drains|
        invariant forall k :: 0 <= k < |drains| ==>
                    drains[k] == if k < n then CloseExpertDrains(worker.drains)[k] else worker.drains[k]
      {
        if !drains[n].completed && !drains[n].stopAll {
          drains := drains[n := drains[n].(completed := true)];
        }
      }
      assert drains == CloseExpertDrains(worker.drains);
      if experts != {} {
        nextDrainId := NextCounter(nextDrainId);
        drains := drains + [Drain(nextDrainId, worker.generation, Version(Mem(), worker.registration.instance), false, experts, false)];
      }
      workers := workers[w := worker.(drains := drains)];
    }

    method ReceiveStateReport(w: string, s: string, generation: nat, sequence: nat, full: bool, states: seq<ReportedState>,
                              reply: StoreReply) returns (answer: Result<bool, ControllerError>)
      requires Valid()
      modifies this, store
      ensures Valid() && issued == Observe(old(issued), Mem())
      ensures Outcome(Mem(), store.View(), answer)
              == StateReport(old(Mem()), old(store.View()), w, s, generation, sequence, full, states, reply)
    {
      StateReportKeepsInv(Mem(), store.View(), issued, w, s, generation, sequence, full, states, reply);
      var normalized := NormalizeStates(states);
      var bad := CheckStart(Mem(), w, s);
      if normalized.None? {
        answer := Err(InvalidExpertState);
      } else if bad.Some? {
        answer := Err(bad.value);
      } else {
        answer := DoApplyReport(w, generation, Report(sequence, full, normalized.value), reply);
      }
      Note();
    }

    method DoApplyReport(w: string, generation: nat, report: Report, reply: StoreReply)
      returns (answer: Result<bool, ControllerError>)
      requires w in workers
      modifies this`workers, this`topologies, store
      ensures Outcome(Mem(), store.View(), answer) == ApplyReport(old(Mem()), old(store.View()), w, generation, report, reply)
    {
      var worker := workers[w];
      var refusal := ReportRefusal(worker, generation, report);
      if refusal.Some? { return refusal.value; }
      var affected := if report.full then worker.states.Keys else {};
      affected := affected + report.states.Keys;
      var states := if report.full then map[] else worker.states;
      states := states + report.states;
      assert states == ReportedRecord(worker, report).states;
      var published := PutAndPublish(w, worker.(states := states, lastReport := Some(report)), worker.registration.instance, affected, reply);
      if published.Err? { return Err(published.error); }
      return Ok(true);
    }

    method AuthorizeDrains(w: string, s: string, reply: StoreReply) returns (answer: Result<seq<Drain>, ControllerError>)
      requires Valid()
      modifies this, store
      ensures Valid() && issued == Observe(old(issued), Mem())
      ensures Outcome(Mem(), store.View(), answer) == DrainAuthorizations(old(Mem()), old(store.View()), w, s, reply)
    {
      DrainAuthorizationsKeepsInv(Mem(), store.View(), issued, w, s, reply);
      answer := DoAuthorizeDrains(w, s, reply);
      Note();
    }

    method DoAuthorizeDrains(w: string, s: string, reply: StoreReply) returns (answer: Result<seq<Drain>, ControllerError>)
      modifies this`workers, this`topologies, this`nextDrainId, store
      ensures Outcome(Mem(), store.View(), answer) == DrainAuthorizations(old(Mem()), old(store.View()), w, s, reply)
    {
      var bad := CheckStart(Mem(), w, s);
      if bad.Some? { return Err(bad.value); }
      if ShutdownDue(Mem(), w) {
        answer := DoShutdown(w, reply);
      } else {
        answer := Ok(Unfinished(workers[w].drains));
      }
    }

    method DoShutdown(w: string, reply: StoreReply) returns (answer: Result<seq<Drain>, ControllerError>)
      requires w in workers
      modifies this`workers, this`topologies, this`nextDrainId, store
      ensures var worker := old(workers[w]);
              var p := Publish(PutWorker(old(Mem()), w, worker.(included := false)), old(store.View()),
                               worker.registration.instance, ReadyKeys(worker), reply);
              Outcome(Mem(), store.View(), answer) == ShutdownEnd(old(Mem()), p, w)
    {
      var worker := workers[w];
      var experts := ReadyKeys(worker);
      var published := PutAndPublish(w, worker.(included := false), worker.registration.instance, experts, reply);
      if published.Err? { return Err(published.error); }
      nextDrainId := NextCounter(nextDrainId);
      var drains := worker.drains
        + [Drain(nextDrainId, worker.generation, Version(Mem(), worker.registration.instance), true, experts, false)];
      workers := workers[w := worker.(included := false, drains := drains)];
      return Ok(Unfinished(drains));
    }

    method FinishDrain(w: string, s: string, id: nat, reply: StoreReply) returns (answer: Result<bool, ControllerError>)
      requires Valid()
      modifies this, store
      ensures Valid() && issued == Observe(old(issued), Mem())
      ensures Outcome(Mem(), store.View(), answer) == CompleteDrain(old(Mem()), old(store.View()), w, s, id, reply)
    {
      CompleteDrainKeepsInv(Mem(), store.View(), issued, w, s, id, reply);
      answer := DoFinishDrain(w, s, id, reply);
      Note();
    }

    method DoFinishDrain(w: string, s: string, id: nat, reply: StoreReply) returns (answer: Result<bool, ControllerError>)
      modifies this`workers, this`topologies, store
      ensures Outcome(Mem(), store.View(), answer) == CompleteDrain(old(Mem()), old(store.View()), w, s, id, reply)
    {
      var bad := CheckStart(Mem(), w, s);
      if bad.Some? { return Err(bad.value); }
      var worker := workers[w];
      var found := FindDrain(worker.drains, id);
      if found.None? { return Err(UnknownDrain(id)); }
      var drain := worker.drains[found.value];
      if drain.completed { return Ok(false); }
      var drains := worker.drains[found.value := drain.(completed := true)];
      if !drain.stopAll {
        workers := workers[w := worker.(drains := drains)];
        return Ok(true);
      }
      var published := PutAndPublish(w, worker.(drains := drains, live := false), worker.registration.instance, ReadyKeys(worker), reply);
      if published.Err? { return Err(published.error); }
      return Ok(true);
    }

    // -------------------------------------------------------------- topology stream

    /** Deltas when the kept history reaches the current version, else a snapshot. */
    method MessagesSince(instance: nat, current: nat) returns (answer: Result<seq<Message>, ControllerError>)
      ensures answer == TopologyMessages(Mem(), instance, current)
    {
      if instance !in topologies {
        if current > 0 { return Err(FutureTopologyVersion(0, current)); }
        return Ok(SnapshotMessages(instance, 0, map[]));
      }
      var topology := topologies[instance];
      if current > topology.version { return Err(FutureTopologyVersion(topology.version, current)); }
      if current == topology.version { return Ok([]); }
      var cursor, revisions := current, [];
      var history := topology.history;
      for n := 0 to |history|
        invariant (cursor, revisions) == FollowHistory(history[..n], current)
      {
        assert history[..n + 1][..n] == history[..n];
        if history[n].previous == cursor {
          revisions := revisions + [history[n]];
          cursor := history[n].version;
        }
      }
      assert history[..|history|] == history;
      if cursor == topology.version { return Ok(ConcatUpdates(instance, revisions)); }
      return Ok(SnapshotMessages(instance, topology.version, topology.routes));
    }
  }
}
