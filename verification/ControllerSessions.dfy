/** One process start, seen over a whole run: what the Controller records about it only moves forward. */
module ControllerSessions {
  import opened Topology
  import opened ControllerState
  import opened ControllerRuns
  import G = ControllerGuarantees

  ghost predicate NotBack(before: Option<nat>, after: Option<nat>) {
    before.Some? ==> after.Some? && before.value <= after.value
  }

  function ReportNumber(worker: WorkerRecord): Option<nat> {
    if worker.lastReport.Some? then Some(worker.lastReport.value.sequence) else None
  }

  ghost predicate DrainForward(before: Drain, after: Drain) {
    after == before || after == before.(completed := true)
  }

  /** Heartbeats, reports and generations never go back, a shutdown is final, a withdrawn Worker stays
      withdrawn, and drains are only added and completed. */
  ghost predicate Forward(before: WorkerRecord, after: WorkerRecord) {
    && after.registration == before.registration
    && NotBack(before.lastHeartbeat, after.lastHeartbeat)
    && NotBack(ReportNumber(before), ReportNumber(after))
    && before.generation <= after.generation
    && (before.runState.ShuttingDown? ==> after.runState.ShuttingDown?)
    && (!before.included ==> !after.included)
    && |before.drains| <= |after.drains|
    && (forall i :: 0 <= i < |before.drains| ==> DrainForward(before.drains[i], after.drains[i]))
  }

  /** Every known Worker stays known, and one whose start did not change moved forward. */
  ghost predicate AllForward(before: map<string, WorkerRecord>, after: map<string, WorkerRecord>) {
    forall w :: w in before ==>
                  w in after && (after[w].registration.startId == before[w].registration.startId ==> Forward(before[w], after[w]))
  }

  /** A live Worker has been heard from. */
  ghost predicate HeardFrom(workers: map<string, WorkerRecord>) {
    forall w :: w in workers && workers[w].live ==> workers[w].lastHeartbeat.Some?
  }

  ghost predicate StepForward(before: map<string, WorkerRecord>, after: map<string, WorkerRecord>) {
    AllForward(before, after) && (HeardFrom(before) ==> HeardFrom(after))
  }

  lemma StandStill(workers: map<string, WorkerRecord>)
    ensures StepForward(workers, workers)
  {
  }

  /** Replacing one record. */
  lemma PutForward(workers: map<string, WorkerRecord>, w: string, record: WorkerRecord)
    requires w in workers ==> workers[w].registration.startId != record.registration.startId || Forward(workers[w], record)
    requires record.live ==> record.lastHeartbeat.Some? || (w in workers && workers[w].live && record.lastHeartbeat == workers[w].lastHeartbeat)
    ensures StepForward(workers, workers[w := record])
  {
  }

  lemma CommitForward(mem: Memory, store: StoreState, w: string, record: WorkerRecord, instance: nat, affected: set<ExpertKey>, reply: StoreReply)
    requires StepForward(mem.workers, mem.workers[w := record])
    ensures StepForward(mem.workers, CommitOr(mem, Publish(PutWorker(mem, w, record), store, instance, affected, reply)).mem.workers)
  {
    StandStill(mem.workers);
  }

  lemma RegisterForward(mem: Memory, store: StoreState, r: Registration, reply: StoreReply)
    ensures StepForward(mem.workers, Register(mem, store, r, reply).mem.workers)
  {
    StandStill(mem.workers);
    var (generation, targets) := Inherited(mem, r);
    var record := NewRecord(r, generation, targets);
    if r.workerId !in mem.workers || mem.workers[r.workerId].registration.startId != r.startId {
      PutForward(mem.workers, r.workerId, record);
    }
  }

  lemma OpenHeartbeatForward(mem: Memory, store: StoreState, w: string, s: string)
    ensures StepForward(mem.workers, OpenHeartbeat(mem, store, w, s).mem.workers)
  {
    StandStill(mem.workers);
    if CheckStart(mem, w, s).None? {
      PutForward(mem.workers, w, mem.workers[w].(lease := NextCounter(mem.nextLease), leaseOpen := true));
    }
  }

  lemma HeartbeatForward(mem: Memory, store: StoreState, w: string, s: string, lease: nat, sequence: nat, runState: RunState, reply: StoreReply)
    ensures StepForward(mem.workers, Heartbeat(mem, store, w, s, lease, sequence, runState, reply).mem.workers)
  {
    StandStill(mem.workers);
    if CheckStart(mem, w, s).None? && HeartbeatRefusal(mem.workers[w], lease, sequence, runState).None? {
      var worker := mem.workers[w];
      var beating := worker.(live := true, lastHeartbeat := Some(sequence), runState := runState);
      PutForward(mem.workers, w, beating);
      CommitForward(mem, store, w, beating, worker.registration.instance, ReadyKeys(worker), reply);
    }
  }

  lemma CloseHeartbeatForward(mem: Memory, store: StoreState, w: string, s: string, lease: nat, reply: StoreReply)
    ensures StepForward(mem.workers, CloseHeartbeat(mem, store, w, s, lease, reply).mem.workers)
  {
    StandStill(mem.workers);
    if CheckStart(mem, w, s).None? {
      var worker := mem.workers[w];
      var closed := worker.(leaseOpen := false, live := false);
      PutForward(mem.workers, w, closed);
      CommitForward(mem, store, w, closed, worker.registration.instance, ReadyKeys(worker), reply);
    }
  }

  lemma ApplyReportForward(mem: Memory, store: StoreState, w: string, generation: nat, report: Report, reply: StoreReply)
    requires w in mem.workers
    ensures StepForward(mem.workers, ApplyReport(mem, store, w, generation, report, reply).mem.workers)
  {
    StandStill(mem.workers);
    var worker := mem.workers[w];
    if ReportRefusal(worker, generation, report).None? {
      PutForward(mem.workers, w, ReportedRecord(worker, report));
      CommitForward(mem, store, w, ReportedRecord(worker, report), worker.registration.instance, ReportedKeys(worker, report), reply);
    }
  }

  lemma ShutdownForward(mem: Memory, p: Outcome<bool>, w: string)
    requires w in mem.workers && p.mem.workers == mem.workers[w := mem.workers[w].(included := false)]
    ensures StepForward(mem.workers, ShutdownEnd(mem, p, w).mem.workers)
  {
    StandStill(mem.workers);
    if p.reply.Ok? {
      var after := ShutdownEnd(mem, p, w).mem.workers;
      PutForward(mem.workers, w, after[w]);
      assert after == mem.workers[w := after[w]];
    }
  }

  lemma CompleteDrainForward(mem: Memory, store: StoreState, w: string, s: string, id: nat, reply: StoreReply)
    ensures StepForward(mem.workers, CompleteDrain(mem, store, w, s, id, reply).mem.workers)
  {
    StandStill(mem.workers);
    if CheckStart(mem, w, s).None? && FindDrain(mem.workers[w].drains, id).Some? {
      var worker := mem.workers[w];
      var n := FindDrain(worker.drains, id).value;
      var drains := worker.drains[n := worker.drains[n].(completed := true)];
      DrainsForward(worker, drains);
      PutForward(mem.workers, w, worker.(drains := drains));
      PutForward(mem.workers, w, worker.(drains := drains, live := false));
      CommitForward(mem, store, w, worker.(drains := drains, live := false), worker.registration.instance, ReadyKeys(worker), reply);
    }
  }

  lemma ReissuedForward(mem: Memory, p: Outcome<bool>, w: string, placement: Placement)
    requires w in mem.workers && mem.workers[w].generation <= placement.generation
    requires p.mem.workers == Moved(mem, w, placement).workers
    ensures StepForward(mem.workers, PlaceEnd(mem, p, w, placement).mem.workers)
  {
    StandStill(mem.workers);
    if p.reply.Ok? {
      MovedDrainsForward(mem, p.mem, w, placement, DrainedBy(mem.workers[w], placement.targets));
    }
  }

  lemma MovedDrainsForward(mem: Memory, moved: Memory, w: string, placement: Placement, experts: set<ExpertKey>)
    requires w in mem.workers && mem.workers[w].generation <= placement.generation
    requires moved.workers == Moved(mem, w, placement).workers
    ensures w in moved.workers && StepForward(mem.workers, ReissueDrain(moved, w, experts).workers)
  {
    var first, after := MovedRecord(mem.workers[w], placement), ReissueDrain(moved, w, experts).workers;
    MovedForward(mem.workers[w], placement);
    assert moved.workers == mem.workers[w := first];
    ReissuedRecord(moved, w, experts);
    PutTwiceForward(mem.workers, w, first, after[w]);
    assert after == mem.workers[w := first][w := after[w]];
  }

  function MovedRecord(worker: WorkerRecord, placement: Placement): WorkerRecord {
    worker.(generation := placement.generation, targets := placement.targets)
  }

  lemma MovedForward(worker: WorkerRecord, placement: Placement)
    requires worker.generation <= placement.generation
    ensures Forward(worker, MovedRecord(worker, placement))
  {
  }

  lemma PutTwiceForward(workers: map<string, WorkerRecord>, w: string, first: WorkerRecord, second: WorkerRecord)
    requires w in workers && Forward(workers[w], first) && Forward(first, second)
    requires second.live == workers[w].live && second.lastHeartbeat == workers[w].lastHeartbeat
    ensures StepForward(workers, workers[w := first][w := second])
  {
    ForwardJoins(workers[w], first, second);
    PutForward(workers, w, second);
    assert workers[w := first][w := second] == workers[w := second];
  }

  lemma ForwardJoins(a: WorkerRecord, b: WorkerRecord, c: WorkerRecord)
    requires Forward(a, b) && Forward(b, c)
    ensures Forward(a, c)
  {
    forall i | 0 <= i < |a.drains| ensures DrainForward(a.drains[i], c.drains[i]) {
      assert DrainForward(a.drains[i], b.drains[i]) && DrainForward(b.drains[i], c.drains[i]);
    }
  }

  /** Changing only the drains, forward. */
  lemma DrainsForward(worker: WorkerRecord, drains: seq<Drain>)
    requires |worker.drains| <= |drains|
    requires forall i :: 0 <= i < |worker.drains| ==> DrainForward(worker.drains[i], drains[i])
    ensures Forward(worker, worker.(drains := drains)) && Forward(worker, worker.(drains := drains, live := false))
  {
  }

  /** Reissuing completes old expert drains and adds at most one. */
  lemma ReissuedRecord(mem: Memory, w: string, experts: set<ExpertKey>)
    requires w in mem.workers
    ensures var after := ReissueDrain(mem, w, experts).workers;
            && w in after && after == mem.workers[w := after[w]] && Forward(mem.workers[w], after[w])
            && after[w].live == mem.workers[w].live && after[w].lastHeartbeat == mem.workers[w].lastHeartbeat
  {
    var worker := mem.workers[w];
    DrainsForward(worker, ReissueDrain(mem, w, experts).workers[w].drains);
  }

  lemma ChangeTargetsForward(mem: Memory, store: StoreState, w: string, targets: map<ExpertKey, Target>, save: StoreReply, advance: StoreReply)
    requires w in mem.workers
    ensures StepForward(mem.workers, ChangeTargets(mem, store, w, targets, save, advance).mem.workers)
  {
    StandStill(mem.workers);
    if TargetsRefusal(mem, w, targets).None? {
      var worker := mem.workers[w];
      var placement := NextPlacement(worker, targets);
      var (saved, ok) := SavePlacement(store, w, placement, save);
      ReissuedForward(mem, Publish(Moved(mem, w, placement), saved, worker.registration.instance,
                                   worker.targets.Keys + placement.targets.Keys, advance), w, placement);
    }
  }

  lemma ReportCallForward(mem: Memory, store: StoreState, a: Action)
    requires a.DoStateReport?
    ensures StepForward(mem.workers, Call(mem, store, a).0.workers)
  {
    StandStill(mem.workers);
    G.ReportEnds(mem, store, a);
    if CheckStart(mem, a.w, a.s).None? && NormalizeStates(a.states).Some? {
      ApplyReportForward(mem, store, a.w, a.generation, Report(a.sequence, a.full, NormalizeStates(a.states).value), a.reply);
    }
  }

  lemma TargetCallForward(mem: Memory, store: StoreState, a: Action)
    requires a.DoSetTargets?
    ensures StepForward(mem.workers, Call(mem, store, a).0.workers)
  {
    StandStill(mem.workers);
    if CheckStart(mem, a.w, a.s).None? { ChangeTargetsForward(mem, store, a.w, NormalizeTargets(a.targets), a.save, a.reply); }
  }

  lemma AuthorizeForward(mem: Memory, store: StoreState, w: string, s: string, reply: StoreReply)
    ensures StepForward(mem.workers, DrainAuthorizations(mem, store, w, s, reply).mem.workers)
  {
    StandStill(mem.workers);
    if CheckStart(mem, w, s).None? {
      var worker := mem.workers[w];
      ShutdownForward(mem, Publish(PutWorker(mem, w, worker.(included := false)), store, worker.registration.instance,
                                   ReadyKeys(worker), reply), w);
    }
  }

  lemma StreamCallForward(mem: Memory, store: StoreState, a: Action)
    requires a.DoRegister? || a.DoOpenHeartbeat? || a.DoHeartbeat? || a.DoCloseHeartbeat?
    ensures StepForward(mem.workers, Call(mem, store, a).0.workers)
  {
    match a
    case DoRegister(r, reply) => RegisterForward(mem, store, r, reply);
    case DoOpenHeartbeat(w, s) => OpenHeartbeatForward(mem, store, w, s);
    case DoHeartbeat(w, s, lease, n, run, reply) => HeartbeatForward(mem, store, w, s, lease, n, run, reply);
    case DoCloseHeartbeat(w, s, lease, reply) => CloseHeartbeatForward(mem, store, w, s, lease, reply);
  }

  /** Every call, accepted, refused or rolled back, moves each process start forward. */
  lemma CallForward(mem: Memory, store: StoreState, a: Action)
    requires !a.DoRestart?
    ensures StepForward(mem.workers, Call(mem, store, a).0.workers)
  {
    if a.DoSetTargets? {
      TargetCallForward(mem, store, a);
    } else if a.DoStateReport? {
      ReportCallForward(mem, store, a);
    } else if a.DoDrainAuthorizations? {
      AuthorizeForward(mem, store, a.w, a.s, a.reply);
    } else if a.DoCompleteDrain? {
      CompleteDrainForward(mem, store, a.w, a.s, a.id, a.reply);
    } else {
      StreamCallForward(mem, store, a);
    }
  }

  /** A run in which the process runs on and Worker `w` is not taken over by another start. */
  ghost predicate KeepsStart(actions: seq<Action>, w: string, startId: string) {
    forall i :: 0 <= i < |actions| ==>
                  && !actions[i].DoRestart?
                  && (actions[i].DoRegister? && actions[i].registration.workerId == w ==> actions[i].registration.startId == startId)
  }

  lemma RegisterKeepsStart(mem: Memory, store: StoreState, r: Registration, reply: StoreReply, w: string)
    requires w in mem.workers && (r.workerId == w ==> r.startId == mem.workers[w].registration.startId)
    ensures var after := Register(mem, store, r, reply).mem.workers;
            w in after && after[w].registration.startId == mem.workers[w].registration.startId
  {
    G.RegisterHandsFloor(mem, store, r, reply);
  }

  /** Only a registration can bring another start. */
  lemma StartStays(mem: Memory, store: StoreState, a: Action, w: string)
    requires !a.DoRestart? && w in mem.workers
    requires a.DoRegister? && a.registration.workerId == w ==> a.registration.startId == mem.workers[w].registration.startId
    ensures w in Call(mem, store, a).0.workers
    ensures Call(mem, store, a).0.workers[w].registration.startId == mem.workers[w].registration.startId
  {
    if a.DoRegister? {
      RegisterKeepsStart(mem, store, a.registration, a.reply, w);
    } else {
      RegistrationsStay(mem, store, a, w);
    }
  }

  lemma RegistrationsStay(mem: Memory, store: StoreState, a: Action, w: string)
    requires !a.DoRestart? && !a.DoRegister? && w in mem.workers
    ensures w in Call(mem, store, a).0.workers && Call(mem, store, a).0.workers[w].registration == mem.workers[w].registration
  {
    if a.DoSetTargets? {
      if CheckStart(mem, a.w, a.s).None? { TargetsKeepRegistration(mem, store, a.w, NormalizeTargets(a.targets), a.save, a.reply, w); }
    } else {
      G.OtherCallsAreSame(mem, store, a, w);
    }
  }

  lemma TargetsKeepRegistration(mem: Memory, store: StoreState, v: string, targets: map<ExpertKey, Target>, save: StoreReply,
                                advance: StoreReply, w: string)
    requires v in mem.workers && w in mem.workers
    ensures var after := ChangeTargets(mem, store, v, targets, save, advance).mem.workers;
            w in after && after[w].registration == mem.workers[w].registration
  {
    if TargetsRefusal(mem, v, targets).None? {
      var placement := NextPlacement(mem.workers[v], targets);
      PlacedKeepsRegistration(mem, SavePlacement(store, v, placement, save).0, v, placement, advance, w);
    }
  }

  lemma PlacedKeepsRegistration(mem: Memory, store: StoreState, v: string, placement: Placement, advance: StoreReply, w: string)
    requires v in mem.workers && w in mem.workers
    ensures var after := PlaceTargets(mem, store, v, placement, advance).mem.workers;
            w in after && after[w].registration == mem.workers[w].registration
  {
    G.PlaceTargetsMoves(mem, store, v, placement, advance);
  }

  /** Over a whole run, what is recorded about one process start moves forward. */
  lemma {:induction false} RunForward(sys: System, actions: seq<Action>, w: string)
    requires sys.mem.Some? && w in sys.mem.value.workers
    requires KeepsStart(actions, w, sys.mem.value.workers[w].registration.startId)
    ensures var mem := Run(sys, actions).mem;
            mem.Some? && w in mem.value.workers && Forward(sys.mem.value.workers[w], mem.value.workers[w])
    decreases |actions|
  {
    if actions != [] {
      var front, last := actions[..|actions| - 1], actions[|actions| - 1];
      RunForward(sys, front, w);
      var before := Run(sys, front);
      CallForward(before.mem.value, before.store, last);
      StartStays(before.mem.value, before.store, last, w);
      ForwardJoins(sys.mem.value.workers[w], before.mem.value.workers[w], Run(sys, actions).mem.value.workers[w]);
    }
  }

  /** In every reachable state a live Worker has been heard from. */
  lemma {:induction false} ReachableHeardFrom(limit: nat, actions: seq<Action>)
    ensures var mem := Run(Boot(limit), actions).mem; mem.Some? ==> HeardFrom(mem.value.workers)
    decreases |actions|
  {
    if actions != [] {
      var before, last := Run(Boot(limit), actions[..|actions| - 1]), actions[|actions| - 1];
      ReachableHeardFrom(limit, actions[..|actions| - 1]);
      if last.DoRestart? {
        Restored(before.store, last.historyLimit, last.order, last.replies);
      } else if before.mem.Some? {
        CallForward(before.mem.value, before.store, last);
      }
    }
  }
}
