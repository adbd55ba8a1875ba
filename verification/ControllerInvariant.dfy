/** The Controller invariant and its preservation by every step, including steps whose durable
    write fails. */
module ControllerInvariant {
  import opened Topology
  import opened ControllerState
  import opened ControllerRoutes
  import opened ControllerLog
  import opened ControllerDrains

  ghost predicate Inv(mem: Memory, store: StoreState, issued: Issued) {
    && Keyed(mem.workers)
    && RoutesExact(mem)
    && LogOk(mem, store, issued)
    && DrainsOk(mem.workers, issued)
  }

  /** The state after a step is good, and no issued version changed its meaning. */
  ghost predicate StepOk(mem: Memory, store: StoreState, issued: Issued) {
    && Inv(mem, store, Observe(issued, mem))
    && Extends(Observe(issued, mem), issued)
  }

  // ---------------------------------------------------------------- building blocks

  lemma LogIgnoresRecords(mem: Memory, other: Memory, store: StoreState, issued: Issued)
    requires other.topologies == mem.topologies && other.historyLimit == mem.historyLimit
    ensures LogOk(mem, store, issued) ==> LogOk(other, store, issued)
    ensures Observe(issued, other) == Observe(issued, mem)
    ensures forall i :: Routes(other, i) == Routes(mem, i) && Version(other, i) == Version(mem, i)
  {
  }

  lemma UnchangedIsOk(mem: Memory, store: StoreState, issued: Issued)
    requires Inv(mem, store, issued)
    ensures StepOk(mem, store, issued)
  {
    ObserveAgain(mem, store, issued);
    ExtendsItself(issued);
  }

  /** A failed publication leaves the memory of the step's start, which is still good. */
  lemma FailedPublishIsOk(mem: Memory, next: Memory, store: StoreState, issued: Issued, instance: nat,
                          affected: set<ExpertKey>, reply: StoreReply)
    requires Inv(mem, store, issued)
    ensures StepOk(mem, Publish(next, store, instance, affected, reply).store, issued)
  {
    var stored := Publish(next, store, instance, affected, reply).store;
    StoredVersionsGrow(next, store, instance, affected, reply);
    LogWithLargerStore(mem, store, stored, issued);
    UnchangedIsOk(mem, stored, issued);
  }

  lemma OtherDrainsOk(mem: Memory, issued: Issued, w: string, worker: WorkerRecord)
    requires DrainsOk(mem.workers, issued)
    requires WorkerDrainsOk(worker, Known(issued, worker.registration.instance))
    ensures DrainsOk(PutWorker(mem, w, worker).workers, issued)
  {
  }

  lemma OtherKeyed(mem: Memory, w: string, worker: WorkerRecord)
    requires Keyed(mem.workers) && worker.registration.workerId == w && ValidRegistration(worker.registration)
    ensures Keyed(PutWorker(mem, w, worker).workers)
  {
  }

  /** A published state with good records is good. */
  lemma PublishedIsOk(after: Memory, store: StoreState, issued: Issued, instance: nat)
    requires Keyed(after.workers) && RoutesExact(after) && DrainsOk(after.workers, issued)
    requires LogStep(issued, after, store, instance)
    ensures StepOk(after, store, issued)
  {
    forall w | w in after.workers
      ensures WorkerDrainsOk(after.workers[w], Known(Observe(issued, after), after.workers[w].registration.instance))
    {
      DrainsSurvivePublish(after, store, issued, instance, w);
    }
  }

  /** Replacing one record and publishing the experts this disturbs. */
  lemma CommitRecord(mem: Memory, store: StoreState, issued: Issued, w: string, worker: WorkerRecord, instance: nat,
                     affected: set<ExpertKey>, reply: StoreReply)
    requires Inv(mem, store, issued)
    requires worker.registration.workerId == w && ValidRegistration(worker.registration)
    requires SettledExcept(PutWorker(mem, w, worker), instance, affected) && NoEmptyRoutes(PutWorker(mem, w, worker))
    requires WorkerDrainsOk(worker, Known(issued, worker.registration.instance))
    ensures var p := Publish(PutWorker(mem, w, worker), store, instance, affected, reply);
            p.reply.Ok? ==> StepOk(p.mem, p.store, issued)
  {
    var next := PutWorker(mem, w, worker);
    var p := Publish(next, store, instance, affected, reply);
    OtherKeyed(mem, w, worker);
    OtherDrainsOk(mem, issued, w, worker);
    LogIgnoresRecords(mem, next, store, issued);
    if p.reply.Ok? {
      PublishShape(next, store, instance, affected, reply);
      PublishMakesExact(next, store, instance, affected, reply);
      PublishKeepsLog(next, store, issued, instance, affected, reply);
      PublishedIsOk(p.mem, p.store, issued, instance);
    }
  }

  /** Replacing one record without touching what it serves needs no publication. */
  lemma QuietRecord(mem: Memory, store: StoreState, issued: Issued, w: string, worker: WorkerRecord)
    requires Inv(mem, store, issued)
    requires worker.registration.workerId == w && ValidRegistration(worker.registration)
    requires ServesSameExcept(mem.workers, w, worker, 0, {})
    requires WorkerDrainsOk(worker, Known(issued, worker.registration.instance))
    ensures Inv(PutWorker(mem, w, worker), store, issued)
  {
    var next := PutWorker(mem, w, worker);
    OtherKeyed(mem, w, worker);
    OtherDrainsOk(mem, issued, w, worker);
    LogIgnoresRecords(mem, next, store, issued);
    NothingChanged(mem, next, w, worker);
  }

  /** Counters and loaded placements carry no obligation. */
  lemma CountersAreFree(mem: Memory, store: StoreState, issued: Issued, persisted: map<string, Placement>, lease: nat, drain: nat)
    requires Inv(mem, store, issued)
    ensures Inv(mem.(persisted := persisted, nextLease := lease, nextDrainId := drain), store, issued)
  {
    var next := mem.(persisted := persisted, nextLease := lease, nextDrainId := drain);
    LogIgnoresRecords(mem, next, store, issued);
    forall i, key ensures ReplicasAt(Routes(next, i), key) == Replicas(next.workers, i, key) {
      assert ReplicasAt(Routes(mem, i), key) == Replicas(mem.workers, i, key);
    }
    forall i ensures NoEmptyRoute(Routes(next, i)) { assert NoEmptyRoute(Routes(mem, i)); }
  }

  lemma NewestByLog(mem: Memory, store: StoreState, issued: Issued, instance: nat)
    requires LogOk(mem, store, issued)
    ensures Newest(mem, instance, Known(issued, instance))
  {
    VersionIsKnown(mem, store, issued, instance);
  }

  /** Issuing one more drain at the current version. */
  lemma IssueDrain(mem: Memory, store: StoreState, issued: Issued, w: string, d: Drain)
    requires Inv(mem, store, issued) && w in mem.workers
    requires DrainShape(d, mem.workers[w]) && d.minVersion == Version(mem, mem.workers[w].registration.instance)
    requires IsOpenExpertDrain(d) ==> forall i :: 0 <= i < |mem.workers[w].drains| ==> !IsOpenExpertDrain(mem.workers[w].drains[i])
    ensures Inv(PutWorker(mem, w, mem.workers[w].(drains := mem.workers[w].drains + [d])), store, issued)
  {
    var worker := mem.workers[w];
    var known := Known(issued, worker.registration.instance);
    NewestByLog(mem, store, issued, worker.registration.instance);
    FreshDrainOk(mem, w, d, known);
    var more := worker.(drains := worker.drains + [d]);
    AppendDrainOk(worker, more, d, known);
    QuietRecord(mem, store, issued, w, more);
  }

  // ---------------------------------------------------------------- steps

  lemma RegisterKeepsInv(mem: Memory, store: StoreState, issued: Issued, r: Registration, reply: StoreReply)
    requires Inv(mem, store, issued)
    ensures var out := Register(mem, store, r, reply); StepOk(out.mem, out.store, issued)
  {
    var out := Register(mem, store, r, reply);
    var w := r.workerId;
    if out.mem == mem && out.store == store {
      UnchangedIsOk(mem, store, issued);
    } else {
      var (generation, targets) := Inherited(mem, r);
      var record := NewRecord(r, generation, targets);
      if w !in mem.workers {
        QuietRecord(mem, store, issued, w, record);
        UnchangedIsOk(out.mem, store, issued);
      } else {
        var replaced := mem.workers[w];
        OneRecordChanged(mem, PutWorker(mem, w, record), w, record, replaced.registration.instance, ReadyKeys(replaced));
        CommitRecord(mem, store, issued, w, record, replaced.registration.instance, ReadyKeys(replaced), reply);
        FailedPublishIsOk(mem, PutWorker(mem, w, record), store, issued, replaced.registration.instance, ReadyKeys(replaced), reply);
      }
    }
  }

  lemma OpenHeartbeatKeepsInv(mem: Memory, store: StoreState, issued: Issued, w: string, s: string)
    requires Inv(mem, store, issued)
    ensures var out := OpenHeartbeat(mem, store, w, s); StepOk(out.mem, out.store, issued)
  {
    var out := OpenHeartbeat(mem, store, w, s);
    if CheckStart(mem, w, s).None? {
      var lease := NextCounter(mem.nextLease);
      var counted := mem.(nextLease := lease);
      var worker := mem.workers[w].(lease := lease, leaseOpen := true);
      CountersAreFree(mem, store, issued, mem.persisted, lease, mem.nextDrainId);
      SameDrainsOk(mem.workers[w], worker, Known(issued, worker.registration.instance));
      QuietRecord(counted, store, issued, w, worker);
    }
    UnchangedIsOk(out.mem, store, issued);
  }

  /** A record that differs only in liveness and bookkeeping, published over its ready experts. */
  lemma LivenessStep(mem: Memory, store: StoreState, issued: Issued, w: string, worker: WorkerRecord, reply: StoreReply)
    requires Inv(mem, store, issued) && w in mem.workers
    requires worker.registration == mem.workers[w].registration && worker.targets == mem.workers[w].targets
    requires worker.states == mem.workers[w].states
    requires WorkerDrainsOk(worker, Known(issued, worker.registration.instance))
    ensures var p := Publish(PutWorker(mem, w, worker), store, worker.registration.instance, ReadyKeys(mem.workers[w]), reply);
            && (p.reply.Ok? ==> StepOk(p.mem, p.store, issued))
            && StepOk(mem, p.store, issued)
  {
    var instance, ready := worker.registration.instance, ReadyKeys(mem.workers[w]);
    OneRecordChanged(mem, PutWorker(mem, w, worker), w, worker, instance, ready);
    CommitRecord(mem, store, issued, w, worker, instance, ready, reply);
    FailedPublishIsOk(mem, PutWorker(mem, w, worker), store, issued, instance, ready, reply);
  }

  /** How a step ends: nothing happened, a quiet record change, a publication, or a rolled-back one. */
  ghost predicate EndsLike<T>(out: Outcome<T>, mem: Memory, store: StoreState, quiet: Memory, p: Outcome<bool>) {
    || (out.mem == mem && out.store == store)
    || (out.mem == quiet && out.store == store)
    || (p.reply.Ok? && out.mem == p.mem && out.store == p.store)
    || (out.mem == mem && out.store == p.store)
  }

  lemma EndsOk<T>(out: Outcome<T>, mem: Memory, store: StoreState, quiet: Memory, p: Outcome<bool>, issued: Issued)
    requires EndsLike(out, mem, store, quiet, p)
    requires StepOk(mem, store, issued) && StepOk(quiet, store, issued) && StepOk(mem, p.store, issued)
    requires p.reply.Ok? ==> StepOk(p.mem, p.store, issued)
    ensures StepOk(out.mem, out.store, issued)
  {
  }

  lemma BeatEnds(mem: Memory, store: StoreState, w: string, beating: WorkerRecord, reply: StoreReply)
    requires w in mem.workers
    ensures var worker, next := mem.workers[w], PutWorker(mem, w, beating);
            var p := Publish(next, store, worker.registration.instance, ReadyKeys(worker), reply);
            EndsLike(Beat(mem, store, w, beating, reply), mem, store, if worker.live then next else mem, p)
  {
    var worker, next := mem.workers[w], PutWorker(mem, w, beating);
    CommitEnds(mem, store, next, Publish(next, store, worker.registration.instance, ReadyKeys(worker), reply));
  }

  lemma HeartbeatEnds(mem: Memory, store: StoreState, w: string, s: string, lease: nat, sequence: nat,
                      runState: RunState, reply: StoreReply)
    requires CheckStart(mem, w, s).None?
    ensures var out := Heartbeat(mem, store, w, s, lease, sequence, runState, reply);
            var worker := mem.workers[w];
            var beating := worker.(live := true, lastHeartbeat := Some(sequence), runState := runState);
            (out.mem == mem && out.store == store) || out == Beat(mem, store, w, beating, reply)
  {
  }

  /** Keeping a publication or going back are two of the ends. */
  lemma CommitEnds(mem: Memory, store: StoreState, quiet: Memory, p: Outcome<bool>)
    ensures EndsLike(CommitOr(mem, p), mem, store, quiet, p) && EndsLike(CommitOr(mem, p), mem, store, mem, p)
  {
  }

  lemma BeatKeepsInv(mem: Memory, store: StoreState, issued: Issued, w: string, beating: WorkerRecord, reply: StoreReply)
    requires Inv(mem, store, issued) && w in mem.workers
    requires beating == mem.workers[w].(live := true, lastHeartbeat := beating.lastHeartbeat, runState := beating.runState)
    ensures var out := Beat(mem, store, w, beating, reply); StepOk(out.mem, out.store, issued)
  {
    var worker, next := mem.workers[w], PutWorker(mem, w, beating);
    var p := Publish(next, store, worker.registration.instance, ReadyKeys(worker), reply);
    UnchangedIsOk(mem, store, issued);
    SameDrainsOk(worker, beating, Known(issued, worker.registration.instance));
    LivenessStep(mem, store, issued, w, beating, reply);
    var quiet := if worker.live then next else mem;
    if worker.live {
      QuietRecord(mem, store, issued, w, beating);
    }
    UnchangedIsOk(quiet, store, issued);
    BeatEnds(mem, store, w, beating, reply);
    EndsOk(Beat(mem, store, w, beating, reply), mem, store, quiet, p, issued);
  }

  lemma HeartbeatKeepsInv(mem: Memory, store: StoreState, issued: Issued, w: string, s: string, lease: nat, sequence: nat,
                          runState: RunState, reply: StoreReply)
    requires Inv(mem, store, issued)
    ensures var out := Heartbeat(mem, store, w, s, lease, sequence, runState, reply); StepOk(out.mem, out.store, issued)
  {
    UnchangedIsOk(mem, store, issued);
    if CheckStart(mem, w, s).None? {
      HeartbeatEnds(mem, store, w, s, lease, sequence, runState, reply);
      BeatKeepsInv(mem, store, issued, w,
                   mem.workers[w].(live := true, lastHeartbeat := Some(sequence), runState := runState), reply);
    }
  }

  lemma CloseHeartbeatKeepsInv(mem: Memory, store: StoreState, issued: Issued, w: string, s: string, lease: nat, reply: StoreReply)
    requires Inv(mem, store, issued)
    ensures var out := CloseHeartbeat(mem, store, w, s, lease, reply); StepOk(out.mem, out.store, issued)
  {
    UnchangedIsOk(mem, store, issued);
    if CheckStart(mem, w, s).None? {
      var worker := mem.workers[w];
      var closed := worker.(leaseOpen := false, live := false);
      SameDrainsOk(worker, closed, Known(issued, worker.registration.instance));
      LivenessStep(mem, store, issued, w, closed, reply);
      var p := Publish(PutWorker(mem, w, closed), store, worker.registration.instance, ReadyKeys(worker), reply);
      EndsOk(CloseHeartbeat(mem, store, w, s, lease, reply), mem, store, mem, p, issued);
    }
  }

  lemma ReportStep(mem: Memory, store: StoreState, issued: Issued, w: string, worker: WorkerRecord, affected: set<ExpertKey>,
                   reply: StoreReply)
    requires Inv(mem, store, issued) && w in mem.workers
    requires worker == mem.workers[w].(states := worker.states, lastReport := worker.lastReport)
    requires forall key :: key !in affected ==> (IsReady(worker, key) <==> IsReady(mem.workers[w], key))
    ensures var p := Publish(PutWorker(mem, w, worker), store, worker.registration.instance, affected, reply);
            && (p.reply.Ok? ==> StepOk(p.mem, p.store, issued))
            && StepOk(mem, p.store, issued)
  {
    var instance := worker.registration.instance;
    SameDrainsOk(mem.workers[w], worker, Known(issued, instance));
    OneRecordChanged(mem, PutWorker(mem, w, worker), w, worker, instance, affected);
    CommitRecord(mem, store, issued, w, worker, instance, affected, reply);
    FailedPublishIsOk(mem, PutWorker(mem, w, worker), store, issued, instance, affected, reply);
  }

  lemma ReportEnds(mem: Memory, store: StoreState, w: string, generation: nat, report: Report, reply: StoreReply)
    requires w in mem.workers
    ensures var worker := mem.workers[w];
            var next := PutWorker(mem, w, ReportedRecord(worker, report));
            var p := Publish(next, store, worker.registration.instance, ReportedKeys(worker, report), reply);
            EndsLike(ApplyReport(mem, store, w, generation, report, reply), mem, store, mem, p)
  {
  }

  lemma ApplyReportKeepsInv(mem: Memory, store: StoreState, issued: Issued, w: string, generation: nat, report: Report,
                            reply: StoreReply)
    requires Inv(mem, store, issued) && w in mem.workers
    ensures var out := ApplyReport(mem, store, w, generation, report, reply); StepOk(out.mem, out.store, issued)
  {
    var worker := mem.workers[w];
    var affected := ReportedKeys(worker, report);
    var next := ReportedRecord(worker, report);
    UnchangedIsOk(mem, store, issued);
    ReportStep(mem, store, issued, w, next, affected, reply);
    var p := Publish(PutWorker(mem, w, next), store, worker.registration.instance, affected, reply);
    ReportEnds(mem, store, w, generation, report, reply);
    EndsOk(ApplyReport(mem, store, w, generation, report, reply), mem, store, mem, p, issued);
  }

  lemma StateReportKeepsInv(mem: Memory, store: StoreState, issued: Issued, w: string, s: string, generation: nat,
                            sequence: nat, full: bool, reported: seq<ReportedState>, reply: StoreReply)
    requires Inv(mem, store, issued)
    ensures var out := StateReport(mem, store, w, s, generation, sequence, full, reported, reply);
            StepOk(out.mem, out.store, issued)
  {
    var normalized := NormalizeStates(reported);
    if normalized.Some? && CheckStart(mem, w, s).None? {
      ApplyReportKeepsInv(mem, store, issued, w, generation, Report(sequence, full, normalized.value), reply);
    } else {
      UnchangedIsOk(mem, store, issued);
    }
  }

  lemma FinishExpertDrain(mem: Memory, store: StoreState, issued: Issued, w: string, n: nat)
    requires Inv(mem, store, issued) && w in mem.workers && n < |mem.workers[w].drains|
    ensures var worker := mem.workers[w];
            var drains := worker.drains[n := worker.drains[n].(completed := true)];
            StepOk(PutWorker(mem, w, worker.(drains := drains)), store, issued)
  {
    var worker := mem.workers[w];
    var finished := worker.(drains := worker.drains[n := worker.drains[n].(completed := true)]);
    FinishedDrainOk(worker, finished, n, Known(issued, worker.registration.instance));
    QuietRecord(mem, store, issued, w, finished);
    UnchangedIsOk(PutWorker(mem, w, finished), store, issued);
  }

  lemma FinishShutdown(mem: Memory, store: StoreState, issued: Issued, w: string, n: nat, reply: StoreReply)
    requires Inv(mem, store, issued) && w in mem.workers && n < |mem.workers[w].drains|
    ensures var worker := mem.workers[w];
            var drains := worker.drains[n := worker.drains[n].(completed := true)];
            var p := Publish(PutWorker(mem, w, worker.(drains := drains, live := false)), store, worker.registration.instance,
                             ReadyKeys(worker), reply);
            StepOk(CommitOr(mem, p).mem, CommitOr(mem, p).store, issued)
  {
    var worker := mem.workers[w];
    var stopped := worker.(drains := worker.drains[n := worker.drains[n].(completed := true)], live := false);
    var p := Publish(PutWorker(mem, w, stopped), store, worker.registration.instance, ReadyKeys(worker), reply);
    FinishedDrainOk(worker, stopped, n, Known(issued, worker.registration.instance));
    LivenessStep(mem, store, issued, w, stopped, reply);
    UnchangedIsOk(mem, store, issued);
    CommitEnds(mem, store, mem, p);
    EndsOk(CommitOr(mem, p), mem, store, mem, p, issued);
  }

  lemma CompleteDrainKeepsInv(mem: Memory, store: StoreState, issued: Issued, w: string, s: string, id: nat, reply: StoreReply)
    requires Inv(mem, store, issued)
    ensures var out := CompleteDrain(mem, store, w, s, id, reply); StepOk(out.mem, out.store, issued)
  {
    UnchangedIsOk(mem, store, issued);
    if CheckStart(mem, w, s).None? && FindDrain(mem.workers[w].drains, id).Some? {
      var n := FindDrain(mem.workers[w].drains, id).value;
      FinishExpertDrain(mem, store, issued, w, n);
      FinishShutdown(mem, store, issued, w, n, reply);
    }
  }

  /** Creating the whole-Worker drain: withdraw every route, then record the drain. */
  lemma ShutdownStep(mem: Memory, store: StoreState, issued: Issued, w: string, reply: StoreReply)
    requires Inv(mem, store, issued) && w in mem.workers
    ensures var worker := mem.workers[w].(included := false);
            var p := Publish(PutWorker(mem, w, worker), store, worker.registration.instance, ReadyKeys(mem.workers[w]), reply);
            && (p.reply.Ok? ==> StepOk(p.mem, p.store, issued) && w in p.mem.workers && p.mem.workers[w] == worker)
            && StepOk(mem, p.store, issued)
  {
    var worker := mem.workers[w].(included := false);
    var known := Known(issued, worker.registration.instance);
    assert WorkerDrainsOk(worker, known) by {
      forall i | 0 <= i < |worker.drains| ensures DrainOk(worker.drains[i], worker, known) {
        assert DrainOk(mem.workers[w].drains[i], mem.workers[w], known);
      }
    }
    LivenessStep(mem, store, issued, w, worker, reply);
    PublishShape(PutWorker(mem, w, worker), store, worker.registration.instance, ReadyKeys(mem.workers[w]), reply);
  }

  lemma DrainAuthorizationsKeepsInv(mem: Memory, store: StoreState, issued: Issued, w: string, s: string, reply: StoreReply)
    requires Inv(mem, store, issued)
    ensures var out := DrainAuthorizations(mem, store, w, s, reply); StepOk(out.mem, out.store, issued)
  {
    var out := DrainAuthorizations(mem, store, w, s, reply);
    UnchangedIsOk(mem, store, issued);
    if CheckStart(mem, w, s).None? && ShutdownDue(mem, w) {
      var worker := mem.workers[w];
      var experts := ReadyKeys(worker);
      var p := Publish(PutWorker(mem, w, worker.(included := false)), store, worker.registration.instance, experts, reply);
      ShutdownStep(mem, store, issued, w, reply);
      if p.reply.Ok? {
        var id := NextCounter(p.mem.nextDrainId);
        var drain := Drain(id, worker.generation, Version(p.mem, worker.registration.instance), true, experts, false);
        RecordDrain(p.mem, p.store, issued, w, drain);
      }
    }
  }

  /** Recording one more drain after a publication. */
  lemma RecordDrain(mem: Memory, store: StoreState, issued: Issued, w: string, d: Drain)
    requires StepOk(mem, store, issued) && w in mem.workers
    requires DrainShape(d, mem.workers[w]) && d.minVersion == Version(mem, mem.workers[w].registration.instance)
    requires IsOpenExpertDrain(d) ==> forall i :: 0 <= i < |mem.workers[w].drains| ==> !IsOpenExpertDrain(mem.workers[w].drains[i])
    ensures StepOk(PutWorker(mem.(nextDrainId := d.id), w, mem.workers[w].(drains := mem.workers[w].drains + [d])), store, issued)
  {
    var seen := Observe(issued, mem);
    var counted := mem.(nextDrainId := d.id);
    CountersAreFree(mem, store, seen, mem.persisted, mem.nextLease, d.id);
    IssueDrain(counted, store, seen, w, d);
    LogIgnoresRecords(mem, PutWorker(counted, w, mem.workers[w].(drains := mem.workers[w].drains + [d])), store, issued);
  }

  // ---------------------------------------------------------------- target changes

  lemma MovedSettles(mem: Memory, w: string, placement: Placement)
    requires RoutesExact(mem) && w in mem.workers
    ensures var next := Moved(mem, w, placement);
            && NoEmptyRoutes(next)
            && SettledExcept(next, mem.workers[w].registration.instance, mem.workers[w].targets.Keys + placement.targets.Keys)
  {
    var worker := mem.workers[w].(generation := placement.generation, targets := placement.targets);
    OneRecordChanged(mem, Moved(mem, w, placement), w, worker, worker.registration.instance,
                     mem.workers[w].targets.Keys + placement.targets.Keys);
  }

  lemma MovedPublishes(mem: Memory, store: StoreState, issued: Issued, w: string, placement: Placement, advance: StoreReply)
    requires Inv(mem, store, issued) && w in mem.workers
    ensures var next := Moved(mem, w, placement);
            var instance := mem.workers[w].registration.instance;
            var p := Publish(next, store, instance, mem.workers[w].targets.Keys + placement.targets.Keys, advance);
            p.reply.Ok? ==>
              && Keyed(p.mem.workers) && RoutesExact(p.mem) && LogStep(issued, p.mem, p.store, instance)
              && p.mem == next.(topologies := p.mem.topologies)
  {
    var next := Moved(mem, w, placement);
    var instance := mem.workers[w].registration.instance;
    var affected := mem.workers[w].targets.Keys + placement.targets.Keys;
    MovedSettles(mem, w, placement);
    OtherKeyed(mem, w, next.workers[w]);
    LogIgnoresRecords(mem, next, store, issued);
    PublishShape(next, store, instance, affected, advance);
    PublishMakesExact(next, store, instance, affected, advance);
    PublishKeepsLog(next, store, issued, instance, affected, advance);
  }

  lemma OtherDrainsKept(mem: Memory, issued: Issued, w: string, next: Memory)
    requires DrainsOk(mem.workers, issued)
    requires w in next.workers && next.workers.Keys == mem.workers.Keys
    requires forall v :: v in mem.workers && v != w ==> next.workers[v] == mem.workers[v]
    requires WorkerDrainsOk(next.workers[w], Known(issued, next.workers[w].registration.instance))
    ensures DrainsOk(next.workers, issued)
  {
  }

  function WithDrains(mem: Memory, w: string, drains: seq<Drain>): Memory
    requires w in mem.workers
  {
    PutWorker(mem, w, mem.workers[w].(drains := drains))
  }

  lemma DrainFieldsAreFree(after: Memory, store: StoreState, issued: Issued, instance: nat, w: string, drains: seq<Drain>)
    requires Keyed(after.workers) && RoutesExact(after) && LogStep(issued, after, store, instance) && w in after.workers
    ensures var next := WithDrains(after, w, drains);
            Keyed(next.workers) && RoutesExact(next) && LogStep(issued, next, store, instance)
  {
    var worker := after.workers[w].(drains := drains);
    var next := WithDrains(after, w, drains);
    NothingChanged(after, next, w, worker);
    OtherKeyed(after, w, worker);
    LogIgnoresRecords(after, next, store, issued);
    LogIgnoresRecords(after, next, store, Observe(issued, after));
  }

  lemma ClosedMoveDrains(mem: Memory, issued: Issued, w: string, after: Memory)
    requires DrainsOk(mem.workers, issued) && w in mem.workers
    requires w in after.workers && after.workers == mem.workers[w := after.workers[w]]
    requires after.workers[w] == mem.workers[w].(generation := after.workers[w].generation, targets := after.workers[w].targets)
    ensures DrainsOk(WithDrains(after, w, CloseExpertDrains(after.workers[w].drains)).workers, issued)
  {
    var next := WithDrains(after, w, CloseExpertDrains(after.workers[w].drains));
    ClosedDrainsOk(mem.workers[w], next.workers[w], Known(issued, next.workers[w].registration.instance));
    OtherDrainsKept(mem, issued, w, next);
  }

  /** After the move is published, the old expert drains are closed. */
  lemma ClosedMoveIsOk(mem: Memory, issued: Issued, w: string, after: Memory, store: StoreState, instance: nat)
    requires DrainsOk(mem.workers, issued) && w in mem.workers
    requires Keyed(after.workers) && RoutesExact(after) && LogStep(issued, after, store, instance)
    requires w in after.workers && after.workers == mem.workers[w := after.workers[w]]
    requires after.workers[w] == mem.workers[w].(generation := after.workers[w].generation, targets := after.workers[w].targets)
    ensures StepOk(WithDrains(after, w, CloseExpertDrains(after.workers[w].drains)), store, issued)
  {
    var drains := CloseExpertDrains(after.workers[w].drains);
    var next := WithDrains(after, w, drains);
    ClosedMoveDrains(mem, issued, w, after);
    DrainFieldsAreFree(after, store, issued, instance, w, drains);
    PublishedIsOk(next, store, issued, instance);
  }

  lemma PutTwice(mem: Memory, w: string, first: WorkerRecord, second: WorkerRecord, id: nat)
    ensures PutWorker(PutWorker(mem, w, first).(nextDrainId := id), w, second) == PutWorker(mem.(nextDrainId := id), w, second)
  {
    assert mem.workers[w := first][w := second] == mem.workers[w := second];
  }

  lemma ReissueIsOk(after: Memory, store: StoreState, issued: Issued, w: string, experts: set<ExpertKey>)
    requires w in after.workers
    requires StepOk(WithDrains(after, w, CloseExpertDrains(after.workers[w].drains)), store, issued)
    requires experts !! after.workers[w].targets.Keys
    ensures StepOk(ReissueDrain(after, w, experts), store, issued)
  {
    var worker := after.workers[w];
    var closed := worker.(drains := CloseExpertDrains(worker.drains));
    if experts != {} {
      var id := NextCounter(after.nextDrainId);
      var drain := Drain(id, worker.generation, Version(after, worker.registration.instance), false, experts, false);
      PutTwice(after, w, closed, worker.(drains := closed.drains + [drain]), id);
      RecordDrain(PutWorker(after, w, closed), store, issued, w, drain);
    }
  }

  /** The published move, seen as a memory. */
  ghost predicate MovedTo(mem: Memory, w: string, placement: Placement, after: Memory)
    requires w in mem.workers
  {
    after == Moved(mem, w, placement).(topologies := after.topologies)
  }

  lemma MovedDrainsOk(mem: Memory, issued: Issued, w: string, placement: Placement, after: Memory, store: StoreState, instance: nat)
    requires DrainsOk(mem.workers, issued) && w in mem.workers && MovedTo(mem, w, placement, after)
    requires Keyed(after.workers) && RoutesExact(after) && LogStep(issued, after, store, instance)
    ensures w in after.workers && StepOk(ReissueDrain(after, w, DrainedBy(mem.workers[w], placement.targets)), store, issued)
  {
    ClosedMoveIsOk(mem, issued, w, after, store, instance);
    ReissueIsOk(after, store, issued, w, DrainedBy(mem.workers[w], placement.targets));
  }

  lemma PlacedIsOk(mem: Memory, store: StoreState, issued: Issued, w: string, placement: Placement, advance: StoreReply)
    requires Inv(mem, store, issued) && w in mem.workers
    ensures var p := Publish(Moved(mem, w, placement), store, mem.workers[w].registration.instance,
                             mem.workers[w].targets.Keys + placement.targets.Keys, advance);
            p.reply.Ok? ==> w in p.mem.workers && StepOk(ReissueDrain(p.mem, w, DrainedBy(mem.workers[w], placement.targets)), p.store, issued)
  {
    var instance := mem.workers[w].registration.instance;
    var p := Publish(Moved(mem, w, placement), store, instance, mem.workers[w].targets.Keys + placement.targets.Keys, advance);
    if p.reply.Ok? {
      MovedPublishes(mem, store, issued, w, placement, advance);
      MovedDrainsOk(mem, issued, w, placement, p.mem, p.store, instance);
    }
  }

  lemma PlaceTargetsKeepsInv(mem: Memory, store: StoreState, issued: Issued, w: string, placement: Placement, advance: StoreReply)
    requires Inv(mem, store, issued) && w in mem.workers
    ensures var out := PlaceTargets(mem, store, w, placement, advance); StepOk(out.mem, out.store, issued)
  {
    PlacedIsOk(mem, store, issued, w, placement, advance);
    FailedPublishIsOk(mem, Moved(mem, w, placement), store, issued, mem.workers[w].registration.instance,
                      mem.workers[w].targets.Keys + placement.targets.Keys, advance);
  }

  lemma SavedIsOk(mem: Memory, store: StoreState, issued: Issued, w: string, placement: Placement, save: StoreReply)
    requires Inv(mem, store, issued)
    ensures Inv(mem, SavePlacement(store, w, placement, save).0, issued)
  {
    LogWithLargerStore(mem, store, SavePlacement(store, w, placement, save).0, issued);
  }

  lemma ChangeTargetsKeepsInv(mem: Memory, store: StoreState, issued: Issued, w: string, targets: map<ExpertKey, Target>,
                              save: StoreReply, advance: StoreReply)
    requires Inv(mem, store, issued) && w in mem.workers
    ensures var out := ChangeTargets(mem, store, w, targets, save, advance); StepOk(out.mem, out.store, issued)
  {
    if TargetsRefusal(mem, w, targets).Some? {
      UnchangedIsOk(mem, store, issued);
    } else {
      var placement := NextPlacement(mem.workers[w], targets);
      var (saved, ok) := SavePlacement(store, w, placement, save);
      SavedIsOk(mem, store, issued, w, placement, save);
      if ok {
        PlaceTargetsKeepsInv(mem, saved, issued, w, placement, advance);
      } else {
        UnchangedIsOk(mem, saved, issued);
      }
    }
  }

  lemma SetTargetsKeepsInv(mem: Memory, store: StoreState, issued: Issued, w: string, s: string, targets: seq<TargetExpert>,
                           save: StoreReply, advance: StoreReply)
    requires Inv(mem, store, issued)
    ensures var out := SetTargets(mem, store, w, s, targets, save, advance); StepOk(out.mem, out.store, issued)
  {
    if CheckStart(mem, w, s).None? {
      ChangeTargetsKeepsInv(mem, store, issued, w, NormalizeTargets(targets), save, advance);
    } else {
      UnchangedIsOk(mem, store, issued);
    }
  }
}
