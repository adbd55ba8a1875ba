/** Guarantees that need more than the invariant: shutdown keeps every expert routed, and the
    placement generations a Worker sees never go back. */
module ControllerGuarantees {
  import opened Ordering
  import opened Topology
  import opened ControllerState
  import opened ControllerRoutes
  import opened ControllerLog
  import opened ControllerInvariant
  import opened ControllerRuns

  // ---------------------------------------------------------------- shutdown

  lemma RoutedIffServed(mem: Memory, instance: nat, key: ExpertKey)
    requires RoutesExact(mem)
    ensures key in Routes(mem, instance) <==> exists w :: w in mem.workers && Serves(mem.workers[w], instance, key)
  {
    assert NoEmptyRoute(Routes(mem, instance));
    var replicas := Replicas(mem.workers, instance, key);
    assert ReplicasAt(Routes(mem, instance), key) == replicas;
    ReplicaMembers(mem.workers, instance, key);
    NonemptyHasMember(replicas);
  }

  /** An expert that a departing Worker serves is also served by another Worker. */
  lemma ReplacementServes(mem: Memory, w: string, key: ExpertKey) returns (other: string)
    requires RoutesExact(mem) && Keyed(mem.workers) && w in mem.workers && ReplacementsReady(mem, w)
    requires key in ReadyKeys(mem.workers[w])
    ensures other in mem.workers && other != w && Serves(mem.workers[other], mem.workers[w].registration.instance, key)
  {
    var r := mem.workers[w].registration;
    var replicas := ReplicasAt(Routes(mem, r.instance), key);
    var i :| 0 <= i < |replicas| && (replicas[i].workerId != r.workerId || replicas[i].startId != r.startId);
    assert replicas == Replicas(mem.workers, r.instance, key);
    ReplicasAreRecords(mem.workers, r.instance, key);
    assert replicas[i] in replicas;
    other := replicas[i].workerId;
  }

  lemma ExcludedRecord(mem: Memory, store: StoreState, w: string, s: string, reply: StoreReply)
    requires CheckStart(mem, w, s).None? && ShutdownDue(mem, w)
    ensures var out := DrainAuthorizations(mem, store, w, s, reply);
            out.reply.Ok? ==>
              && out.mem.workers.Keys == mem.workers.Keys && !out.mem.workers[w].included
              && (forall v :: v in mem.workers && v != w ==> out.mem.workers[v] == mem.workers[v])
  {
    var worker := mem.workers[w];
    PublishShape(PutWorker(mem, w, worker.(included := false)), store, worker.registration.instance, ReadyKeys(worker), reply);
  }

  /** Creating a whole-Worker drain withdraws that Worker from every route and leaves every routed
      expert routed. */
  lemma ShutdownKeepsCoverage(mem: Memory, store: StoreState, issued: Issued, w: string, s: string, reply: StoreReply, instance: nat)
    requires Inv(mem, store, issued) && CheckStart(mem, w, s).None? && ShutdownDue(mem, w)
    ensures var out := DrainAuthorizations(mem, store, w, s, reply);
            out.reply.Ok? ==>
              && (forall key :: key in Routes(out.mem, instance) <==> key in Routes(mem, instance))
              && (forall key :: key in Routes(out.mem, instance) ==>
                    exists v :: v != w && v in mem.workers && RouteOf(mem.workers[v]) in Routes(out.mem, instance)[key])
  {
    var out := DrainAuthorizations(mem, store, w, s, reply);
    if out.reply.Ok? {
      ExcludedRecord(mem, store, w, s, reply);
      DrainAuthorizationsKeepsInv(mem, store, issued, w, s, reply);
      forall key
        ensures key in Routes(out.mem, instance) <==> key in Routes(mem, instance)
        ensures key in Routes(out.mem, instance) ==>
                  exists v :: v != w && v in mem.workers && RouteOf(mem.workers[v]) in Routes(out.mem, instance)[key]
      {
        CoverageOf(mem, out.mem, w, instance, key);
      }
    }
  }

  lemma CoverageOf(mem: Memory, after: Memory, w: string, instance: nat, key: ExpertKey)
    requires RoutesExact(mem) && RoutesExact(after) && Keyed(mem.workers) && w in mem.workers && ReplacementsReady(mem, w)
    requires after.workers.Keys == mem.workers.Keys && !after.workers[w].included
    requires forall v :: v in mem.workers && v != w ==> after.workers[v] == mem.workers[v]
    ensures key in Routes(after, instance) <==> key in Routes(mem, instance)
    ensures key in Routes(after, instance) ==>
              exists v :: v != w && v in mem.workers && RouteOf(mem.workers[v]) in Routes(after, instance)[key]
  {
    RoutedIffServed(mem, instance, key);
    RoutedIffServed(after, instance, key);
    if key in Routes(mem, instance) {
      var v :| v in mem.workers && Serves(mem.workers[v], instance, key);
      if v == w {
        var other := ReplacementServes(mem, w, key);
        assert Serves(after.workers[other], instance, key);
      } else {
        assert Serves(after.workers[v], instance, key);
      }
    }
    if key in Routes(after, instance) {
      var v :| v in after.workers && Serves(after.workers[v], instance, key);
      ReplicaMembers(after.workers, instance, key);
      assert ReplicasAt(Routes(after, instance), key) == Replicas(after.workers, instance, key);
      assert RouteOf(after.workers[v]) in Routes(after, instance)[key];
    }
  }

  /** ... in every reachable state, however many Workers shut down before. */
  lemma ReachableShutdownKeepsCoverage(limit: nat, actions: seq<Action>, w: string, s: string, reply: StoreReply, instance: nat)
    requires limit > 0
    requires var mem := Run(Boot(limit), actions).mem;
             mem.Some? && CheckStart(mem.value, w, s).None? && ShutdownDue(mem.value, w)
    ensures var mem := Run(Boot(limit), actions).mem.value;
            var out := DrainAuthorizations(mem, Run(Boot(limit), actions).store, w, s, reply);
            out.reply.Ok? ==>
              && (forall key :: key in Routes(out.mem, instance) <==> key in Routes(mem, instance))
              && (forall key :: key in Routes(out.mem, instance) ==>
                    exists v :: v != w && v in mem.workers && RouteOf(mem.workers[v]) in Routes(out.mem, instance)[key])
  {
    BootIsOk(limit);
    RunKeepsOk(Boot(limit), actions);
    var sys := Run(Boot(limit), actions);
    ShutdownKeepsCoverage(sys.mem.value, sys.store, sys.issued, w, s, reply, instance);
  }

  // ---------------------------------------------------------------- placement generations

  function StoreGeneration(store: StoreState, w: string): nat {
    if w in store.placements then store.placements[w].generation else 0
  }

  function StoreTargets(store: StoreState, w: string): map<ExpertKey, Target> {
    if w in store.placements then store.placements[w].targets else map[]
  }

  /** The generation Worker `w` holds, or would be handed on its next registration. */
  function Handed(mem: Memory, w: string): nat {
    if w in mem.workers then mem.workers[w].generation
    else if w in mem.persisted then mem.persisted[w].generation
    else 0
  }

  /** The targets that go with it. */
  function HeldTargets(mem: Memory, w: string): map<ExpertKey, Target> {
    if w in mem.workers then mem.workers[w].targets
    else if w in mem.persisted then mem.persisted[w].targets
    else map[]
  }

  function FloorTargets(sys: System, w: string): map<ExpertKey, Target> {
    match sys.mem
    case Some(mem) => HeldTargets(mem, w)
    case None => StoreTargets(sys.store, w)
  }

  function Floor(sys: System, w: string): nat {
    match sys.mem
    case Some(mem) => Handed(mem, w)
    case None => StoreGeneration(sys.store, w)
  }

  /** `w` only ever belonged to `instance`, and the store is not behind the memory: it holds a later
      placement or the same one. */
  ghost predicate MemoryFixed(mem: Memory, store: StoreState, w: string, instance: nat) {
    && (w in mem.workers ==> mem.workers[w].registration.instance == instance)
    && (w in mem.persisted ==> mem.persisted[w].instance == instance)
    && (w in store.placements ==> store.placements[w].instance == instance)
    && Handed(mem, w) <= StoreGeneration(store, w)
    && (Handed(mem, w) == StoreGeneration(store, w) ==> HeldTargets(mem, w) == StoreTargets(store, w))
  }

  ghost predicate FixedInstance(sys: System, w: string, instance: nat) {
    match sys.mem
    case Some(mem) => MemoryFixed(mem, sys.store, w, instance)
    case None => w in sys.store.placements ==> sys.store.placements[w].instance == instance
  }

  ghost predicate RegistersFor(actions: seq<Action>, w: string, instance: nat) {
    forall i :: 0 <= i < |actions| ==>
      (actions[i].DoRegister? && actions[i].registration.workerId == w ==> actions[i].registration.instance == instance)
  }

  /** A call that leaves this Worker's placement data and the stored placements alone, or raises them. */
  ghost predicate Raises(mem: Memory, store: StoreState, after: Memory, stored: StoreState, w: string, instance: nat) {
    && (w in after.workers ==> after.workers[w].registration.instance == instance)
    && Handed(mem, w) <= Handed(after, w) <= StoreGeneration(stored, w)
    && (Handed(mem, w) == Handed(after, w) ==> HeldTargets(mem, w) == HeldTargets(after, w))
    && (Handed(after, w) == StoreGeneration(stored, w) ==> HeldTargets(after, w) == StoreTargets(stored, w))
    && (w in after.persisted ==> after.persisted[w].instance == instance)
    && (w in stored.placements ==> stored.placements[w].instance == instance)
  }

  ghost predicate SamePlacement(before: WorkerRecord, after: WorkerRecord) {
    after.registration == before.registration && after.generation == before.generation && after.targets == before.targets
  }

  /** Neither the record's placement of `w` nor any stored placement moved. */
  ghost predicate SameFor(mem: Memory, store: StoreState, after: Memory, stored: StoreState, w: string) {
    && (w in after.workers <==> w in mem.workers)
    && (w in mem.workers ==> SamePlacement(mem.workers[w], after.workers[w]))
    && after.persisted == mem.persisted && stored.placements == store.placements
  }

  lemma PutIsSame(mem: Memory, store: StoreState, v: string, record: WorkerRecord, w: string)
    requires v in mem.workers && SamePlacement(mem.workers[v], record)
    ensures SameFor(mem, store, PutWorker(mem, v, record), store, w)
  {
  }

  /** A record with the same placement, published or rolled back. */
  lemma CommitIsSame(mem: Memory, store: StoreState, v: string, record: WorkerRecord, instance: nat, affected: set<ExpertKey>,
                     reply: StoreReply, w: string)
    requires v in mem.workers && SamePlacement(mem.workers[v], record)
    ensures var o := CommitOr(mem, Publish(PutWorker(mem, v, record), store, instance, affected, reply));
            SameFor(mem, store, o.mem, o.store, w)
  {
    var next := PutWorker(mem, v, record);
    var p := Publish(next, store, instance, affected, reply);
    assert p.mem.workers == next.workers;
    PutIsSame(mem, store, v, record, w);
    NothingIsSame(mem, store, w);
  }

  lemma BeatIsSame(mem: Memory, store: StoreState, v: string, record: WorkerRecord, reply: StoreReply, w: string)
    requires v in mem.workers && SamePlacement(mem.workers[v], record)
    ensures var o := Beat(mem, store, v, record, reply); SameFor(mem, store, o.mem, o.store, w)
  {
    var worker := mem.workers[v];
    PutIsSame(mem, store, v, record, w);
    CommitIsSame(mem, store, v, record, worker.registration.instance, ReadyKeys(worker), reply, w);
  }

  lemma HeartbeatIsSame(mem: Memory, store: StoreState, v: string, s: string, lease: nat, n: nat, run: RunState, reply: StoreReply, w: string)
    ensures var o := Heartbeat(mem, store, v, s, lease, n, run, reply); SameFor(mem, store, o.mem, o.store, w)
  {
    NothingIsSame(mem, store, w);
    if CheckStart(mem, v, s).None? {
      BeatIsSame(mem, store, v, mem.workers[v].(live := true, lastHeartbeat := Some(n), runState := run), reply, w);
    }
  }

  lemma CloseHeartbeatIsSame(mem: Memory, store: StoreState, v: string, s: string, lease: nat, reply: StoreReply, w: string)
    ensures var o := CloseHeartbeat(mem, store, v, s, lease, reply); SameFor(mem, store, o.mem, o.store, w)
  {
    NothingIsSame(mem, store, w);
    if CheckStart(mem, v, s).None? {
      var worker := mem.workers[v];
      CommitIsSame(mem, store, v, worker.(leaseOpen := false, live := false), worker.registration.instance, ReadyKeys(worker), reply, w);
    }
  }

  lemma ApplyReportIsSame(mem: Memory, store: StoreState, v: string, g: nat, report: Report, reply: StoreReply, w: string)
    requires v in mem.workers
    ensures var o := ApplyReport(mem, store, v, g, report, reply); SameFor(mem, store, o.mem, o.store, w)
  {
    NothingIsSame(mem, store, w);
    var worker := mem.workers[v];
    CommitIsSame(mem, store, v, ReportedRecord(worker, report), worker.registration.instance, ReportedKeys(worker, report), reply, w);
  }

  lemma ShutdownEndIsSame(mem: Memory, store: StoreState, p: Outcome<bool>, v: string, w: string)
    requires v in mem.workers
    requires p.store.placements == store.placements
    requires p.reply.Ok? ==> p.mem.persisted == mem.persisted && p.mem.workers == mem.workers[v := mem.workers[v].(included := false)]
    ensures var o := ShutdownEnd(mem, p, v); SameFor(mem, store, o.mem, o.store, w)
  {
  }

  lemma DrainAuthorizationsIsSame(mem: Memory, store: StoreState, v: string, s: string, reply: StoreReply, w: string)
    ensures var o := DrainAuthorizations(mem, store, v, s, reply); SameFor(mem, store, o.mem, o.store, w)
  {
    if CheckStart(mem, v, s).None? {
      var worker := mem.workers[v];
      var next := PutWorker(mem, v, worker.(included := false));
      ShutdownEndIsSame(mem, store, Publish(next, store, worker.registration.instance, ReadyKeys(worker), reply), v, w);
    }
  }

  lemma CompleteDrainIsSame(mem: Memory, store: StoreState, v: string, s: string, id: nat, reply: StoreReply, w: string)
    ensures var o := CompleteDrain(mem, store, v, s, id, reply); SameFor(mem, store, o.mem, o.store, w)
  {
    NothingIsSame(mem, store, w);
    if CheckStart(mem, v, s).None? && FindDrain(mem.workers[v].drains, id).Some? {
      var worker := mem.workers[v];
      var n := FindDrain(worker.drains, id).value;
      var drains := worker.drains[n := worker.drains[n].(completed := true)];
      PutIsSame(mem, store, v, worker.(drains := drains), w);
      CommitIsSame(mem, store, v, worker.(drains := drains, live := false), worker.registration.instance, ReadyKeys(worker), reply, w);
    }
  }

  lemma NothingIsSame(mem: Memory, store: StoreState, w: string)
    ensures SameFor(mem, store, mem, store, w)
  {
  }

  /** A report is refused as a whole or applied. */
  lemma ReportEnds(mem: Memory, store: StoreState, a: Action)
    requires a.DoStateReport?
    ensures var normalized := NormalizeStates(a.states);
            Call(mem, store, a) ==
              if normalized.None? || CheckStart(mem, a.w, a.s).Some? then (mem, store)
              else var o := ApplyReport(mem, store, a.w, a.generation, Report(a.sequence, a.full, normalized.value), a.reply);
                   (o.mem, o.store)
  {
  }

  lemma ReportIsSame(mem: Memory, store: StoreState, a: Action, w: string)
    requires a.DoStateReport?
    ensures SameFor(mem, store, Call(mem, store, a).0, Call(mem, store, a).1, w)
  {
    ReportEnds(mem, store, a);
    NothingIsSame(mem, store, w);
    if CheckStart(mem, a.w, a.s).None? && NormalizeStates(a.states).Some? {
      ApplyReportIsSame(mem, store, a.w, a.generation, Report(a.sequence, a.full, NormalizeStates(a.states).value), a.reply, w);
    }
  }

  lemma HeartbeatCallsAreSame(mem: Memory, store: StoreState, a: Action, w: string)
    requires a.DoOpenHeartbeat? || a.DoHeartbeat? || a.DoCloseHeartbeat?
    ensures SameFor(mem, store, Call(mem, store, a).0, Call(mem, store, a).1, w)
  {
    match a
    case DoOpenHeartbeat(v, s) =>
    case DoHeartbeat(v, s, lease, n, run, reply) => HeartbeatIsSame(mem, store, v, s, lease, n, run, reply, w);
    case DoCloseHeartbeat(v, s, lease, reply) => CloseHeartbeatIsSame(mem, store, v, s, lease, reply, w);
  }

  lemma DrainCallsAreSame(mem: Memory, store: StoreState, a: Action, w: string)
    requires a.DoDrainAuthorizations? || a.DoCompleteDrain?
    ensures SameFor(mem, store, Call(mem, store, a).0, Call(mem, store, a).1, w)
  {
    match a
    case DoDrainAuthorizations(v, s, reply) => DrainAuthorizationsIsSame(mem, store, v, s, reply, w);
    case DoCompleteDrain(v, s, id, reply) => CompleteDrainIsSame(mem, store, v, s, id, reply, w);
  }

  /** Calls other than registration and target changes move no placement. */
  lemma OtherCallsAreSame(mem: Memory, store: StoreState, a: Action, w: string)
    requires !a.DoRestart? && !a.DoRegister? && !a.DoSetTargets?
    ensures SameFor(mem, store, Call(mem, store, a).0, Call(mem, store, a).1, w)
  {
    if a.DoStateReport? {
      ReportIsSame(mem, store, a, w);
    } else if a.DoDrainAuthorizations? || a.DoCompleteDrain? {
      DrainCallsAreSame(mem, store, a, w);
    } else {
      HeartbeatCallsAreSame(mem, store, a, w);
    }
  }

  lemma RegisterEndMoves(mem: Memory, store: StoreState, p: Outcome<bool>, r: Registration, generation: nat,
                         targets: map<ExpertKey, Target>, replaced: string, record: WorkerRecord)
    requires p.store.placements == store.placements
    requires p.reply.Ok? ==> p.mem.persisted == mem.persisted && p.mem.workers == mem.workers[r.workerId := record]
    requires record.registration == r && record.generation == generation && record.targets == targets
    ensures RegisterMoves(mem, store, RegisterEnd(mem, p, r, generation, replaced), r, (generation, targets))
  {
  }

  /** A registration puts one record with the found placement, and its reply hands that generation out. */
  ghost predicate RegisterMoves(mem: Memory, store: StoreState, o: Outcome<RegisterReply>, r: Registration,
                                found: (nat, map<ExpertKey, Target>))
  {
    && o.store.placements == store.placements && o.mem.persisted == mem.persisted
    && (o.reply.Err? ==> o.mem == mem)
    && (o.reply.Ok? ==>
          && r.workerId in o.mem.workers && o.mem.workers == mem.workers[r.workerId := o.mem.workers[r.workerId]]
          && o.mem.workers[r.workerId].registration == r
          && o.mem.workers[r.workerId].targets == found.1
          && o.reply.value.generation == o.mem.workers[r.workerId].generation == found.0)
  }

  lemma ReplacedHandsFloor(mem: Memory, store: StoreState, r: Registration, reply: StoreReply)
    requires r.workerId in mem.workers
    ensures RegisterMoves(mem, store, ReplaceStart(mem, store, r, reply), r, Inherited(mem, r))
  {
    var (generation, targets) := Inherited(mem, r);
    var record := NewRecord(r, generation, targets);
    var replaced := mem.workers[r.workerId];
    var next := PutWorker(mem, r.workerId, record);
    RegisterEndMoves(mem, store, Publish(next, store, replaced.registration.instance, ReadyKeys(replaced), reply), r, generation,
                     targets, replaced.registration.startId, record);
  }

  lemma RepeatedHandsFloor(mem: Memory, store: StoreState, r: Registration, reply: StoreReply)
    requires r.workerId in mem.workers && mem.workers[r.workerId].registration.startId == r.startId
    ensures RegisterMoves(mem, store, Register(mem, store, r, reply), r, Inherited(mem, r))
  {
    assert mem.workers == mem.workers[r.workerId := mem.workers[r.workerId]];
  }

  lemma RegisterHandsFloor(mem: Memory, store: StoreState, r: Registration, reply: StoreReply)
    ensures RegisterMoves(mem, store, Register(mem, store, r, reply), r, Inherited(mem, r))
  {
    if r.workerId in mem.workers {
      if mem.workers[r.workerId].registration.startId == r.startId {
        RepeatedHandsFloor(mem, store, r, reply);
      } else if ValidRegistration(r) {
        ReplacedHandsFloor(mem, store, r, reply);
        assert Register(mem, store, r, reply) == ReplaceStart(mem, store, r, reply);
      }
    }
  }

  lemma RegisterRaises(mem: Memory, store: StoreState, r: Registration, reply: StoreReply, w: string, instance: nat)
    requires MemoryFixed(mem, store, w, instance)
    requires r.workerId == w ==> r.instance == instance
    ensures var out := Register(mem, store, r, reply); Raises(mem, store, out.mem, out.store, w, instance)
  {
    RegisterHandsFloor(mem, store, r, reply);
  }

  /** Moving a Worker to a saved placement takes effect as a whole or leaves memory alone; the reply
      hands out the generation in effect. */
  ghost predicate PlacementMoves(mem: Memory, store: StoreState, o: Outcome<PlacementReply>, v: string, placement: Placement)
    requires v in mem.workers
  {
    && o.store.placements == store.placements
    && (o.reply.Err? ==> o.mem == mem)
    && (o.reply.Ok? ==>
          && v in o.mem.workers && o.mem.workers == mem.workers[v := o.mem.workers[v]]
          && o.mem.persisted == mem.persisted[v := placement]
          && o.mem.workers[v].registration == mem.workers[v].registration
          && o.mem.workers[v].targets == placement.targets
          && o.reply.value.generation == o.mem.workers[v].generation == placement.generation)
  }

  /** Reissuing drains touches the drains of one record and the drain counter. */
  lemma ReissueChanges(mem: Memory, v: string, experts: set<ExpertKey>)
    requires v in mem.workers
    ensures var after := ReissueDrain(mem, v, experts);
            && v in after.workers && after.workers == mem.workers[v := after.workers[v]]
            && after.workers[v].registration == mem.workers[v].registration
            && after.workers[v].generation == mem.workers[v].generation && after.workers[v].targets == mem.workers[v].targets
            && after.persisted == mem.persisted
  {
  }

  lemma PutOver<K, V>(m: map<K, V>, k: K, a: V, b: V)
    ensures m[k := a][k := b] == m[k := b]
  {
  }

  lemma PlaceEndMoves(mem: Memory, store: StoreState, p: Outcome<bool>, v: string, placement: Placement)
    requires v in mem.workers && v in p.mem.workers && p.store.placements == store.placements
    requires p.reply.Ok? ==> p.mem.workers == Moved(mem, v, placement).workers && p.mem.persisted == mem.persisted[v := placement]
    ensures PlacementMoves(mem, store, PlaceEnd(mem, p, v, placement), v, placement)
  {
    if p.reply.Ok? {
      var experts := DrainedBy(mem.workers[v], placement.targets);
      ReissueChanges(p.mem, v, experts);
      PutOver(mem.workers, v, p.mem.workers[v], ReissueDrain(p.mem, v, experts).workers[v]);
    }
  }

  lemma PlaceTargetsMoves(mem: Memory, store: StoreState, v: string, placement: Placement, advance: StoreReply)
    requires v in mem.workers
    ensures PlacementMoves(mem, store, PlaceTargets(mem, store, v, placement, advance), v, placement)
  {
    var worker := mem.workers[v];
    var affected := worker.targets.Keys + placement.targets.Keys;
    PlaceEndMoves(mem, store, Publish(Moved(mem, v, placement), store, worker.registration.instance, affected, advance), v, placement);
  }

  lemma PlacementRaises(mem: Memory, store: StoreState, saved: StoreState, o: Outcome<PlacementReply>, v: string,
                        placement: Placement, w: string, instance: nat)
    requires MemoryFixed(mem, store, w, instance) && v in mem.workers
    requires placement.instance == mem.workers[v].registration.instance && placement.generation == mem.workers[v].generation + 1
    requires saved.placements == store.placements[v := placement]
    requires PlacementMoves(mem, saved, o, v, placement)
    ensures Raises(mem, store, o.mem, o.store, w, instance)
  {
  }

  lemma UnmovedRaises(mem: Memory, store: StoreState, saved: StoreState, v: string, placement: Placement, w: string, instance: nat)
    requires MemoryFixed(mem, store, w, instance) && v in mem.workers
    requires placement.instance == mem.workers[v].registration.instance && placement.generation == mem.workers[v].generation + 1
    requires saved.placements == store.placements || saved.placements == store.placements[v := placement]
    ensures Raises(mem, store, mem, saved, w, instance)
  {
  }

  lemma ChangeTargetsRaises(mem: Memory, store: StoreState, v: string, targets: map<ExpertKey, Target>, save: StoreReply,
                            advance: StoreReply, w: string, instance: nat)
    requires MemoryFixed(mem, store, w, instance) && v in mem.workers
    ensures var out := ChangeTargets(mem, store, v, targets, save, advance); Raises(mem, store, out.mem, out.store, w, instance)
  {
    var placement := NextPlacement(mem.workers[v], targets);
    if TargetsRefusal(mem, v, targets).Some? {
      UnmovedRaises(mem, store, store, v, placement, w, instance);
    } else {
      var (saved, ok) := SavePlacement(store, v, placement, save);
      if !ok {
        UnmovedRaises(mem, store, saved, v, placement, w, instance);
      } else {
        PlaceTargetsMoves(mem, saved, v, placement, advance);
        PlacementRaises(mem, store, saved, PlaceTargets(mem, saved, v, placement, advance), v, placement, w, instance);
      }
    }
  }

  lemma SameRaises(mem: Memory, store: StoreState, after: Memory, stored: StoreState, w: string, instance: nat)
    requires MemoryFixed(mem, store, w, instance) && SameFor(mem, store, after, stored, w)
    ensures Raises(mem, store, after, stored, w, instance)
  {
  }

  lemma CallRaises(mem: Memory, store: StoreState, a: Action, w: string, instance: nat)
    requires MemoryFixed(mem, store, w, instance) && !a.DoRestart?
    requires a.DoRegister? && a.registration.workerId == w ==> a.registration.instance == instance
    ensures Raises(mem, store, Call(mem, store, a).0, Call(mem, store, a).1, w, instance)
  {
    if a.DoRegister? {
      RegisterRaises(mem, store, a.registration, a.reply, w, instance);
    } else if a.DoSetTargets? {
      NothingIsSame(mem, store, w);
      SameRaises(mem, store, mem, store, w, instance);
      if CheckStart(mem, a.w, a.s).None? {
        ChangeTargetsRaises(mem, store, a.w, NormalizeTargets(a.targets), a.save, a.reply, w, instance);
      }
    } else {
      OtherCallsAreSame(mem, store, a, w);
      SameRaises(mem, store, Call(mem, store, a).0, Call(mem, store, a).1, w, instance);
    }
  }

  lemma StepRaises(sys: System, a: Action, w: string, instance: nat)
    requires FixedInstance(sys, w, instance)
    requires a.DoRegister? && a.registration.workerId == w ==> a.registration.instance == instance
    ensures FixedInstance(Step(sys, a), w, instance)
    ensures Floor(sys, w) <= Floor(Step(sys, a), w)
    ensures Floor(sys, w) == Floor(Step(sys, a), w) ==> FloorTargets(sys, w) == FloorTargets(Step(sys, a), w)
  {
    if a.DoRestart? {
      Restored(sys.store, a.historyLimit, a.order, a.replies);
    } else if sys.mem.Some? {
      CallRaises(sys.mem.value, sys.store, a, w, instance);
    }
  }

  /** While a Worker registers for one instance only, its generation never goes back, over failed
      writes and restarts, and the same generation means the same targets. */
  lemma {:induction false} GenerationsNeverDecrease(sys: System, actions: seq<Action>, w: string, instance: nat)
    requires FixedInstance(sys, w, instance) && RegistersFor(actions, w, instance)
    ensures FixedInstance(Run(sys, actions), w, instance)
    ensures Floor(sys, w) <= Floor(Run(sys, actions), w)
    ensures Floor(sys, w) == Floor(Run(sys, actions), w) ==> FloorTargets(sys, w) == FloorTargets(Run(sys, actions), w)
    decreases |actions|
  {
    if actions != [] {
      var front := actions[..|actions| - 1];
      GenerationsNeverDecrease(sys, front, w, instance);
      StepRaises(Run(sys, front), actions[|actions| - 1], w, instance);
    }
  }

  lemma BootIsFixed(limit: nat, w: string, instance: nat)
    ensures FixedInstance(Boot(limit), w, instance)
  {
  }

  lemma {:induction false} RunSplits(sys: System, actions: seq<Action>, n: nat)
    requires n <= |actions|
    ensures Run(sys, actions) == Run(Run(sys, actions[..n]), actions[n..])
    decreases |actions|
  {
    if n == |actions| {
      assert actions[..n] == actions && actions[n..] == [];
    } else {
      var front := actions[..|actions| - 1];
      RunSplits(sys, front, n);
      assert front[..n] == actions[..n];
      assert front[n..] == actions[n..][..|actions| - n - 1];
    }
  }

  /** Two moments of one run: the later generation is not smaller, and the same one has the same targets. */
  lemma PlacementsInOrder(limit: nat, actions: seq<Action>, w: string, instance: nat, i: nat, j: nat)
    requires RegistersFor(actions, w, instance) && i <= j <= |actions|
    ensures var before, after := Run(Boot(limit), actions[..i]), Run(Boot(limit), actions[..j]);
            && Floor(before, w) <= Floor(after, w)
            && (Floor(before, w) == Floor(after, w) ==> FloorTargets(before, w) == FloorTargets(after, w))
  {
    BootIsFixed(limit, w, instance);
    GenerationsNeverDecrease(Boot(limit), actions[..i], w, instance);
    RunSplits(Boot(limit), actions[..j], i);
    assert actions[..j][..i] == actions[..i];
    GenerationsNeverDecrease(Run(Boot(limit), actions[..i]), actions[..j][i..], w, instance);
  }

  /** The generation that the reply to `a` hands to Worker `w`, if it hands out one. */
  function RepliedGeneration(sys: System, a: Action, w: string): Option<nat> {
    if sys.mem.None? then None
    else if a.DoRegister? && a.registration.workerId == w then
      var reply := Register(sys.mem.value, sys.store, a.registration, a.reply).reply;
      if reply.Ok? then Some(reply.value.generation) else None
    else if a.DoSetTargets? && a.w == w then
      var reply := SetTargets(sys.mem.value, sys.store, w, a.s, a.targets, a.save, a.reply).reply;
      if reply.Ok? then Some(reply.value.generation) else None
    else None
  }

  lemma ReplyHandsFloor(sys: System, a: Action, w: string)
    requires RepliedGeneration(sys, a, w).Some?
    ensures RepliedGeneration(sys, a, w) == Some(Floor(Step(sys, a), w))
  {
    var mem := sys.mem.value;
    if a.DoRegister? {
      RegisterHandsFloor(mem, sys.store, a.registration, a.reply);
    } else {
      var targets := NormalizeTargets(a.targets);
      if TargetsRefusal(mem, w, targets).None? {
        var placement := NextPlacement(mem.workers[w], targets);
        var (saved, ok) := SavePlacement(sys.store, w, placement, a.save);
        PlaceTargetsMoves(mem, saved, w, placement, a.reply);
      }
    }
  }

  /** Call `i` of the run hands generation `g` to `w`. */
  ghost predicate Replied(limit: nat, actions: seq<Action>, w: string, i: nat, g: nat) {
    i < |actions| && RepliedGeneration(Run(Boot(limit), actions[..i]), actions[i], w) == Some(g)
  }

  function FloorAt(limit: nat, actions: seq<Action>, w: string, i: nat): nat
    requires i <= |actions|
  {
    Floor(Run(Boot(limit), actions[..i]), w)
  }

  lemma ReplyInRun(limit: nat, actions: seq<Action>, w: string, i: nat, g: nat)
    requires Replied(limit, actions, w, i, g)
    ensures i < |actions| && g == FloorAt(limit, actions, w, i + 1)
  {
    ReplyHandsFloor(Run(Boot(limit), actions[..i]), actions[i], w);
    assert actions[..i + 1][..i] == actions[..i];
    assert Run(Boot(limit), actions[..i + 1]) == Step(Run(Boot(limit), actions[..i]), actions[i]);
  }

  lemma FloorsInOrder(limit: nat, actions: seq<Action>, w: string, instance: nat, i: nat, j: nat)
    requires RegistersFor(actions, w, instance) && i <= j <= |actions|
    ensures FloorAt(limit, actions, w, i) <= FloorAt(limit, actions, w, j)
  {
    PlacementsInOrder(limit, actions, w, instance, i, j);
  }

  lemma ReplyBelow(limit: nat, actions: seq<Action>, w: string, instance: nat, i: nat, j: nat, g: nat)
    requires RegistersFor(actions, w, instance) && i < j <= |actions| && Replied(limit, actions, w, i, g)
    ensures g <= FloorAt(limit, actions, w, j)
  {
    ReplyInRun(limit, actions, w, i, g);
    FloorsInOrder(limit, actions, w, instance, i + 1, j);
  }

  /** Over any run, the generations in the replies to one Worker never go back, whatever fails or
      restarts between them. */
  lemma RepliesNeverDecrease(limit: nat, actions: seq<Action>, w: string, instance: nat, i: nat, j: nat, g: nat, h: nat)
    requires RegistersFor(actions, w, instance) && i <= j
    requires Replied(limit, actions, w, i, g) && Replied(limit, actions, w, j, h)
    ensures g <= h
  {
    ReplyInRun(limit, actions, w, j, h);
    ReplyBelow(limit, actions, w, instance, i, j + 1, g);
  }
}
