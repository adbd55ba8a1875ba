/** The Controller's state and its steps, as functions of memory, durable store and the store's
    replies.  Memory is process-local; the store outlives the process. */
module ControllerState {
  import opened Ordering
  import opened Topology
  import opened ControlParts

  const MAX_U64: nat := 0xFFFF_FFFF_FFFF_FFFF

  // ---------------------------------------------------------------- durable store

  /** How one write ends.  A failed write may still have reached the disk. */
  datatype StoreReply = Done | Failed(committed: bool)

  datatype Target = Target(device: string, peers: set<string>)

  datatype Placement = Placement(instance: nat, generation: nat, targets: map<ExpertKey, Target>)

  datatype StoreState = StoreState(placements: map<string, Placement>, versions: map<nat, nat>)

  function Max(a: nat, b: nat): nat { if a >= b then a else b }

  function StoredVersion(store: StoreState, instance: nat): nat {
    if instance in store.versions then store.versions[instance] else 0
  }

  /** Persist and return a version newer than both the stored and the current one. */
  function AdvanceVersion(store: StoreState, instance: nat, current: nat, reply: StoreReply)
    : (StoreState, Option<nat>)
  {
    var next := Max(StoredVersion(store, instance), current) + 1;
    var advanced := store.(versions := store.versions[instance := next]);
    if next > MAX_U64 then (store, None)
    else match reply
      case Done => (advanced, Some(next))
      case Failed(committed) => (if committed then advanced else store, None)
  }

  function SavePlacement(store: StoreState, workerId: string, placement: Placement, reply: StoreReply)
    : (StoreState, bool)
  {
    var saved := store.(placements := store.placements[workerId := placement]);
    match reply
    case Done => (saved, true)
    case Failed(committed) => (if committed then saved else store, false)
  }

  // ---------------------------------------------------------------- memory

  datatype Registration = Registration(
    workerId: string, startId: string, instance: nat, endpoint: string, device: string,
    maxExperts: nat, maxActive: nat, maxPending: nat, maxBatchTokens: nat, transport: Transport,
    details: string)

  predicate ValidRegistration(r: Registration) {
    && r.workerId != "" && r.startId != "" && r.instance != 0
    && r.endpoint != "" && r.device != ""
    && r.maxExperts > 0 && r.maxActive > 0 && r.maxPending > 0 && r.maxBatchTokens > 0
    && r.transport != UnspecifiedTransport
  }

  datatype RunState = UnspecifiedRunState | Running | ShuttingDown

  datatype StateKind = UnspecifiedKind | Ready | LoadFailed | Removed

  datatype LoadFailure = LoadFailure(stageKnown: bool, codeKnown: bool, diagnostic: string)

  datatype ExpertState = ExpertState(kind: StateKind, failure: Option<LoadFailure>)

  datatype Report = Report(sequence: nat, full: bool, states: map<ExpertKey, ExpertState>)

  datatype Drain = Drain(
    id: nat, generation: nat, minVersion: nat, stopAll: bool, experts: set<ExpertKey>, completed: bool)

  datatype WorkerRecord = WorkerRecord(
    registration: Registration, live: bool, included: bool,
    lease: nat, leaseOpen: bool, lastHeartbeat: Option<nat>, runState: RunState,
    generation: nat, targets: map<ExpertKey, Target>,
    states: map<ExpertKey, ExpertState>, lastReport: Option<Report>, drains: seq<Drain>)

  datatype Revision = Revision(previous: nat, version: nat, changes: seq<RouteEntry>)

  datatype InstanceTopology = InstanceTopology(version: nat, routes: RouteMap, history: seq<Revision>)

  datatype Memory = Memory(
    workers: map<string, WorkerRecord>, topologies: map<nat, InstanceTopology>,
    persisted: map<string, Placement>, nextLease: nat, nextDrainId: nat, historyLimit: nat)

  datatype ControllerError =
    | InvalidRegistration
    | UnknownWorker
    | ReplacedWorker
    | StaleHeartbeatStream
    | InvalidHeartbeatState
    | HeartbeatSequenceRollback(last: nat, received: nat)
    | PlacementTooLarge(maximum: nat, count: nat)
    | PlacementGenerationMismatch(expected: nat, given: nat)
    | ReportSequenceRollback(lastReport: nat, reported: nat)
    | ConflictingReportSequence(sequence: nat)
    | InvalidExpertState
    | UnknownDrain(id: nat)
    | FutureTopologyVersion(current: nat, requested: nat)
    | Persistence

  datatype Outcome<+T> = Outcome(mem: Memory, store: StoreState, reply: Result<T, ControllerError>)

  function Version(mem: Memory, instance: nat): nat {
    if instance in mem.topologies then mem.topologies[instance].version else 0
  }

  function Routes(mem: Memory, instance: nat): RouteMap {
    if instance in mem.topologies then mem.topologies[instance].routes else map[]
  }

  function History(mem: Memory, instance: nat): seq<Revision> {
    if instance in mem.topologies then mem.topologies[instance].history else []
  }

  /** Counters wrap past 2^64 - 1 to 1: zero is never handed out. */
  function NextCounter(n: nat): nat { if n >= MAX_U64 then 1 else n + 1 }

  // ---------------------------------------------------------------- routes

  predicate IsReady(worker: WorkerRecord, key: ExpertKey) {
    key in worker.states && worker.states[key].kind == Ready
  }

  function ReadyKeys(worker: WorkerRecord): set<ExpertKey> {
    set key | key in worker.states && worker.states[key].kind == Ready
  }

  /** A Worker serves an expert when it is live, included, targeted and ready. */
  predicate Serves(worker: WorkerRecord, instance: nat, key: ExpertKey) {
    && worker.registration.instance == instance
    && worker.live && worker.included
    && key in worker.targets
    && IsReady(worker, key)
  }

  function RouteOf(worker: WorkerRecord): WorkerRoute {
    var r := worker.registration;
    WorkerRoute(r.workerId, r.startId, r.endpoint, r.device, r.maxActive, r.maxPending, r.maxBatchTokens, r.transport)
  }

  function Serving(workers: map<string, WorkerRecord>, instance: nat, key: ExpertKey): set<string> {
    set w | w in workers && Serves(workers[w], instance, key)
  }

  function RoutesFor(workers: map<string, WorkerRecord>, ids: seq<string>): (routes: seq<WorkerRoute>)
    requires forall i :: 0 <= i < |ids| ==> ids[i] in workers
    ensures |routes| == |ids|
    ensures forall i :: 0 <= i < |ids| ==> routes[i] == RouteOf(workers[ids[i]])
  {
    seq(|ids|, i requires 0 <= i < |ids| => RouteOf(workers[ids[i]]))
  }

  function ServingList(workers: map<string, WorkerRecord>, instance: nat, key: ExpertKey): (ids: seq<string>)
    ensures forall i :: 0 <= i < |ids| ==> ids[i] in workers && Serves(workers[ids[i]], instance, key)
    ensures forall w :: w in workers && Serves(workers[w], instance, key) ==> w in ids
    ensures forall i, j :: 0 <= i < j < |ids| ==> ids[i] != ids[j]
  {
    StringOrder();
    var ids := SortSet(Serving(workers, instance, key), StringLe);
    assert forall i :: 0 <= i < |ids| ==> ids[i] in ids;
    ids
  }

  /** The replicas of one expert computed from all Worker records, in identity order. */
  function Replicas(workers: map<string, WorkerRecord>, instance: nat, key: ExpertKey): seq<WorkerRoute> {
    RoutesFor(workers, ServingList(workers, instance, key))
  }

  // ---------------------------------------------------------------- publication

  function Changes(mem: Memory, instance: nat, keys: seq<ExpertKey>): seq<RouteEntry> {
    if keys == [] then [] else
    var before := Changes(mem, instance, keys[..|keys| - 1]);
    var key := keys[|keys| - 1];
    var replicas := Replicas(mem.workers, instance, key);
    if ReplicasAt(Routes(mem, instance), key) == replicas then before
    else before + [RouteEntry(key, replicas)]
  }

  /** Drop the oldest revisions beyond the limit. */
  function TrimHistory(history: seq<Revision>, limit: nat): (kept: seq<Revision>)
    ensures |kept| == if |history| > limit then limit else |history|
  {
    if |history| > limit then TrimHistory(history[1..], limit) else history
  }

  /** The changes of one publication, in expert order. */
  function Published(mem: Memory, instance: nat, affected: set<ExpertKey>): seq<RouteEntry> {
    Changes(mem, instance, SortedKeys(affected))
  }

  function NextTopology(mem: Memory, instance: nat, version: nat, changes: seq<RouteEntry>): InstanceTopology {
    InstanceTopology(
      version,
      ApplyEntries(Routes(mem, instance), changes),
      TrimHistory(History(mem, instance) + [Revision(Version(mem, instance), version, changes)], mem.historyLimit))
  }

  /** Recompute the affected experts and publish what changed under a new durable version. */
  function Publish(mem: Memory, store: StoreState, instance: nat, affected: set<ExpertKey>, reply: StoreReply)
    : (p: Outcome<bool>)
    ensures p.mem.workers == mem.workers && p.mem.persisted == mem.persisted && p.store.placements == store.placements
  {
    PublishChanges(mem, store, instance, Published(mem, instance, affected), reply)
  }

  function PublishChanges(mem: Memory, store: StoreState, instance: nat, changes: seq<RouteEntry>, reply: StoreReply)
    : (p: Outcome<bool>)
    ensures p.mem.workers == mem.workers && p.mem.persisted == mem.persisted && p.store.placements == store.placements
  {
    if changes == [] then Outcome(mem, store, Ok(false)) else
    var (stored, version) := AdvanceVersion(store, instance, Version(mem, instance), reply);
    if version.None? then Outcome(mem, stored, Err(Persistence)) else
    var topology := NextTopology(mem, instance, version.value, changes);
    Outcome(mem.(topologies := mem.topologies[instance := topology]), stored, Ok(true))
  }

  function PutWorker(mem: Memory, workerId: string, worker: WorkerRecord): Memory {
    mem.(workers := mem.workers[workerId := worker])
  }

  // ---------------------------------------------------------------- steps

  function CheckStart(mem: Memory, workerId: string, startId: string): Option<ControllerError> {
    if workerId !in mem.workers then Some(UnknownWorker)
    else if mem.workers[workerId].registration.startId != startId then Some(ReplacedWorker)
    else None
  }

  datatype RegisterReply = RegisterReply(version: nat, generation: nat, replaced: Option<string>)

  /** The placement a new process start inherits: from the start it replaces, else from storage,
      and only for the same model instance. */
  function Inherited(mem: Memory, r: Registration): (nat, map<ExpertKey, Target>) {
    if r.workerId in mem.workers && mem.workers[r.workerId].registration.instance == r.instance then
      (mem.workers[r.workerId].generation, mem.workers[r.workerId].targets)
    else if r.workerId in mem.persisted && mem.persisted[r.workerId].instance == r.instance then
      (mem.persisted[r.workerId].generation, mem.persisted[r.workerId].targets)
    else (0, map[])
  }

  function NewRecord(r: Registration, generation: nat, targets: map<ExpertKey, Target>): WorkerRecord {
    WorkerRecord(r, false, true, 0, false, None, Running, generation, targets, map[], None, [])
  }

  function RegisterEnd(mem: Memory, p: Outcome<bool>, r: Registration, generation: nat, replaced: string): Outcome<RegisterReply> {
    if p.reply.Err? then Outcome(mem, p.store, Err(p.reply.error))
    else Outcome(p.mem, p.store, Ok(RegisterReply(Version(p.mem, r.instance), generation, Some(replaced))))
  }

  function Register(mem: Memory, store: StoreState, r: Registration, reply: StoreReply): Outcome<RegisterReply> {
    var w := r.workerId;
    if !ValidRegistration(r) then Outcome(mem, store, Err(InvalidRegistration))
    else if w in mem.workers && mem.workers[w].registration.startId == r.startId then
      if mem.workers[w].registration != r then Outcome(mem, store, Err(InvalidRegistration))
      else Outcome(mem, store, Ok(RegisterReply(Version(mem, r.instance), mem.workers[w].generation, None)))
    else if w in mem.workers then ReplaceStart(mem, store, r, reply)
    else
      var (generation, targets) := Inherited(mem, r);
      var next := PutWorker(mem, w, NewRecord(r, generation, targets));
      Outcome(next, store, Ok(RegisterReply(Version(next, r.instance), generation, None)))
  }

  /** A new start of a known Worker: the routes of the old start go with its record. */
  function ReplaceStart(mem: Memory, store: StoreState, r: Registration, reply: StoreReply): Outcome<RegisterReply>
    requires r.workerId in mem.workers
  {
    var (generation, targets) := Inherited(mem, r);
    var next := PutWorker(mem, r.workerId, NewRecord(r, generation, targets));
    var replaced := mem.workers[r.workerId];
    RegisterEnd(mem, Publish(next, store, replaced.registration.instance, ReadyKeys(replaced), reply), r, generation,
                replaced.registration.startId)
  }

  function OpenHeartbeat(mem: Memory, store: StoreState, w: string, s: string): Outcome<nat> {
    var bad := CheckStart(mem, w, s);
    if bad.Some? then Outcome(mem, store, Err(bad.value)) else
    var lease := NextCounter(mem.nextLease);
    var worker := mem.workers[w].(lease := lease, leaseOpen := true);
    Outcome(PutWorker(mem.(nextLease := lease), w, worker), store, Ok(lease))
  }

  /** Keep a publication, or go back to the memory of the step's start. */
  function CommitOr(mem: Memory, p: Outcome<bool>): Outcome<bool> {
    if p.reply.Err? then Outcome(mem, p.store, Err(p.reply.error)) else Outcome(p.mem, p.store, Ok(true))
  }

  /** Heartbeats that change nothing: stale, repeated, rolled back, or leaving shutdown. */
  function HeartbeatRefusal(worker: WorkerRecord, lease: nat, sequence: nat, runState: RunState)
    : Option<Result<bool, ControllerError>>
  {
    if worker.lease != lease then Some(Err(StaleHeartbeatStream))
    else if worker.lastHeartbeat.Some? && sequence < worker.lastHeartbeat.value then
      Some(Err(HeartbeatSequenceRollback(worker.lastHeartbeat.value, sequence)))
    else if worker.lastHeartbeat == Some(sequence) then
      Some(if worker.runState != runState then Err(InvalidHeartbeatState) else Ok(false))
    else if worker.runState.ShuttingDown? && !runState.ShuttingDown? then Some(Err(InvalidHeartbeatState))
    else None
  }

  /** True when the heartbeat was applied, false when it repeats the last one. */
  function Heartbeat(mem: Memory, store: StoreState, w: string, s: string, lease: nat, sequence: nat,
                     runState: RunState, reply: StoreReply): Outcome<bool>
  {
    if runState.UnspecifiedRunState? then Outcome(mem, store, Err(InvalidHeartbeatState)) else
    var bad := CheckStart(mem, w, s);
    if bad.Some? then Outcome(mem, store, Err(bad.value)) else
    var worker := mem.workers[w];
    var refusal := HeartbeatRefusal(worker, lease, sequence, runState);
    if refusal.Some? then Outcome(mem, store, refusal.value) else
    Beat(mem, store, w, worker.(live := true, lastHeartbeat := Some(sequence), runState := runState), reply)
  }

  /** An accepted heartbeat: routes change only when it makes the Worker live. */
  function Beat(mem: Memory, store: StoreState, w: string, beating: WorkerRecord, reply: StoreReply): Outcome<bool>
    requires w in mem.workers
  {
    var worker, next := mem.workers[w], PutWorker(mem, w, beating);
    if worker.live then Outcome(next, store, Ok(true))
    else CommitOr(mem, Publish(next, store, worker.registration.instance, ReadyKeys(worker), reply))
  }

  /** True when this call ended the Worker's liveness. */
  function CloseHeartbeat(mem: Memory, store: StoreState, w: string, s: string, lease: nat, reply: StoreReply)
    : Outcome<bool>
  {
    var bad := CheckStart(mem, w, s);
    if bad.Some? then Outcome(mem, store, Err(bad.value)) else
    var worker := mem.workers[w];
    if worker.lease != lease || !worker.leaseOpen then Outcome(mem, store, Ok(false)) else
    var next := PutWorker(mem, w, worker.(leaseOpen := false, live := false));
    CommitOr(mem, Publish(next, store, worker.registration.instance, ReadyKeys(worker), reply))
  }

  datatype TargetExpert = TargetExpert(key: ExpertKey, target: Target)

  /** A later entry for the same expert wins. */
  function NormalizeTargets(targets: seq<TargetExpert>): map<ExpertKey, Target> {
    if targets == [] then map[]
    else NormalizeTargets(targets[..|targets| - 1])[targets[|targets| - 1].key := targets[|targets| - 1].target]
  }

  /** The target list sent to the Worker, in expert order. */
  function TargetList(targets: map<ExpertKey, Target>): seq<TargetExpert> {
    var keys := SortedKeys(targets.Keys);
    seq(|keys|, i requires 0 <= i < |keys| => TargetExpert(keys[i], targets[keys[i]]))
  }

  datatype PlacementReply = PlacementReply(generation: nat, changed: bool, targets: seq<TargetExpert>)

  predicate PersistedMatches(mem: Memory, w: string, worker: WorkerRecord) {
    && w in mem.persisted
    && mem.persisted[w] == Placement(worker.registration.instance, worker.generation, worker.targets)
  }

  function Unfinished(drains: seq<Drain>): seq<Drain> {
    if drains == [] then []
    else if drains[|drains| - 1].completed then Unfinished(drains[..|drains| - 1])
    else Unfinished(drains[..|drains| - 1]) + [drains[|drains| - 1]]
  }

  predicate IsOpenExpertDrain(d: Drain) { !d.completed && !d.stopAll }

  /** Experts that must be drained when `worker` moves to `targets`: ready targets that disappear,
      and still-ready experts of unfinished expert drains. */
  function DrainedBy(worker: WorkerRecord, targets: map<ExpertKey, Target>): set<ExpertKey> {
    (set key | key in worker.targets && key !in targets && IsReady(worker, key)) +
    (set i: nat, key | i < |worker.drains| && IsOpenExpertDrain(worker.drains[i]) && key in worker.drains[i].experts &&
                       key !in targets && IsReady(worker, key) :: key)
  }

  function CloseExpertDrains(drains: seq<Drain>): (closed: seq<Drain>)
    ensures |closed| == |drains|
    ensures forall i :: 0 <= i < |drains| ==>
                          closed[i] == if IsOpenExpertDrain(drains[i]) then drains[i].(completed := true) else drains[i]
  {
    seq(|drains|, i requires 0 <= i < |drains| =>
          if IsOpenExpertDrain(drains[i]) then drains[i].(completed := true) else drains[i])
  }

  /** Replace the unfinished expert drain of `w` by one for `experts`, if there is anything to drain. */
  function ReissueDrain(mem: Memory, w: string, experts: set<ExpertKey>): Memory
    requires w in mem.workers
  {
    var worker := mem.workers[w];
    var closed := CloseExpertDrains(worker.drains);
    if experts == {} then PutWorker(mem, w, worker.(drains := closed)) else
    var id := NextCounter(mem.nextDrainId);
    var drain := Drain(id, worker.generation, Version(mem, worker.registration.instance), false, experts, false);
    PutWorker(mem.(nextDrainId := id), w, worker.(drains := closed + [drain]))
  }

  /** Memory with the Worker moved to a saved placement, before routes and drains follow. */
  function Moved(mem: Memory, w: string, placement: Placement): Memory
    requires w in mem.workers
  {
    PutWorker(mem, w, mem.workers[w].(generation := placement.generation, targets := placement.targets))
    .(persisted := mem.persisted[w := placement])
  }

  function PlaceEnd(mem: Memory, p: Outcome<bool>, w: string, placement: Placement): Outcome<PlacementReply>
    requires w in mem.workers && w in p.mem.workers
  {
    if p.reply.Err? then Outcome(mem, p.store, Err(p.reply.error))
    else Outcome(ReissueDrain(p.mem, w, DrainedBy(mem.workers[w], placement.targets)), p.store,
                 Ok(PlacementReply(placement.generation, true, TargetList(placement.targets))))
  }

  function PlaceTargets(mem: Memory, store: StoreState, w: string, placement: Placement, advance: StoreReply)
    : Outcome<PlacementReply>
    requires w in mem.workers
  {
    var worker := mem.workers[w];
    PlaceEnd(mem,
             Publish(Moved(mem, w, placement), store, worker.registration.instance,
                     worker.targets.Keys + placement.targets.Keys, advance),
             w, placement)
  }

  /** Calls that change nothing: too many experts, the stored placement again, or no generation left. */
  function TargetsRefusal(mem: Memory, w: string, targets: map<ExpertKey, Target>)
    : Option<Result<PlacementReply, ControllerError>>
    requires w in mem.workers
  {
    var worker := mem.workers[w];
    if |targets| > worker.registration.maxExperts then
      Some(Err(PlacementTooLarge(worker.registration.maxExperts, |targets|)))
    else if worker.targets == targets && PersistedMatches(mem, w, worker) then
      Some(Ok(PlacementReply(worker.generation, false, TargetList(targets))))
    else if worker.generation >= MAX_U64 then Some(Err(Persistence))
    else None
  }

  function NextPlacement(worker: WorkerRecord, targets: map<ExpertKey, Target>): Placement {
    Placement(worker.registration.instance, worker.generation + 1, targets)
  }

  function ChangeTargets(mem: Memory, store: StoreState, w: string, targets: map<ExpertKey, Target>,
                         save: StoreReply, advance: StoreReply): Outcome<PlacementReply>
    requires w in mem.workers
  {
    var refusal := TargetsRefusal(mem, w, targets);
    if refusal.Some? then Outcome(mem, store, refusal.value) else
    var placement := NextPlacement(mem.workers[w], targets);
    var (saved, ok) := SavePlacement(store, w, placement, save);
    if !ok then Outcome(mem, saved, Err(Persistence))
    else PlaceTargets(mem, saved, w, placement, advance)
  }

  /** Save the new target list under the next generation, publish, then drain what disappeared. */
  function SetTargets(mem: Memory, store: StoreState, w: string, s: string, targets: seq<TargetExpert>,
                      save: StoreReply, advance: StoreReply): Outcome<PlacementReply>
  {
    var bad := CheckStart(mem, w, s);
    if bad.Some? then Outcome(mem, store, Err(bad.value))
    else ChangeTargets(mem, store, w, NormalizeTargets(targets), save, advance)
  }

  datatype ReportedState = ReportedState(key: ExpertKey, state: ExpertState)

  const MAX_DIAGNOSTIC: nat := 1024

  predicate ValidState(state: ExpertState) {
    match state.kind
    case UnspecifiedKind => false
    case LoadFailed =>
      state.failure.Some? && state.failure.value.stageKnown && state.failure.value.codeKnown &&
      |state.failure.value.diagnostic| <= MAX_DIAGNOSTIC
    case _ => state.failure.None?
  }

  function NormalizeStates(states: seq<ReportedState>): Option<map<ExpertKey, ExpertState>> {
    if states == [] then Some(map[]) else
    var before := NormalizeStates(states[..|states| - 1]);
    var last := states[|states| - 1];
    if before.None? || !ValidState(last.state) then None else Some(before.value[last.key := last.state])
  }

  /** A full report replaces what was known; an update merges into it. */
  function ReportedRecord(worker: WorkerRecord, report: Report): WorkerRecord {
    worker.(states := if report.full then report.states else worker.states + report.states, lastReport := Some(report))
  }

  function ReportedKeys(worker: WorkerRecord, report: Report): set<ExpertKey> {
    (if report.full then worker.states.Keys else {}) + report.states.Keys
  }

  /** Reports that change nothing: wrong generation, rolled back, repeated or conflicting. */
  function ReportRefusal(worker: WorkerRecord, generation: nat, report: Report): Option<Result<bool, ControllerError>> {
    if generation != worker.generation then Some(Err(PlacementGenerationMismatch(worker.generation, generation)))
    else if worker.lastReport.Some? && report.sequence < worker.lastReport.value.sequence then
      Some(Err(ReportSequenceRollback(worker.lastReport.value.sequence, report.sequence)))
    else if worker.lastReport.Some? && report.sequence == worker.lastReport.value.sequence then
      Some(if worker.lastReport.value == report then Ok(false) else Err(ConflictingReportSequence(report.sequence)))
    else None
  }

  function ApplyReport(mem: Memory, store: StoreState, w: string, generation: nat, report: Report, reply: StoreReply)
    : Outcome<bool>
    requires w in mem.workers
  {
    var worker := mem.workers[w];
    var refusal := ReportRefusal(worker, generation, report);
    if refusal.Some? then Outcome(mem, store, refusal.value) else
    var next := PutWorker(mem, w, ReportedRecord(worker, report));
    CommitOr(mem, Publish(next, store, worker.registration.instance, ReportedKeys(worker, report), reply))
  }

  /** True when the report was applied, false when it repeats the last one. */
  function StateReport(mem: Memory, store: StoreState, w: string, s: string, generation: nat, sequence: nat,
                       full: bool, reported: seq<ReportedState>, reply: StoreReply): Outcome<bool>
  {
    var normalized := NormalizeStates(reported);
    if normalized.None? then Outcome(mem, store, Err(InvalidExpertState)) else
    var bad := CheckStart(mem, w, s);
    if bad.Some? then Outcome(mem, store, Err(bad.value))
    else ApplyReport(mem, store, w, generation, Report(sequence, full, normalized.value), reply)
  }

  /** Every ready expert of the Worker has a published replica in another process. */
  predicate ReplacementsReady(mem: Memory, w: string)
    requires w in mem.workers
  {
    var r := mem.workers[w].registration;
    var routes := Routes(mem, r.instance);
    forall key :: key in ReadyKeys(mem.workers[w]) ==>
      exists i :: 0 <= i < |ReplicasAt(routes, key)| &&
        (ReplicasAt(routes, key)[i].workerId != r.workerId || ReplicasAt(routes, key)[i].startId != r.startId)
  }

  predicate HasStopAll(drains: seq<Drain>) {
    exists i :: 0 <= i < |drains| && drains[i].stopAll
  }

  predicate ShutdownDue(mem: Memory, w: string)
    requires w in mem.workers
  {
    && mem.workers[w].runState.ShuttingDown?
    && !HasStopAll(mem.workers[w].drains)
    && ReplacementsReady(mem, w)
  }

  function ShutdownEnd(mem: Memory, p: Outcome<bool>, w: string): Outcome<seq<Drain>>
    requires w in mem.workers
  {
    if p.reply.Err? then Outcome(mem, p.store, Err(p.reply.error)) else
    var worker := mem.workers[w];
    var id := NextCounter(p.mem.nextDrainId);
    var drain := Drain(id, worker.generation, Version(p.mem, worker.registration.instance), true, ReadyKeys(worker), false);
    var drains := worker.drains + [drain];
    Outcome(PutWorker(p.mem.(nextDrainId := id), w, worker.(included := false, drains := drains)), p.store,
            Ok(Unfinished(drains)))
  }

  /** The unfinished drains of a Worker, creating its whole-Worker drain when that is due. */
  function DrainAuthorizations(mem: Memory, store: StoreState, w: string, s: string, reply: StoreReply)
    : Outcome<seq<Drain>>
  {
    var bad := CheckStart(mem, w, s);
    if bad.Some? then Outcome(mem, store, Err(bad.value)) else
    var worker := mem.workers[w];
    if !ShutdownDue(mem, w) then Outcome(mem, store, Ok(Unfinished(worker.drains))) else
    ShutdownEnd(mem, Publish(PutWorker(mem, w, worker.(included := false)), store, worker.registration.instance,
                             ReadyKeys(worker), reply), w)
  }

  function FindDrain(drains: seq<Drain>, id: nat): (found: Option<nat>)
    ensures found.Some? ==> found.value < |drains| && drains[found.value].id == id &&
                            forall j :: 0 <= j < found.value ==> drains[j].id != id
    ensures found.None? ==> forall j :: 0 <= j < |drains| ==> drains[j].id != id
  {
    if drains == [] then None else
    var earlier := FindDrain(drains[..|drains| - 1], id);
    if earlier.Some? then earlier
    else if drains[|drains| - 1].id == id then Some(|drains| - 1) else None
  }

  /** True when this call finished the drain, false when it was finished before. */
  function CompleteDrain(mem: Memory, store: StoreState, w: string, s: string, id: nat, reply: StoreReply)
    : Outcome<bool>
  {
    var bad := CheckStart(mem, w, s);
    if bad.Some? then Outcome(mem, store, Err(bad.value)) else
    var worker := mem.workers[w];
    var found := FindDrain(worker.drains, id);
    if found.None? then Outcome(mem, store, Err(UnknownDrain(id))) else
    var drain := worker.drains[found.value];
    if drain.completed then Outcome(mem, store, Ok(false)) else
    var drains := worker.drains[found.value := drain.(completed := true)];
    if !drain.stopAll then Outcome(PutWorker(mem, w, worker.(drains := drains)), store, Ok(true)) else
    var next := PutWorker(mem, w, worker.(drains := drains, live := false));
    CommitOr(mem, Publish(next, store, worker.registration.instance, ReadyKeys(worker), reply))
  }

  // ---------------------------------------------------------------- restart

  function KnownInstances(store: StoreState): set<nat> {
    store.versions.Keys + (set w | w in store.placements :: store.placements[w].instance)
  }

  /** Give every listed instance a fresh version with no routes; stop at the first failed write. */
  function RestoreTopologies(store: StoreState, instances: seq<nat>, replies: map<nat, StoreReply>)
    : (StoreState, Option<map<nat, InstanceTopology>>)
  {
    if instances == [] then (store, Some(map[])) else
    var (before, topologies) := RestoreTopologies(store, instances[..|instances| - 1], replies);
    if topologies.None? then (before, None) else
    var i := instances[|instances| - 1];
    var (after, version) := AdvanceVersion(before, i, StoredVersion(store, i), if i in replies then replies[i] else Done);
    if version.None? then (after, None)
    else (after, Some(topologies.value[i := InstanceTopology(version.value, map[], [])]))
  }

  /** The stored instances, visited in their order by default; `order` is used if it lists them all, so
      that what is proved does not depend on the order. */
  function VisitOrder(store: StoreState, order: seq<nat>): (instances: seq<nat>)
    ensures NoDuplicates(instances) && forall i :: i in instances <==> i in KnownInstances(store)
  {
    NatOrder();
    if (forall i, j :: 0 <= i < j < |order| ==> order[i] != order[j]) && (set i | i in order) == KnownInstances(store) then
      assert forall i :: i in order <==> i in KnownInstances(store);
      order
    else SortSet(KnownInstances(store), NatLe)
  }

  /** A new process reads the store; readiness and liveness start empty. */
  function Restore(store: StoreState, historyLimit: nat, order: seq<nat>, replies: map<nat, StoreReply>)
    : (StoreState, Option<Memory>)
  {
    var (after, topologies) := RestoreTopologies(store, VisitOrder(store, order), replies);
    if topologies.None? then (after, None)
    else (after, Some(Memory(map[], topologies.value, store.placements, 0, 0, historyLimit)))
  }

  // ---------------------------------------------------------------- topology stream

  function SnapshotMessages(instance: nat, version: nat, routes: RouteMap): seq<Message> {
    var entries := RouteList(routes);
    var count := PartCount(|entries|);
    seq(count, i requires 0 <= i < count => SnapshotPart(instance, version, i, count, Part(entries, i)))
  }

  /** The routes in expert order. */
  function RouteList(routes: RouteMap): (entries: seq<RouteEntry>)
    ensures |entries| == |SortedKeys(routes.Keys)|
    ensures forall i :: 0 <= i < |entries| ==> entries[i].key == SortedKeys(routes.Keys)[i]
    ensures forall i :: 0 <= i < |entries| ==> entries[i].key in routes && entries[i].replicas == routes[entries[i].key]
  {
    var keys := SortedKeys(routes.Keys);
    seq(|keys|, i requires 0 <= i < |keys| => RouteEntry(keys[i], routes[keys[i]]))
  }

  function UpdateMessages(instance: nat, revision: Revision): seq<Message> {
    var count := PartCount(|revision.changes|);
    seq(count, i requires 0 <= i < count =>
          UpdatePart(instance, revision.previous, revision.version, i, count, Part(revision.changes, i)))
  }

  /** Follow the kept revisions from `version`: where the chain ends, and the revisions on it. */
  function FollowHistory(history: seq<Revision>, version: nat): (nat, seq<Revision>) {
    if history == [] then (version, []) else
    var (cursor, followed) := FollowHistory(history[..|history| - 1], version);
    var last := history[|history| - 1];
    if last.previous == cursor then (last.version, followed + [last]) else (cursor, followed)
  }

  function ConcatUpdates(instance: nat, revisions: seq<Revision>): seq<Message> {
    if revisions == [] then []
    else ConcatUpdates(instance, revisions[..|revisions| - 1]) + UpdateMessages(instance, revisions[|revisions| - 1])
  }

  /** What a client that holds `current` must receive. */
  function TopologyMessages(mem: Memory, instance: nat, current: nat): Result<seq<Message>, ControllerError> {
    if instance !in mem.topologies then
      if current > 0 then Err(FutureTopologyVersion(0, current))
      else Ok(SnapshotMessages(instance, 0, map[]))
    else
      var topology := mem.topologies[instance];
      if current > topology.version then Err(FutureTopologyVersion(topology.version, current))
      else if current == topology.version then Ok([])
      else
        var (cursor, followed) := FollowHistory(topology.history, current);
        if cursor == topology.version then Ok(ConcatUpdates(instance, followed))
        else Ok(SnapshotMessages(instance, topology.version, topology.routes))
  }
}
