/** What every Controller call does, said on the records, the routes and the reply alone.

    The invariant says that routes follow whatever record a call leaves.  Here is which record that is,
    which replies are given, and what the call means for the routes of its Worker. */
module ControllerEffects {
  import opened Ordering
  import opened Topology
  import opened ControllerState
  import opened ControllerRoutes
  import opened ControllerLog
  import opened ControllerInvariant
  import Runs = ControllerRuns

  // ---------------------------------------------------------------- who is routed

  /** Some route of the expert names Worker `w`. */
  ghost predicate RoutedTo(mem: Memory, instance: nat, key: ExpertKey, w: string) {
    exists r :: r in ReplicasAt(Routes(mem, instance), key) && r.workerId == w
  }

  /** The Worker is live, part of the topology, meant to hold the expert, and reported it ready. */
  ghost predicate MayServe(worker: WorkerRecord, instance: nat, key: ExpertKey) {
    && worker.registration.instance == instance && worker.live && worker.included
    && key in worker.targets && key in worker.states && worker.states[key].kind == Ready
  }

  /** A Worker is routed for exactly the experts it may serve, under its current start. */
  lemma RoutedExactly(mem: Memory, instance: nat, key: ExpertKey, w: string)
    requires RoutesExact(mem) && Keyed(mem.workers)
    ensures RoutedTo(mem, instance, key, w) <==> w in mem.workers && MayServe(mem.workers[w], instance, key)
    ensures forall r :: r in ReplicasAt(Routes(mem, instance), key) && r.workerId == w ==>
              w in mem.workers && r.startId == mem.workers[w].registration.startId
  {
    assert ReplicasAt(Routes(mem, instance), key) == Replicas(mem.workers, instance, key);
    ReplicaMembers(mem.workers, instance, key);
    if w in mem.workers && MayServe(mem.workers[w], instance, key) {
      assert Serves(mem.workers[w], instance, key);
      assert RouteOf(mem.workers[w]) in ReplicasAt(Routes(mem, instance), key);
    }
  }

  ghost predicate NotRouted(mem: Memory, w: string) {
    forall i, key :: !RoutedTo(mem, i, key, w)
  }

  lemma IdleIsNotRouted(mem: Memory, store: StoreState, issued: Issued, w: string)
    requires StepOk(mem, store, issued) && (w in mem.workers ==> !mem.workers[w].live || !mem.workers[w].included)
    ensures NotRouted(mem, w)
  {
    forall i, key ensures !RoutedTo(mem, i, key, w) { RoutedExactly(mem, i, key, w); }
  }

  /** Routes of `w` are exactly its serving experts. */
  ghost predicate RoutedAsServed(mem: Memory, w: string) {
    forall i, key :: RoutedTo(mem, i, key, w) <==> w in mem.workers && MayServe(mem.workers[w], i, key)
  }

  lemma StepIsRouted(mem: Memory, store: StoreState, issued: Issued, w: string)
    requires StepOk(mem, store, issued)
    ensures RoutedAsServed(mem, w)
  {
    forall i, key ensures RoutedTo(mem, i, key, w) <==> w in mem.workers && MayServe(mem.workers[w], i, key) {
      RoutedExactly(mem, i, key, w);
    }
  }

  // ---------------------------------------------------------------- shared ends

  /** The call comes from the registered start of `w`. */
  ghost predicate Current(mem: Memory, w: string, s: string) {
    w in mem.workers && mem.workers[w].registration.startId == s
  }

  function NotCurrent(mem: Memory, w: string): ControllerError {
    if w in mem.workers then ReplacedWorker else UnknownWorker
  }

  /** The durable version write of a publication can only fail when the store fails it or no version is left. */
  ghost predicate CanWrite(mem: Memory, store: StoreState, instance: nat, reply: StoreReply) {
    reply.Done? && StoredVersion(store, instance) < MAX_U64 && Version(mem, instance) < MAX_U64
  }

  /** Nothing but the record of `w` and the published topologies changed. */
  ghost predicate OnlyRecord(mem: Memory, after: Memory, w: string) {
    && w in after.workers && after.workers == mem.workers[w := after.workers[w]]
    && after.persisted == mem.persisted && after.nextLease == mem.nextLease && after.nextDrainId == mem.nextDrainId
    && after.historyLimit == mem.historyLimit
  }

  lemma PublishEnds(mem: Memory, store: StoreState, instance: nat, affected: set<ExpertKey>, reply: StoreReply)
    ensures var p := Publish(mem, store, instance, affected, reply);
            && (p.reply.Ok? ==> p.mem == mem.(topologies := p.mem.topologies))
            && (p.reply.Err? ==> p.reply == Err(Persistence) && !CanWrite(mem, store, instance, reply))
            && (p.reply == Ok(false) ==> p.mem == mem && p.store == store)
  {
  }

  /** A changed record is published, or everything is as before and the write had failed. */
  lemma CommitDoes(mem: Memory, store: StoreState, w: string, record: WorkerRecord, instance: nat, affected: set<ExpertKey>, reply: StoreReply)
    ensures var o := CommitOr(mem, Publish(PutWorker(mem, w, record), store, instance, affected, reply));
            || (o.reply == Ok(true) && OnlyRecord(mem, o.mem, w) && o.mem.workers[w] == record)
            || (o.reply == Err(Persistence) && o.mem == mem && !CanWrite(mem, store, instance, reply))
  {
    PublishEnds(PutWorker(mem, w, record), store, instance, affected, reply);
  }

  /** A version write gives out one past everything stored or current, and touches one instance; a failed
      one may have reached the store or not, and gives out nothing. */
  lemma AdvanceDoes(store: StoreState, instance: nat, current: nat, reply: StoreReply)
    ensures var (after, version) := AdvanceVersion(store, instance, current, reply);
            var next := if StoredVersion(store, instance) >= current then StoredVersion(store, instance) + 1 else current + 1;
            && after.placements == store.placements
            && (forall i :: i != instance ==> StoredVersion(after, i) == StoredVersion(store, i))
            && (version == if reply.Done? && next <= MAX_U64 then Some(next) else None)
            && (StoredVersion(after, instance) ==
                if next <= MAX_U64 && (reply.Done? || reply.committed) then next else StoredVersion(store, instance))
  {
  }

  /** A placement write replaces the one of its Worker, with the same ways to fail. */
  lemma SaveDoes(store: StoreState, w: string, placement: Placement, reply: StoreReply)
    ensures var (after, ok) := SavePlacement(store, w, placement, reply);
            && after.versions == store.versions && (ok <==> reply.Done?)
            && after.placements == if reply.Done? || reply.committed then store.placements[w := placement] else store.placements
  {
  }

  // ---------------------------------------------------------------- heartbeats

  lemma OpenHeartbeatDoes(mem: Memory, store: StoreState, w: string, s: string)
    ensures var out := OpenHeartbeat(mem, store, w, s);
            && out.store == store
            && (!Current(mem, w, s) ==> out.mem == mem && out.reply == Err(NotCurrent(mem, w)))
            && (Current(mem, w, s) ==>
                  && out.reply.Ok? && NextNumber(mem.nextLease, out.reply.value)
                  && w in out.mem.workers && out.mem == mem.(workers := mem.workers[w := out.mem.workers[w]], nextLease := out.reply.value)
                  && out.mem.workers[w].lease == out.reply.value && out.mem.workers[w].leaseOpen
                  && mem.workers[w] == out.mem.workers[w].(lease := mem.workers[w].lease, leaseOpen := mem.workers[w].leaseOpen))
  {
  }

  /** A heartbeat that counts: on the newest stream, newer than the last one, and not leaving shutdown. */
  ghost predicate Beats(worker: WorkerRecord, lease: nat, n: nat, run: RunState) {
    && run != UnspecifiedRunState && worker.lease == lease
    && (worker.lastHeartbeat.Some? ==> worker.lastHeartbeat.value < n)
    && (worker.runState == ShuttingDown ==> run == ShuttingDown)
  }

  ghost predicate RepeatsBeat(worker: WorkerRecord, lease: nat, n: nat, run: RunState) {
    run != UnspecifiedRunState && worker.lease == lease && worker.lastHeartbeat == Some(n) && worker.runState == run
  }

  /** The reply of a heartbeat. */
  ghost predicate BeatReply(mem: Memory, store: StoreState, w: string, s: string, lease: nat, n: nat, run: RunState, reply: StoreReply,
                            r: Result<bool, ControllerError>)
  {
    && (run == UnspecifiedRunState ==> r == Err(InvalidHeartbeatState))
    && (run != UnspecifiedRunState && !Current(mem, w, s) ==> r == Err(NotCurrent(mem, w)))
    && (run != UnspecifiedRunState && Current(mem, w, s) ==>
          var worker := mem.workers[w];
          && (worker.lease != lease ==> r == Err(StaleHeartbeatStream))
          && (worker.lease == lease && worker.lastHeartbeat.Some? && n < worker.lastHeartbeat.value ==>
                r == Err(HeartbeatSequenceRollback(worker.lastHeartbeat.value, n)))
          && (RepeatsBeat(worker, lease, n, run) ==> r == Ok(false))
          && (Beats(worker, lease, n, run) ==>
                r == Ok(true) || (r == Err(Persistence) && !worker.live && !CanWrite(mem, store, worker.registration.instance, reply)))
          && ((worker.lease == lease && (worker.lastHeartbeat.Some? ==> worker.lastHeartbeat.value <= n)
               && !Beats(worker, lease, n, run) && !RepeatsBeat(worker, lease, n, run)) ==> r == Err(InvalidHeartbeatState)))
  }

  lemma BeatDoes(mem: Memory, store: StoreState, w: string, beating: WorkerRecord, reply: StoreReply)
    requires w in mem.workers
    ensures var o := Beat(mem, store, w, beating, reply);
            || (o.reply == Ok(true) && OnlyRecord(mem, o.mem, w) && o.mem.workers[w] == beating)
            || (o.reply == Err(Persistence) && o.mem == mem && !mem.workers[w].live
                && !CanWrite(mem, store, mem.workers[w].registration.instance, reply))
  {
    var worker := mem.workers[w];
    CommitDoes(mem, store, w, beating, worker.registration.instance, ReadyKeys(worker), reply);
  }

  /** A heartbeat that counts goes through; any other changes nothing. */
  lemma HeartbeatSplits(mem: Memory, store: StoreState, w: string, s: string, lease: nat, n: nat, run: RunState, reply: StoreReply)
    requires Current(mem, w, s)
    ensures var out := Heartbeat(mem, store, w, s, lease, n, run, reply);
            if Beats(mem.workers[w], lease, n, run) then
              out == Beat(mem, store, w, mem.workers[w].(live := true, lastHeartbeat := Some(n), runState := run), reply)
            else out.mem == mem && out.reply != Ok(true)
  {
  }

  lemma HeartbeatAnswers(mem: Memory, store: StoreState, w: string, s: string, lease: nat, n: nat, run: RunState, reply: StoreReply)
    ensures BeatReply(mem, store, w, s, lease, n, run, reply, Heartbeat(mem, store, w, s, lease, n, run, reply).reply)
  {
    if Current(mem, w, s) && Beats(mem.workers[w], lease, n, run) {
      HeartbeatSplits(mem, store, w, s, lease, n, run, reply);
      BeatDoes(mem, store, w, mem.workers[w].(live := true, lastHeartbeat := Some(n), runState := run), reply);
    }
  }

  /** An accepted heartbeat makes the Worker live with the reported state; any other leaves memory alone. */
  lemma HeartbeatDoes(mem: Memory, store: StoreState, w: string, s: string, lease: nat, n: nat, run: RunState, reply: StoreReply)
    ensures var out := Heartbeat(mem, store, w, s, lease, n, run, reply);
            && (out.reply != Ok(true) ==> out.mem == mem)
            && (out.reply == Ok(true) ==>
                  && Current(mem, w, s) && Beats(mem.workers[w], lease, n, run) && OnlyRecord(mem, out.mem, w)
                  && out.mem.workers[w].live && out.mem.workers[w].lastHeartbeat == Some(n) && out.mem.workers[w].runState == run
                  && mem.workers[w] == out.mem.workers[w].(live := mem.workers[w].live, lastHeartbeat := mem.workers[w].lastHeartbeat,
                                                           runState := mem.workers[w].runState))
  {
    if Current(mem, w, s) {
      HeartbeatSplits(mem, store, w, s, lease, n, run, reply);
      BeatDoes(mem, store, w, mem.workers[w].(live := true, lastHeartbeat := Some(n), runState := run), reply);
    }
  }

  /** After a heartbeat the Worker is routed for exactly the experts it may serve. */
  lemma HeartbeatRoutes(mem: Memory, store: StoreState, issued: Issued, w: string, s: string, lease: nat, n: nat, run: RunState, reply: StoreReply)
    requires Inv(mem, store, issued)
    ensures RoutedAsServed(Heartbeat(mem, store, w, s, lease, n, run, reply).mem, w)
  {
    HeartbeatKeepsInv(mem, store, issued, w, s, lease, n, run, reply);
    var out := Heartbeat(mem, store, w, s, lease, n, run, reply);
    StepIsRouted(out.mem, out.store, issued, w);
  }

  /** Closing the newest stream ends liveness and withdraws every route of the Worker; closing another
      one, or one closed before, does nothing. */
  lemma CloseHeartbeatDoes(mem: Memory, store: StoreState, issued: Issued, w: string, s: string, lease: nat, reply: StoreReply)
    requires Inv(mem, store, issued)
    ensures var out := CloseHeartbeat(mem, store, w, s, lease, reply);
            && (out.reply != Ok(true) ==> out.mem == mem)
            && (out.reply == Ok(true) ==>
                  && OnlyRecord(mem, out.mem, w) && !out.mem.workers[w].live && !out.mem.workers[w].leaseOpen
                  && w in mem.workers
                  && mem.workers[w] == out.mem.workers[w].(live := mem.workers[w].live, leaseOpen := mem.workers[w].leaseOpen)
                  && NotRouted(out.mem, w))
            && (!Current(mem, w, s) ==> out.reply == Err(NotCurrent(mem, w)))
            && (Current(mem, w, s) && !(mem.workers[w].lease == lease && mem.workers[w].leaseOpen) ==> out.reply == Ok(false))
            && (Current(mem, w, s) && mem.workers[w].lease == lease && mem.workers[w].leaseOpen ==>
                  out.reply == Ok(true) ||
                  (out.reply == Err(Persistence) && !CanWrite(mem, store, mem.workers[w].registration.instance, reply)))
  {
    var out := CloseHeartbeat(mem, store, w, s, lease, reply);
    CloseHeartbeatKeepsInv(mem, store, issued, w, s, lease, reply);
    if Current(mem, w, s) {
      var worker := mem.workers[w];
      CommitDoes(mem, store, w, worker.(leaseOpen := false, live := false), worker.registration.instance, ReadyKeys(worker), reply);
    }
    if out.reply == Ok(true) { IdleIsNotRouted(out.mem, out.store, issued, w); }
  }

  // ---------------------------------------------------------------- registration

  /** A record without any history: nothing reported, nothing drained, not live, but part of the topology. */
  ghost predicate StartsFresh(worker: WorkerRecord, r: Registration) {
    && worker.registration == r && !worker.live && worker.included && worker.lease == 0 && !worker.leaseOpen
    && worker.lastHeartbeat == None && worker.runState == Running && worker.states == map[]
    && worker.lastReport == None && worker.drains == []
  }

  /** The placement a new start takes over: that of the start it replaces, or the stored one, of the same instance. */
  ghost predicate TakesOver(mem: Memory, r: Registration, generation: nat, targets: map<ExpertKey, Target>) {
    if r.workerId in mem.workers && mem.workers[r.workerId].registration.instance == r.instance then
      generation == mem.workers[r.workerId].generation && targets == mem.workers[r.workerId].targets
    else if r.workerId in mem.persisted && mem.persisted[r.workerId].instance == r.instance then
      generation == mem.persisted[r.workerId].generation && targets == mem.persisted[r.workerId].targets
    else generation == 0 && targets == map[]
  }

  /** A fresh record that took over the placement, and the reply that says so. */
  ghost predicate Started(mem: Memory, out: Outcome<RegisterReply>, r: Registration, replaced: Option<string>) {
    && out.reply.Ok? && OnlyRecord(mem, out.mem, r.workerId) && StartsFresh(out.mem.workers[r.workerId], r)
    && TakesOver(mem, r, out.mem.workers[r.workerId].generation, out.mem.workers[r.workerId].targets)
    && out.reply.value == RegisterReply(Version(out.mem, r.instance), out.mem.workers[r.workerId].generation, replaced)
  }

  lemma RegisterEndDoes(mem: Memory, p: Outcome<bool>, r: Registration, replaced: string)
    requires var (generation, targets) := Inherited(mem, r);
             p.mem == PutWorker(mem, r.workerId, NewRecord(r, generation, targets)).(topologies := p.mem.topologies) && p.reply.Ok?
    ensures Started(mem, RegisterEnd(mem, p, r, Inherited(mem, r).0, replaced), r, Some(replaced))
  {
    var (generation, targets) := Inherited(mem, r);
    assert StartsFresh(NewRecord(r, generation, targets), r) && TakesOver(mem, r, generation, targets);
  }

  lemma ReplaceDoes(mem: Memory, store: StoreState, r: Registration, reply: StoreReply)
    requires r.workerId in mem.workers
    ensures var w := r.workerId;
            var out := ReplaceStart(mem, store, r, reply);
            || Started(mem, out, r, Some(mem.workers[w].registration.startId))
            || (out.reply == Err(Persistence) && out.mem == mem
                && !CanWrite(mem, store, mem.workers[w].registration.instance, reply))
  {
    var (generation, targets) := Inherited(mem, r);
    var replaced, next := mem.workers[r.workerId], PutWorker(mem, r.workerId, NewRecord(r, generation, targets));
    var p := Publish(next, store, replaced.registration.instance, ReadyKeys(replaced), reply);
    PublishEnds(next, store, replaced.registration.instance, ReadyKeys(replaced), reply);
    if p.reply.Ok? { RegisterEndDoes(mem, p, r, replaced.registration.startId); }
  }

  lemma FirstStartDoes(mem: Memory, store: StoreState, r: Registration, reply: StoreReply)
    requires ValidRegistration(r) && r.workerId !in mem.workers
    ensures Started(mem, Register(mem, store, r, reply), r, None)
  {
    var (generation, targets) := Inherited(mem, r);
    assert StartsFresh(NewRecord(r, generation, targets), r) && TakesOver(mem, r, generation, targets);
  }

  /** A registration of a start that is there already, or one that is not valid. */
  lemma NoStartDoes(mem: Memory, store: StoreState, r: Registration, reply: StoreReply)
    ensures var w := r.workerId;
            var out := Register(mem, store, r, reply);
            if !ValidRegistration(r) || (Current(mem, w, r.startId) && mem.workers[w].registration != r) then
              out.mem == mem && out.reply == Err(InvalidRegistration)
            else if Current(mem, w, r.startId) then
              out.mem == mem && out.reply == Ok(RegisterReply(Version(mem, r.instance), mem.workers[w].generation, None))
            else w in mem.workers ==> out == ReplaceStart(mem, store, r, reply)
  {
  }

  /** A new start replaces the record by a fresh one that takes over the placement; a repeated
      registration, or an invalid one, changes nothing. */
  lemma RegisterDoes(mem: Memory, store: StoreState, r: Registration, reply: StoreReply)
    ensures var w := r.workerId;
            var out := Register(mem, store, r, reply);
            if !ValidRegistration(r) || (Current(mem, w, r.startId) && mem.workers[w].registration != r) then
              out.mem == mem && out.reply == Err(InvalidRegistration)
            else if Current(mem, w, r.startId) then
              out.mem == mem && out.reply == Ok(RegisterReply(Version(mem, r.instance), mem.workers[w].generation, None))
            else if w in mem.workers then
              || Started(mem, out, r, Some(mem.workers[w].registration.startId))
              || (out.reply == Err(Persistence) && out.mem == mem && !CanWrite(mem, store, mem.workers[w].registration.instance, reply))
            else Started(mem, out, r, None)
  {
    NoStartDoes(mem, store, r, reply);
    if r.workerId in mem.workers {
      ReplaceDoes(mem, store, r, reply);
    } else if ValidRegistration(r) {
      FirstStartDoes(mem, store, r, reply);
    }
  }

  /** No route names a new start until it is heard. */
  lemma NewStartIsNotRouted(mem: Memory, store: StoreState, issued: Issued, r: Registration, reply: StoreReply)
    requires Inv(mem, store, issued) && Register(mem, store, r, reply).reply.Ok? && !Current(mem, r.workerId, r.startId)
    ensures NotRouted(Register(mem, store, r, reply).mem, r.workerId)
  {
    var out := Register(mem, store, r, reply);
    RegisterKeepsInv(mem, store, issued, r, reply);
    RegisterDoes(mem, store, r, reply);
    assert !out.mem.workers[r.workerId].live;
    IdleIsNotRouted(out.mem, out.store, issued, r.workerId);
  }

  // ---------------------------------------------------------------- state reports

  /** `m` is what a list of entries says: no entry is lost, and the last one of an expert counts. */
  ghost predicate LastWins<E, V>(list: seq<E>, key: E -> ExpertKey, value: E -> V, m: map<ExpertKey, V>) {
    && (forall k :: k in m <==> exists i :: 0 <= i < |list| && key(list[i]) == k)
    && (forall i :: 0 <= i < |list| && IsLast(list, key, i) ==> key(list[i]) in m && m[key(list[i])] == value(list[i]))
  }

  ghost predicate IsLast<E>(list: seq<E>, key: E -> ExpertKey, i: nat)
    requires i < |list|
  {
    forall j :: i < j < |list| ==> key(list[j]) != key(list[i])
  }

  lemma LastWinsMore<E, V>(front: seq<E>, last: E, key: E -> ExpertKey, value: E -> V, m: map<ExpertKey, V>)
    requires LastWins(front, key, value, m)
    ensures LastWins(front + [last], key, value, m[key(last) := value(last)])
  {
    var more, next := front + [last], m[key(last) := value(last)];
    forall k ensures k in next <==> exists i :: 0 <= i < |more| && key(more[i]) == k {
      if k == key(last) { assert key(more[|front|]) == k; }
      if k in m {
        var i :| 0 <= i < |front| && key(front[i]) == k;
        assert key(more[i]) == k;
      }
    }
    forall i | 0 <= i < |more| && IsLast(more, key, i) ensures key(more[i]) in next && next[key(more[i])] == value(more[i]) {
      if i < |front| {
        assert key(more[|front|]) != key(more[i]);
        assert IsLast(front, key, i) by {
          forall j | i < j < |front| ensures key(front[j]) != key(front[i]) { assert more[j] == front[j]; }
        }
        assert front[i] == more[i];
      }
    }
  }

  lemma {:induction false} LastOf<E>(list: seq<E>, key: E -> ExpertKey, k: ExpertKey, n: nat) returns (i: nat)
    requires n <= |list| && exists j :: 0 <= j < n && key(list[j]) == k
    ensures i < n && key(list[i]) == k && forall m :: i < m < n ==> key(list[m]) != k
  {
    if key(list[n - 1]) == k { i := n - 1; } else { i := LastOf(list, key, k, n - 1); }
  }

  function StateKey(r: ReportedState): ExpertKey { r.key }

  function StateOf(r: ReportedState): ExpertState { r.state }

  ghost predicate SaidBy(reported: seq<ReportedState>, states: map<ExpertKey, ExpertState>) {
    LastWins(reported, StateKey, StateOf, states)
  }

  /** A known kind; a failure says where and why, within the diagnostic limit, and nothing else does. */
  ghost predicate WellReported(state: ExpertState) {
    && state.kind != UnspecifiedKind && (state.kind == LoadFailed <==> state.failure.Some?)
    && (state.failure.Some? ==>
          state.failure.value.stageKnown && state.failure.value.codeKnown && |state.failure.value.diagnostic| <= 1024)
  }

  ghost predicate AllValid(reported: seq<ReportedState>) {
    forall i :: 0 <= i < |reported| ==> WellReported(reported[i].state)
  }

  lemma {:induction false} NormalizedStates(reported: seq<ReportedState>)
    ensures NormalizeStates(reported).Some? <==> AllValid(reported)
    ensures NormalizeStates(reported).Some? ==> SaidBy(reported, NormalizeStates(reported).value)
    decreases |reported|
  {
    if reported != [] {
      var front, last := reported[..|reported| - 1], reported[|reported| - 1];
      assert reported == front + [last];
      NormalizedStates(front);
      if NormalizeStates(front).Some? { LastWinsMore(front, last, StateKey, StateOf, NormalizeStates(front).value); }
      assert AllValid(reported) <==> AllValid(front) && WellReported(last.state);
    }
  }

  /** A full report replaces what was known of the Worker, an update changes what it names. */
  ghost predicate Reported(before: WorkerRecord, after: WorkerRecord, full: bool, n: nat, said: map<ExpertKey, ExpertState>) {
    && (forall key :: key in said ==> key in after.states && after.states[key] == said[key])
    && (forall key :: key !in said ==>
          (key in after.states <==> !full && key in before.states) && (key in after.states ==> after.states[key] == before.states[key]))
    && after.lastReport == Some(Report(n, full, said))
    && before == after.(states := before.states, lastReport := before.lastReport)
  }

  /** The reply to a valid report of the current start. */
  ghost predicate ReportReply(mem: Memory, store: StoreState, worker: WorkerRecord, g: nat, report: Report, reply: StoreReply,
                              r: Result<bool, ControllerError>)
  {
    && (g != worker.generation ==> r == Err(PlacementGenerationMismatch(worker.generation, g)))
    && (g == worker.generation && worker.lastReport.Some? ==>
          var last := worker.lastReport.value;
          && (report.sequence < last.sequence ==> r == Err(ReportSequenceRollback(last.sequence, report.sequence)))
          && (report.sequence == last.sequence ==> r == if report == last then Ok(false) else Err(ConflictingReportSequence(report.sequence))))
    && (g == worker.generation && (worker.lastReport.Some? ==> worker.lastReport.value.sequence < report.sequence) ==>
          r == Ok(true) || (r == Err(Persistence) && !CanWrite(mem, store, worker.registration.instance, reply)))
  }

  lemma ApplyReportDoes(mem: Memory, store: StoreState, w: string, g: nat, report: Report, reply: StoreReply)
    requires w in mem.workers
    ensures var out := ApplyReport(mem, store, w, g, report, reply);
            && ReportReply(mem, store, mem.workers[w], g, report, reply, out.reply)
            && (out.reply != Ok(true) ==> out.mem == mem)
            && (out.reply == Ok(true) ==>
                  OnlyRecord(mem, out.mem, w) && Reported(mem.workers[w], out.mem.workers[w], report.full, report.sequence, report.states))
  {
    var worker := mem.workers[w];
    CommitDoes(mem, store, w, ReportedRecord(worker, report), worker.registration.instance, ReportedKeys(worker, report), reply);
  }

  /** An applied report: the record says of every expert what the report says, a full one forgets the rest,
      and routes follow; any other leaves memory alone. */
  lemma StateReportDoes(mem: Memory, store: StoreState, issued: Issued, w: string, s: string, g: nat, n: nat, full: bool,
                        reported: seq<ReportedState>, reply: StoreReply) returns (said: map<ExpertKey, ExpertState>)
    requires Inv(mem, store, issued)
    ensures AllValid(reported) ==> SaidBy(reported, said)
    ensures var out := StateReport(mem, store, w, s, g, n, full, reported, reply);
            && (!AllValid(reported) ==> out.reply == Err(InvalidExpertState))
            && (AllValid(reported) && !Current(mem, w, s) ==> out.reply == Err(NotCurrent(mem, w)))
            && (AllValid(reported) && Current(mem, w, s) ==>
                  ReportReply(mem, store, mem.workers[w], g, Report(n, full, said), reply, out.reply))
            && (out.reply != Ok(true) ==> out.mem == mem)
            && (out.reply == Ok(true) ==>
                  && Current(mem, w, s) && OnlyRecord(mem, out.mem, w) && Reported(mem.workers[w], out.mem.workers[w], full, n, said)
                  && RoutedAsServed(out.mem, w))
  {
    NormalizedStates(reported);
    said := if NormalizeStates(reported).Some? then NormalizeStates(reported).value else map[];
    if Current(mem, w, s) && AllValid(reported) { ApplyReportDoes(mem, store, w, g, Report(n, full, said), reply); }
    StateReportKeepsInv(mem, store, issued, w, s, g, n, full, reported, reply);
    var out := StateReport(mem, store, w, s, g, n, full, reported, reply);
    StepIsRouted(out.mem, out.store, issued, w);
  }

  /** After a full report no route sends the Worker an expert that the report did not list as ready. */
  lemma FullReportWithdraws(mem: Memory, store: StoreState, issued: Issued, w: string, s: string, g: nat, n: nat,
                            reported: seq<ReportedState>, reply: StoreReply, instance: nat, key: ExpertKey)
    requires Inv(mem, store, issued) && StateReport(mem, store, w, s, g, n, true, reported, reply).reply == Ok(true)
    requires forall i :: 0 <= i < |reported| && reported[i].key == key ==> reported[i].state.kind != Ready
    ensures !RoutedTo(StateReport(mem, store, w, s, g, n, true, reported, reply).mem, instance, key, w)
  {
    var said := StateReportDoes(mem, store, issued, w, s, g, n, true, reported, reply);
    NormalizedStates(reported);
    NotSaidReady(reported, said, key);
    assert !MayServe(StateReport(mem, store, w, s, g, n, true, reported, reply).mem.workers[w], instance, key);
  }

  lemma NotSaidReady(reported: seq<ReportedState>, said: map<ExpertKey, ExpertState>, key: ExpertKey)
    requires SaidBy(reported, said) && forall i :: 0 <= i < |reported| && reported[i].key == key ==> reported[i].state.kind != Ready
    ensures key in said ==> said[key].kind != Ready
  {
    if key in said {
      assert exists i :: 0 <= i < |reported| && StateKey(reported[i]) == key;
      var i := LastOf(reported, StateKey, key, |reported|);
      assert IsLast(reported, StateKey, i);
    }
  }

  // ---------------------------------------------------------------- target changes

  function TargetKey(t: TargetExpert): ExpertKey { t.key }

  function TargetOf(t: TargetExpert): Target { t.target }

  ghost predicate AskedBy(list: seq<TargetExpert>, targets: map<ExpertKey, Target>) {
    LastWins(list, TargetKey, TargetOf, targets)
  }

  lemma {:induction false} NormalizedTargets(list: seq<TargetExpert>)
    ensures AskedBy(list, NormalizeTargets(list))
    decreases |list|
  {
    if list != [] {
      var front, last := list[..|list| - 1], list[|list| - 1];
      assert list == front + [last];
      NormalizedTargets(front);
      LastWinsMore(front, last, TargetKey, TargetOf, NormalizeTargets(front));
    }
  }

  /** The list a Worker is sent: every target once, in expert order. */
  ghost predicate Lists(list: seq<TargetExpert>, targets: map<ExpertKey, Target>) {
    && |list| == |targets| && (forall i :: 0 <= i < |list| ==> list[i].key in targets && targets[list[i].key] == list[i].target)
    && (forall i, j :: 0 <= i < j < |list| ==> list[i].key != list[j].key && KeyLe(list[i].key, list[j].key))
  }

  lemma ListedInOrder(targets: map<ExpertKey, Target>)
    ensures Lists(TargetList(targets), targets)
  {
    var keys, list := SortedKeys(targets.Keys), TargetList(targets);
    SortedIncreasing(targets.Keys);
    assert |targets| == |targets.Keys|;
    assert forall i :: 0 <= i < |list| ==> list[i] == TargetExpert(keys[i], targets[keys[i]]);
  }

  lemma SortedIncreasing(keys: set<ExpertKey>)
    ensures Increasing(SortedKeys(keys), KeyLe)
  {
    KeyOrder();
  }

  /** An unfinished expert drain of the record names the expert. */
  ghost predicate Draining(worker: WorkerRecord, key: ExpertKey) {
    exists i :: 0 <= i < |worker.drains| && !worker.drains[i].completed && !worker.drains[i].stopAll && key in worker.drains[i].experts
  }

  /** Numbers are handed out one after the other, and never zero. */
  ghost predicate NextNumber(last: nat, n: nat) { n > 0 && (last < MAX_U64 ==> n == last + 1) }

  /** Drains keep their numbers, and a new one takes the next. */
  ghost predicate IdsFollow(before: seq<Drain>, after: seq<Drain>, last: nat, next: nat) {
    && |before| <= |after| <= |before| + 1 && (forall i :: 0 <= i < |before| ==> after[i].id == before[i].id)
    && (if |after| == |before| then next == last else after[|before|].id == next && NextNumber(last, next))
  }

  /** Old expert drains are finished and whole-Worker drains stay as they are; if there is something to
      drain, one drain for it is added, of the current placement and version. */
  ghost predicate Redrained(before: seq<Drain>, after: seq<Drain>, experts: set<ExpertKey>, generation: nat, version: nat) {
    && |after| == |before| + (if experts == {} then 0 else 1)
    && (forall i :: 0 <= i < |before| ==> after[i] == before[i].(completed := before[i].completed || !before[i].stopAll))
    && (experts != {} ==>
          var d := after[|before|];
          !d.completed && !d.stopAll && d.experts == experts && d.generation == generation && d.minVersion == version)
  }

  lemma ReissueDoes(mem: Memory, w: string, experts: set<ExpertKey>)
    requires w in mem.workers
    ensures var after := ReissueDrain(mem, w, experts);
            && w in after.workers && after == mem.(workers := mem.workers[w := after.workers[w]], nextDrainId := after.nextDrainId)
            && after.workers[w] == mem.workers[w].(drains := after.workers[w].drains)
            && IdsFollow(mem.workers[w].drains, after.workers[w].drains, mem.nextDrainId, after.nextDrainId)
            && Redrained(mem.workers[w].drains, after.workers[w].drains, experts, mem.workers[w].generation,
                         Version(mem, mem.workers[w].registration.instance))
  {
  }

  lemma RedrainedNames(before: WorkerRecord, after: WorkerRecord, experts: set<ExpertKey>, generation: nat, version: nat, key: ExpertKey)
    requires Redrained(before.drains, after.drains, experts, generation, version)
    ensures Draining(after, key) <==> key in experts
  {
    if key in experts { assert key in after.drains[|before.drains|].experts; }
  }

  lemma DrainedByIs(worker: WorkerRecord, targets: map<ExpertKey, Target>, key: ExpertKey)
    ensures key in DrainedBy(worker, targets) <==>
              && key in worker.states && worker.states[key].kind == Ready && key !in targets
              && (key in worker.targets || Draining(worker, key))
  {
    if Draining(worker, key) {
      var i :| 0 <= i < |worker.drains| && !worker.drains[i].completed && !worker.drains[i].stopAll && key in worker.drains[i].experts;
      assert IsOpenExpertDrain(worker.drains[i]);
    }
  }

  /** The record after an accepted target change. */
  ghost predicate Replaced(before: WorkerRecord, after: WorkerRecord, targets: map<ExpertKey, Target>, version: nat) {
    && after.targets == targets && after.generation == before.generation + 1
    && before == after.(targets := before.targets, generation := before.generation, drains := before.drains)
    && DrainsFollow(before, after, version)
  }

  /** Exactly the ready experts that leave, or were already leaving, are drained: by a drain of the new
      placement, from the current version on.  Whole-Worker drains are not touched. */
  ghost predicate DrainsFollow(before: WorkerRecord, after: WorkerRecord, version: nat) {
    && (forall key :: Draining(after, key) <==>
          && key in before.states && before.states[key].kind == Ready && key !in after.targets
          && (key in before.targets || Draining(before, key)))
    && (forall i :: 0 <= i < |after.drains| && !after.drains[i].completed && !after.drains[i].stopAll ==>
          after.drains[i].generation == after.generation && after.drains[i].minVersion == version)
    && |before.drains| <= |after.drains|
    && (forall i :: 0 <= i < |before.drains| && before.drains[i].stopAll ==> after.drains[i] == before.drains[i])
  }

  lemma RedrainedFollows(before: WorkerRecord, after: WorkerRecord, version: nat)
    requires Redrained(before.drains, after.drains, DrainedBy(before, after.targets), after.generation, version)
    ensures DrainsFollow(before, after, version)
  {
    forall key
      ensures Draining(after, key) <==> key in DrainedBy(before, after.targets)
      ensures key in DrainedBy(before, after.targets) <==>
                && key in before.states && before.states[key].kind == Ready && key !in after.targets
                && (key in before.targets || Draining(before, key))
    {
      RedrainedNames(before, after, DrainedBy(before, after.targets), after.generation, version, key);
      DrainedByIs(before, after.targets, key);
    }
  }

  /** What a target change leaves when it is accepted, and that it leaves nothing otherwise. */
  ghost predicate Placed(mem: Memory, out: Outcome<PlacementReply>, w: string, targets: map<ExpertKey, Target>)
    requires w in mem.workers
  {
    && w in out.mem.workers && out.mem.workers == mem.workers[w := out.mem.workers[w]]
    && Replaced(mem.workers[w], out.mem.workers[w], targets, Version(out.mem, mem.workers[w].registration.instance))
    && out.mem.persisted == mem.persisted[w := Placement(mem.workers[w].registration.instance, out.mem.workers[w].generation, targets)]
    && out.mem.nextLease == mem.nextLease
    && IdsFollow(mem.workers[w].drains, out.mem.workers[w].drains, mem.nextDrainId, out.mem.nextDrainId)
    && out.reply.Ok? && out.reply.value.generation == out.mem.workers[w].generation && out.reply.value.changed
    && Lists(out.reply.value.targets, targets)
  }

  lemma PlaceEndDoes(mem: Memory, p: Outcome<bool>, w: string, targets: map<ExpertKey, Target>)
    requires w in mem.workers
    requires var placement := NextPlacement(mem.workers[w], targets);
             p.reply.Ok? && p.mem == Moved(mem, w, placement).(topologies := p.mem.topologies)
    ensures Placed(mem, PlaceEnd(mem, p, w, NextPlacement(mem.workers[w], targets)), w, targets)
  {
    var worker, placement := mem.workers[w], NextPlacement(mem.workers[w], targets);
    var out := PlaceEnd(mem, p, w, placement);
    var moved := p.mem.workers[w];
    assert moved == worker.(generation := placement.generation, targets := targets);
    ReissueDoes(p.mem, w, DrainedBy(worker, targets));
    var after := out.mem.workers[w];
    RedrainedFollows(worker, after, Version(out.mem, worker.registration.instance));
    ListedInOrder(targets);
  }

  lemma PlaceTargetsDoes(mem: Memory, store: StoreState, w: string, targets: map<ExpertKey, Target>, advance: StoreReply)
    requires w in mem.workers
    ensures var out := PlaceTargets(mem, store, w, NextPlacement(mem.workers[w], targets), advance);
            || Placed(mem, out, w, targets)
            || (out.reply == Err(Persistence) && out.mem == mem && !CanWrite(mem, store, mem.workers[w].registration.instance, advance))
  {
    var worker, placement := mem.workers[w], NextPlacement(mem.workers[w], targets);
    var moved, affected := Moved(mem, w, placement), worker.targets.Keys + targets.Keys;
    var p := Publish(moved, store, worker.registration.instance, affected, advance);
    PublishEnds(moved, store, worker.registration.instance, affected, advance);
    if p.reply.Ok? { PlaceEndDoes(mem, p, w, targets); }
  }

  /** The call asks for what is in effect and stored. */
  ghost predicate AlreadyPlaced(mem: Memory, w: string, targets: map<ExpertKey, Target>)
    requires w in mem.workers
  {
    var worker := mem.workers[w];
    && worker.targets == targets && w in mem.persisted && mem.persisted[w].instance == worker.registration.instance
    && mem.persisted[w].generation == worker.generation && mem.persisted[w].targets == targets
  }

  /** A call that is refused, or asks for what is there, changes nothing. */
  lemma RefusalDoes(mem: Memory, w: string, targets: map<ExpertKey, Target>)
    requires w in mem.workers
    ensures var worker, refusal := mem.workers[w], TargetsRefusal(mem, w, targets);
            if |targets| > worker.registration.maxExperts then
              refusal == Some(Err(PlacementTooLarge(worker.registration.maxExperts, |targets|)))
            else if AlreadyPlaced(mem, w, targets) then
              && refusal.Some? && refusal.value.Ok? && refusal.value.value.generation == worker.generation
              && !refusal.value.value.changed && Lists(refusal.value.value.targets, targets)
            else refusal == if worker.generation >= MAX_U64 then Some(Err(Persistence)) else None
  {
    ListedInOrder(targets);
  }

  /** A new placement is stored and put in effect, or a write failed and memory is as before. */
  lemma AcceptedDoes(mem: Memory, store: StoreState, w: string, targets: map<ExpertKey, Target>, save: StoreReply, advance: StoreReply)
    requires w in mem.workers && TargetsRefusal(mem, w, targets).None?
    ensures var worker := mem.workers[w];
            var out := ChangeTargets(mem, store, w, targets, save, advance);
            || (Placed(mem, out, w, targets) && w in out.store.placements
                && out.store.placements[w] == Placement(worker.registration.instance, worker.generation + 1, targets))
            || (out.reply == Err(Persistence) && out.mem == mem &&
                (save.Failed? || !CanWrite(mem, store, worker.registration.instance, advance)))
  {
    var (saved, ok) := SavePlacement(store, w, NextPlacement(mem.workers[w], targets), save);
    PlaceTargetsDoes(mem, saved, w, targets, advance);
  }

  ghost predicate ChangedOrFailed(mem: Memory, store: StoreState, w: string, targets: map<ExpertKey, Target>, save: StoreReply,
                                  advance: StoreReply, out: Outcome<PlacementReply>)
    requires w in mem.workers
  {
    var worker := mem.workers[w];
    || (Placed(mem, out, w, targets) && w in out.store.placements
        && out.store.placements[w] == Placement(worker.registration.instance, worker.generation + 1, targets))
    || (out.reply == Err(Persistence) && out.mem == mem &&
        (worker.generation >= MAX_U64 || save.Failed? || !CanWrite(mem, store, worker.registration.instance, advance)))
  }

  lemma ChangeTargetsDoes(mem: Memory, store: StoreState, w: string, targets: map<ExpertKey, Target>, save: StoreReply, advance: StoreReply)
    requires w in mem.workers
    ensures var worker := mem.workers[w];
            var out := ChangeTargets(mem, store, w, targets, save, advance);
            if |targets| > worker.registration.maxExperts then
              out.mem == mem && out.reply == Err(PlacementTooLarge(worker.registration.maxExperts, |targets|))
            else if AlreadyPlaced(mem, w, targets) then
              && out.mem == mem && out.store == store && out.reply.Ok?
              && out.reply.value.generation == worker.generation && !out.reply.value.changed && Lists(out.reply.value.targets, targets)
            else ChangedOrFailed(mem, store, w, targets, save, advance, out)
  {
    RefusalDoes(mem, w, targets);
    if TargetsRefusal(mem, w, targets).None? { AcceptedDoes(mem, store, w, targets, save, advance); }
  }

  /** An accepted target change puts exactly the asked targets in effect under the next generation,
      drains exactly what leaves or was leaving, stores it, and routes follow. */
  lemma SetTargetsDoes(mem: Memory, store: StoreState, issued: Issued, w: string, s: string, list: seq<TargetExpert>,
                       save: StoreReply, advance: StoreReply) returns (asked: map<ExpertKey, Target>)
    requires Inv(mem, store, issued)
    ensures AskedBy(list, asked)
    ensures var out := SetTargets(mem, store, w, s, list, save, advance);
            && (!Current(mem, w, s) ==> out.reply == Err(NotCurrent(mem, w)))
            && (out.reply.Err? ==> out.mem == mem)
            && (out.reply.Ok? ==> Current(mem, w, s) && (out.reply.value.changed <==> !AlreadyPlaced(mem, w, asked)))
            && (out.reply.Ok? && !out.reply.value.changed ==> out.mem == mem)
            && (out.reply.Ok? && out.reply.value.changed ==> Placed(mem, out, w, asked))
            && (Current(mem, w, s) && |asked| > mem.workers[w].registration.maxExperts ==>
                  out.reply == Err(PlacementTooLarge(mem.workers[w].registration.maxExperts, |asked|)))
            && (Current(mem, w, s) && |asked| <= mem.workers[w].registration.maxExperts && !AlreadyPlaced(mem, w, asked) ==>
                  ChangedOrFailed(mem, store, w, asked, save, advance, out))
            && RoutedAsServed(out.mem, w)
  {
    NormalizedTargets(list);
    asked := NormalizeTargets(list);
    if Current(mem, w, s) { ChangeTargetsDoes(mem, store, w, asked, save, advance); }
    SetTargetsKeepsInv(mem, store, issued, w, s, list, save, advance);
    var out := SetTargets(mem, store, w, s, list, save, advance);
    StepIsRouted(out.mem, out.store, issued, w);
  }

  // ---------------------------------------------------------------- drains

  /** `list` is the unfinished ones of `drains`, in order; `at` says where each stands. */
  ghost predicate UnfinishedOf(list: seq<Drain>, drains: seq<Drain>, at: seq<nat>) {
    && |at| == |list| && (forall i :: 0 <= i < |at| ==> at[i] < |drains| && list[i] == drains[at[i]] && !list[i].completed)
    && (forall i, j :: 0 <= i < j < |at| ==> at[i] < at[j])
    && (forall k: nat :: k < |drains| && !drains[k].completed ==> k in at)
  }

  lemma {:induction false} UnfinishedInOrder(drains: seq<Drain>) returns (at: seq<nat>)
    ensures UnfinishedOf(Unfinished(drains), drains, at)
    decreases |drains|
  {
    if drains == [] {
      at := [];
    } else {
      var front, last := drains[..|drains| - 1], drains[|drains| - 1];
      assert drains == front + [last];
      var before := UnfinishedInOrder(front);
      at := if last.completed then before else before + [|front|];
      UnfinishedMore(Unfinished(front), front, last, before);
    }
  }

  lemma UnfinishedMore(list: seq<Drain>, front: seq<Drain>, last: Drain, at: seq<nat>)
    requires UnfinishedOf(list, front, at)
    ensures last.completed ==> UnfinishedOf(list, front + [last], at)
    ensures !last.completed ==> UnfinishedOf(list + [last], front + [last], at + [|front|])
  {
    var drains := front + [last];
    assert forall i :: 0 <= i < |at| ==> drains[at[i]] == front[at[i]];
    forall k: nat | k < |drains| && !drains[k].completed ensures k in at + [|front|] && (k < |front| ==> k in at) {
      if k < |front| { assert front[k] == drains[k] && k in at; } else { assert (at + [|front|])[|at|] == k; }
    }
  }

  /** A shutting-down Worker without a whole-Worker drain, all of whose ready experts another process serves. */
  ghost predicate MayShutDown(mem: Memory, w: string)
    requires w in mem.workers
  {
    var worker := mem.workers[w];
    && worker.runState == ShuttingDown && (forall i :: 0 <= i < |worker.drains| ==> !worker.drains[i].stopAll)
    && forall key :: key in worker.states && worker.states[key].kind == Ready ==>
         exists r :: r in ReplicasAt(Routes(mem, worker.registration.instance), key) &&
                     (r.workerId != worker.registration.workerId || r.startId != worker.registration.startId)
  }

  lemma DueIsShutDown(mem: Memory, w: string)
    requires w in mem.workers
    ensures ShutdownDue(mem, w) <==> MayShutDown(mem, w)
  {
    var worker := mem.workers[w];
    var r, routes := worker.registration, Routes(mem, worker.registration.instance);
    if MayShutDown(mem, w) {
      forall key | key in ReadyKeys(worker)
        ensures exists i :: 0 <= i < |ReplicasAt(routes, key)| &&
                            (ReplicasAt(routes, key)[i].workerId != r.workerId || ReplicasAt(routes, key)[i].startId != r.startId)
      {
        var other :| other in ReplicasAt(routes, key) && (other.workerId != r.workerId || other.startId != r.startId);
        var i :| 0 <= i < |ReplicasAt(routes, key)| && ReplicasAt(routes, key)[i] == other;
      }
    }
    if ShutdownDue(mem, w) {
      forall key | key in worker.states && worker.states[key].kind == Ready
        ensures exists o :: o in ReplicasAt(routes, key) && (o.workerId != r.workerId || o.startId != r.startId)
      {
        assert key in ReadyKeys(worker);
        var i :| 0 <= i < |ReplicasAt(routes, key)| &&
                 (ReplicasAt(routes, key)[i].workerId != r.workerId || ReplicasAt(routes, key)[i].startId != r.startId);
        assert ReplicasAt(routes, key)[i] in ReplicasAt(routes, key);
      }
    }
  }

  /** The record of a Worker told to shut down: out of the topology, with one more drain that stops
      everything, names what was ready, and carries the version that withdrew it. */
  ghost predicate ShutDown(before: WorkerRecord, after: WorkerRecord, version: nat) {
    && !after.included && |after.drains| == |before.drains| + 1 && before.drains <= after.drains
    && before == after.(included := before.included, drains := before.drains)
    && var d := after.drains[|before.drains|];
       && d.stopAll && !d.completed && d.generation == before.generation && d.minVersion == version
       && forall key :: key in d.experts <==> key in before.states && before.states[key].kind == Ready
  }

  lemma ShutdownEndDoes(mem: Memory, p: Outcome<bool>, w: string)
    requires w in mem.workers && p.reply.Ok?
    requires p.mem == PutWorker(mem, w, mem.workers[w].(included := false)).(topologies := p.mem.topologies)
    ensures var out := ShutdownEnd(mem, p, w);
            && out.reply.Ok? && w in out.mem.workers && out.mem.workers == mem.workers[w := out.mem.workers[w]]
            && out.mem.persisted == mem.persisted && out.mem.nextLease == mem.nextLease
            && IdsFollow(mem.workers[w].drains, out.mem.workers[w].drains, mem.nextDrainId, out.mem.nextDrainId)
            && ShutDown(mem.workers[w], out.mem.workers[w], Version(out.mem, mem.workers[w].registration.instance))
            && out.reply.value == Unfinished(out.mem.workers[w].drains)
  {
    var out := ShutdownEnd(mem, p, w);
    assert out.mem.topologies == p.mem.topologies;
  }

  lemma ShutdownDoes(mem: Memory, store: StoreState, w: string, reply: StoreReply)
    requires w in mem.workers
    ensures var worker := mem.workers[w];
            var p := Publish(PutWorker(mem, w, worker.(included := false)), store, worker.registration.instance, ReadyKeys(worker), reply);
            var out := ShutdownEnd(mem, p, w);
            || (&& out.reply.Ok? && w in out.mem.workers && out.mem.workers == mem.workers[w := out.mem.workers[w]]
                && out.mem.persisted == mem.persisted && out.mem.nextLease == mem.nextLease
                && IdsFollow(worker.drains, out.mem.workers[w].drains, mem.nextDrainId, out.mem.nextDrainId)
                && ShutDown(worker, out.mem.workers[w], Version(out.mem, worker.registration.instance))
                && out.reply.value == Unfinished(out.mem.workers[w].drains))
            || (out.reply == Err(Persistence) && out.mem == mem && !CanWrite(mem, store, worker.registration.instance, reply))
  {
    var worker := mem.workers[w];
    var next := PutWorker(mem, w, worker.(included := false));
    var p := Publish(next, store, worker.registration.instance, ReadyKeys(worker), reply);
    PublishEnds(next, store, worker.registration.instance, ReadyKeys(worker), reply);
    if p.reply.Ok? { ShutdownEndDoes(mem, p, w); }
  }

  /** The answer is exactly the unfinished drains in order.  A whole-Worker drain is created exactly when
      the Worker may shut down, and then no route names it any more. */
  lemma DrainAuthorizationsDoes(mem: Memory, store: StoreState, issued: Issued, w: string, s: string, reply: StoreReply) returns (at: seq<nat>)
    requires Inv(mem, store, issued)
    ensures var out := DrainAuthorizations(mem, store, w, s, reply);
            && (!Current(mem, w, s) ==> out.reply == Err(NotCurrent(mem, w)))
            && (out.reply.Err? ==> out.mem == mem)
            && (out.reply.Ok? ==> Current(mem, w, s) && w in out.mem.workers && UnfinishedOf(out.reply.value, out.mem.workers[w].drains, at))
            && (Current(mem, w, s) && !MayShutDown(mem, w) ==> out.reply.Ok? && out.mem == mem)
            && (Current(mem, w, s) && MayShutDown(mem, w) ==>
                  || (&& out.reply.Ok? && out.mem.workers == mem.workers[w := out.mem.workers[w]] && out.mem.persisted == mem.persisted
                      && ShutDown(mem.workers[w], out.mem.workers[w], Version(out.mem, mem.workers[w].registration.instance))
                      && NotRouted(out.mem, w))
                  || (out.reply == Err(Persistence) && !CanWrite(mem, store, mem.workers[w].registration.instance, reply)))
  {
    at := [];
    var out := DrainAuthorizations(mem, store, w, s, reply);
    DrainAuthorizationsKeepsInv(mem, store, issued, w, s, reply);
    if Current(mem, w, s) {
      DueIsShutDown(mem, w);
      ShutdownDoes(mem, store, w, reply);
      if out.reply.Ok? {
        at := UnfinishedInOrder(out.mem.workers[w].drains);
        if MayShutDown(mem, w) { IdleIsNotRouted(out.mem, out.store, issued, w); }
      }
    }
  }

  /** The first drain with that number. */
  ghost predicate IsDrain(drains: seq<Drain>, id: nat, n: nat) {
    n < |drains| && drains[n].id == id && forall i :: 0 <= i < n ==> drains[i].id != id
  }

  /** The record after drain `n` is finished; finishing a whole-Worker drain ends liveness. */
  ghost predicate FinishedDrain(before: WorkerRecord, after: WorkerRecord, n: nat) {
    && n < |before.drains| && |after.drains| == |before.drains|
    && !before.drains[n].completed && after.drains[n] == before.drains[n].(completed := true)
    && (forall i :: 0 <= i < |before.drains| && i != n ==> after.drains[i] == before.drains[i])
    && before == after.(drains := before.drains, live := before.live)
    && after.live == (before.live && !before.drains[n].stopAll)
  }

  lemma FinishedIs(worker: WorkerRecord, n: nat)
    requires n < |worker.drains| && !worker.drains[n].completed
    ensures var drains := worker.drains[n := worker.drains[n].(completed := true)];
            && (!worker.drains[n].stopAll ==> FinishedDrain(worker, worker.(drains := drains), n))
            && (worker.drains[n].stopAll ==> FinishedDrain(worker, worker.(drains := drains, live := false), n))
  {
  }

  lemma FinishDoes(mem: Memory, store: StoreState, w: string, s: string, id: nat, reply: StoreReply, n: nat)
    requires Current(mem, w, s) && IsDrain(mem.workers[w].drains, id, n) && !mem.workers[w].drains[n].completed
    ensures var out := CompleteDrain(mem, store, w, s, id, reply);
            || (out.reply == Ok(true) && OnlyRecord(mem, out.mem, w) && FinishedDrain(mem.workers[w], out.mem.workers[w], n))
            || (out.reply == Err(Persistence) && out.mem == mem && mem.workers[w].drains[n].stopAll
                && !CanWrite(mem, store, mem.workers[w].registration.instance, reply))
  {
    var worker := mem.workers[w];
    assert FindDrain(worker.drains, id) == Some(n);
    FinishedIs(worker, n);
    var drains := worker.drains[n := worker.drains[n].(completed := true)];
    if worker.drains[n].stopAll {
      CommitDoes(mem, store, w, worker.(drains := drains, live := false), worker.registration.instance, ReadyKeys(worker), reply);
    } else {
      assert CompleteDrain(mem, store, w, s, id, reply) == Outcome(PutWorker(mem, w, worker.(drains := drains)), store, Ok(true));
    }
  }

  /** Completion finishes that drain and no other; a finished one is left alone, an unknown one refused.
      After a whole-Worker drain no route names the Worker. */
  lemma CompleteDrainDoes(mem: Memory, store: StoreState, issued: Issued, w: string, s: string, id: nat, reply: StoreReply)
    requires Inv(mem, store, issued)
    ensures var out := CompleteDrain(mem, store, w, s, id, reply);
            && (!Current(mem, w, s) ==> out.reply == Err(NotCurrent(mem, w)))
            && (out.reply != Ok(true) ==> out.mem == mem)
            && (Current(mem, w, s) && (forall i :: 0 <= i < |mem.workers[w].drains| ==> mem.workers[w].drains[i].id != id) ==>
                  out.reply == Err(UnknownDrain(id)))
            && (forall n: nat :: Current(mem, w, s) && IsDrain(mem.workers[w].drains, id, n) ==>
                  var d := mem.workers[w].drains[n];
                  && (d.completed ==> out.reply == Ok(false))
                  && (!d.completed && !d.stopAll ==> out.reply == Ok(true))
                  && (!d.completed ==>
                        || (out.reply == Ok(true) && OnlyRecord(mem, out.mem, w) && FinishedDrain(mem.workers[w], out.mem.workers[w], n)
                            && RoutedAsServed(out.mem, w))
                        || (out.reply == Err(Persistence) && !CanWrite(mem, store, mem.workers[w].registration.instance, reply))))
  {
    var out := CompleteDrain(mem, store, w, s, id, reply);
    CompleteDrainKeepsInv(mem, store, issued, w, s, id, reply);
    StepIsRouted(out.mem, out.store, issued, w);
    forall n: nat | Current(mem, w, s) && IsDrain(mem.workers[w].drains, id, n)
      ensures FindDrain(mem.workers[w].drains, id) == Some(n)
      ensures !mem.workers[w].drains[n].completed ==>
                || (out.reply == Ok(true) && OnlyRecord(mem, out.mem, w) && FinishedDrain(mem.workers[w], out.mem.workers[w], n))
                || (out.reply == Err(Persistence) && out.mem == mem && mem.workers[w].drains[n].stopAll
                    && !CanWrite(mem, store, mem.workers[w].registration.instance, reply))
    {
      if !mem.workers[w].drains[n].completed { FinishDoes(mem, store, w, s, id, reply, n); }
    }
  }

  // ---------------------------------------------------------------- restart

  /** The version write of instance `i` succeeds at the start. */
  ghost predicate CanRestore(store: StoreState, replies: map<nat, StoreReply>, i: nat) {
    (i in replies ==> replies[i].Done?) && StoredVersion(store, i) < MAX_U64
  }

  ghost predicate RestoredAt(store: StoreState, after: StoreState, topologies: map<nat, InstanceTopology>, i: nat) {
    && i in topologies && topologies[i] == InstanceTopology(StoredVersion(store, i) + 1, map[], [])
    && StoredVersion(after, i) == StoredVersion(store, i) + 1
  }

  ghost predicate AllRestored(store: StoreState, after: StoreState, topologies: map<nat, InstanceTopology>, instances: seq<nat>) {
    && (forall i :: i in topologies ==> i in instances)
    && (forall i :: i in instances ==> RestoredAt(store, after, topologies, i))
  }

  ghost predicate AllCanRestore(store: StoreState, replies: map<nat, StoreReply>, instances: seq<nat>) {
    forall i :: i in instances ==> CanRestore(store, replies, i)
  }

  lemma RestoreOne(store: StoreState, before: StoreState, i: nat, replies: map<nat, StoreReply>)
    requires StoredVersion(before, i) == StoredVersion(store, i)
    ensures var (after, version) := AdvanceVersion(before, i, StoredVersion(store, i), if i in replies then replies[i] else Done);
            && (version.Some? <==> CanRestore(store, replies, i))
            && (version.Some? ==> version.value == StoredVersion(store, i) + 1 == StoredVersion(after, i)
                                  && forall j :: j != i ==> StoredVersion(after, j) == StoredVersion(before, j))
  {
  }

  lemma RestoreMore(store: StoreState, before: StoreState, after: StoreState, topologies: map<nat, InstanceTopology>, front: seq<nat>, last: nat)
    requires AllRestored(store, before, topologies, front) && last !in front && StoredVersion(after, last) == StoredVersion(store, last) + 1
    requires forall j :: j != last ==> StoredVersion(after, j) == StoredVersion(before, j)
    ensures AllRestored(store, after, topologies[last := InstanceTopology(StoredVersion(store, last) + 1, map[], [])], front + [last])
  {
    var next := topologies[last := InstanceTopology(StoredVersion(store, last) + 1, map[], [])];
    assert forall i :: i in front + [last] <==> i in front || i == last;
    forall i | i in front + [last] ensures RestoredAt(store, after, next, i) {
      if i != last { assert RestoredAt(store, before, topologies, i); }
    }
  }

  lemma {:induction false} RestoreExact(store: StoreState, instances: seq<nat>, replies: map<nat, StoreReply>)
    requires NoDuplicates(instances)
    ensures var (after, topologies) := RestoreTopologies(store, instances, replies);
            && (topologies.Some? <==> AllCanRestore(store, replies, instances))
            && (topologies.Some? ==> AllRestored(store, after, topologies.value, instances))
    decreases |instances|
  {
    if instances != [] {
      var front, last := instances[..|instances| - 1], instances[|instances| - 1];
      assert instances == front + [last];
      RestoreExact(store, front, replies);
      Runs.RestoredTopologies(store, front, replies);
      assert last !in front;
      var (before, topologies) := RestoreTopologies(store, front, replies);
      assert StoredVersion(before, last) == StoredVersion(store, last);
      RestoreOne(store, before, last, replies);
      var (after, version) := AdvanceVersion(before, last, StoredVersion(store, last), if last in replies then replies[last] else Done);
      if topologies.Some? && version.Some? { RestoreMore(store, before, after, topologies.value, front, last); }
      assert AllCanRestore(store, replies, instances) <==> AllCanRestore(store, replies, front) && CanRestore(store, replies, last) by {
        assert forall i :: i in instances <==> i in front || i == last;
      }
    }
  }

  /** The store knows the instance: it has a version or a placement of it. */
  ghost predicate IsStored(store: StoreState, i: nat) {
    i in store.versions || exists w :: w in store.placements && store.placements[w].instance == i
  }

  /** A new process: the stored placements, every known instance one version further without routes, and
      no record or number of the old one. */
  ghost predicate StartsAgain(store: StoreState, after: StoreState, mem: Memory, limit: nat) {
    && mem == Memory(map[], mem.topologies, store.placements, 0, 0, limit)
    && (forall i :: i in mem.topologies ==> IsStored(store, i))
    && (forall i :: IsStored(store, i) ==> RestoredAt(store, after, mem.topologies, i))
  }

  /** A restart comes up exactly when every known instance's version can be written. */
  lemma RestartDoes(store: StoreState, limit: nat, order: seq<nat>, replies: map<nat, StoreReply>)
    ensures var (after, mem) := Runs.Restarted(store, limit, order, replies);
            && (mem.Some? <==> limit > 0 && forall i :: IsStored(store, i) ==> CanRestore(store, replies, i))
            && after.placements == store.placements && (mem.Some? ==> StartsAgain(store, after, mem.value, limit))
  {
    var instances := VisitOrder(store, order);
    RestoreExact(store, instances, replies);
    Runs.RestoredTopologies(store, instances, replies);
    forall i ensures IsStored(store, i) <==> i in instances { assert IsStored(store, i) <==> i in KnownInstances(store); }
    assert AllCanRestore(store, replies, instances) <==> forall i :: IsStored(store, i) ==> CanRestore(store, replies, i);
  }

  // ---------------------------------------------------------------- numbers

  /** No stream or drain has a number that was not handed out, and no two drains of a record share one. */
  ghost predicate NumbersOk(mem: Memory) {
    forall w :: w in mem.workers ==> RecordNumbers(mem.workers[w], mem.nextLease, mem.nextDrainId)
  }

  ghost predicate RecordNumbers(worker: WorkerRecord, lease: nat, drain: nat) {
    && worker.lease <= lease && (forall i :: 0 <= i < |worker.drains| ==> worker.drains[i].id <= drain)
    && (forall i, j :: 0 <= i < j < |worker.drains| ==> worker.drains[i].id != worker.drains[j].id)
  }

  /** At most one number of each kind is handed out. */
  ghost predicate OneStep(mem: Memory, after: Memory) {
    && mem.nextLease <= after.nextLease <= mem.nextLease + 1 && mem.nextDrainId <= after.nextDrainId <= mem.nextDrainId + 1
    && NumbersOk(after)
  }

  lemma IdsStayApart(before: WorkerRecord, after: WorkerRecord, lease: nat, last: nat, next: nat)
    requires RecordNumbers(before, lease, last) && last < MAX_U64 && after.lease == before.lease
    requires IdsFollow(before.drains, after.drains, last, next)
    ensures RecordNumbers(after, lease, next) && last <= next <= last + 1
  {
  }

  lemma RecordKeepsNumbers(mem: Memory, after: Memory, w: string)
    requires NumbersOk(mem) && w in mem.workers && mem.nextLease < MAX_U64 && mem.nextDrainId < MAX_U64
    requires w in after.workers && after.workers == mem.workers[w := after.workers[w]]
    requires after.nextLease == mem.nextLease && after.workers[w].lease == mem.workers[w].lease
    requires IdsFollow(mem.workers[w].drains, after.workers[w].drains, mem.nextDrainId, after.nextDrainId)
    ensures OneStep(mem, after)
  {
    IdsStayApart(mem.workers[w], after.workers[w], mem.nextLease, mem.nextDrainId, after.nextDrainId);
  }

  lemma RegisterKeepsNumbers(mem: Memory, store: StoreState, r: Registration, reply: StoreReply)
    requires NumbersOk(mem)
    ensures OneStep(mem, Register(mem, store, r, reply).mem)
  {
    RegisterDoes(mem, store, r, reply);
  }

  lemma OpenKeepsNumbers(mem: Memory, store: StoreState, w: string, s: string)
    requires NumbersOk(mem) && mem.nextLease < MAX_U64
    ensures OneStep(mem, OpenHeartbeat(mem, store, w, s).mem)
  {
    OpenHeartbeatDoes(mem, store, w, s);
  }

  lemma BeatsKeepNumbers(mem: Memory, store: StoreState, w: string, s: string, lease: nat, n: nat, run: RunState, reply: StoreReply)
    requires NumbersOk(mem) && mem.nextLease < MAX_U64 && mem.nextDrainId < MAX_U64
    ensures OneStep(mem, Heartbeat(mem, store, w, s, lease, n, run, reply).mem)
  {
    var out := Heartbeat(mem, store, w, s, lease, n, run, reply);
    HeartbeatDoes(mem, store, w, s, lease, n, run, reply);
    if out.reply == Ok(true) { RecordKeepsNumbers(mem, out.mem, w); }
  }

  lemma CloseKeepsNumbers(mem: Memory, store: StoreState, issued: Issued, w: string, s: string, lease: nat, reply: StoreReply)
    requires Inv(mem, store, issued) && NumbersOk(mem) && mem.nextLease < MAX_U64 && mem.nextDrainId < MAX_U64
    ensures OneStep(mem, CloseHeartbeat(mem, store, w, s, lease, reply).mem)
  {
    var out := CloseHeartbeat(mem, store, w, s, lease, reply);
    CloseHeartbeatDoes(mem, store, issued, w, s, lease, reply);
    if out.reply == Ok(true) { RecordKeepsNumbers(mem, out.mem, w); }
  }

  lemma TargetsKeepNumbers(mem: Memory, store: StoreState, issued: Issued, w: string, s: string, list: seq<TargetExpert>,
                           save: StoreReply, advance: StoreReply)
    requires Inv(mem, store, issued) && NumbersOk(mem) && mem.nextLease < MAX_U64 && mem.nextDrainId < MAX_U64
    ensures OneStep(mem, SetTargets(mem, store, w, s, list, save, advance).mem)
  {
    var out := SetTargets(mem, store, w, s, list, save, advance);
    var asked := SetTargetsDoes(mem, store, issued, w, s, list, save, advance);
    if out.reply.Ok? && out.reply.value.changed { RecordKeepsNumbers(mem, out.mem, w); }
  }

  lemma ReportKeepsNumbers(mem: Memory, store: StoreState, issued: Issued, w: string, s: string, g: nat, n: nat, full: bool,
                           reported: seq<ReportedState>, reply: StoreReply)
    requires Inv(mem, store, issued) && NumbersOk(mem) && mem.nextLease < MAX_U64 && mem.nextDrainId < MAX_U64
    ensures OneStep(mem, StateReport(mem, store, w, s, g, n, full, reported, reply).mem)
  {
    var out := StateReport(mem, store, w, s, g, n, full, reported, reply);
    var said := StateReportDoes(mem, store, issued, w, s, g, n, full, reported, reply);
    if out.reply == Ok(true) { RecordKeepsNumbers(mem, out.mem, w); }
  }

  lemma AuthorizeKeepsNumbers(mem: Memory, store: StoreState, w: string, s: string, reply: StoreReply)
    requires NumbersOk(mem) && mem.nextLease < MAX_U64 && mem.nextDrainId < MAX_U64
    ensures OneStep(mem, DrainAuthorizations(mem, store, w, s, reply).mem)
  {
    var out := DrainAuthorizations(mem, store, w, s, reply);
    if Current(mem, w, s) && ShutdownDue(mem, w) {
      ShutdownDoes(mem, store, w, reply);
      if out.reply.Ok? { RecordKeepsNumbers(mem, out.mem, w); }
    }
  }

  lemma CompletionKeepsNumbers(mem: Memory, store: StoreState, issued: Issued, w: string, s: string, id: nat, reply: StoreReply)
    requires Inv(mem, store, issued) && NumbersOk(mem) && mem.nextLease < MAX_U64 && mem.nextDrainId < MAX_U64
    ensures OneStep(mem, CompleteDrain(mem, store, w, s, id, reply).mem)
  {
    var out := CompleteDrain(mem, store, w, s, id, reply);
    CompleteDrainDoes(mem, store, issued, w, s, id, reply);
    if out.reply == Ok(true) {
      var found := FindDrain(mem.workers[w].drains, id);
      assert IsDrain(mem.workers[w].drains, id, found.value);
      RecordKeepsNumbers(mem, out.mem, w);
    }
  }

  lemma CallKeepsNumbers(mem: Memory, store: StoreState, issued: Issued, a: Runs.Action)
    requires Inv(mem, store, issued) && NumbersOk(mem) && mem.nextLease < MAX_U64 && mem.nextDrainId < MAX_U64 && !a.DoRestart?
    ensures OneStep(mem, Runs.Call(mem, store, a).0)
  {
    match a
    case DoRegister(r, reply) => RegisterKeepsNumbers(mem, store, r, reply);
    case DoOpenHeartbeat(w, s) => OpenKeepsNumbers(mem, store, w, s);
    case DoHeartbeat(w, s, lease, n, run, reply) => BeatsKeepNumbers(mem, store, w, s, lease, n, run, reply);
    case DoCloseHeartbeat(w, s, lease, reply) => CloseKeepsNumbers(mem, store, issued, w, s, lease, reply);
    case DoSetTargets(w, s, ts, save, reply) => TargetsKeepNumbers(mem, store, issued, w, s, ts, save, reply);
    case DoStateReport(w, s, g, n, full, states, reply) => ReportKeepsNumbers(mem, store, issued, w, s, g, n, full, states, reply);
    case DoDrainAuthorizations(w, s, reply) => AuthorizeKeepsNumbers(mem, store, w, s, reply);
    case DoCompleteDrain(w, s, id, reply) => CompletionKeepsNumbers(mem, store, issued, w, s, id, reply);
  }

  /** As long as fewer than 2^64 calls were made, drains of one record have different numbers, and every
      stream but the newest is stale. */
  lemma {:induction false} ReachableNumbers(limit: nat, actions: seq<Runs.Action>)
    requires limit > 0 && |actions| < MAX_U64
    ensures var sys := Runs.Run(Runs.Boot(limit), actions);
            sys.mem.Some? ==> NumbersOk(sys.mem.value) && sys.mem.value.nextLease <= |actions| && sys.mem.value.nextDrainId <= |actions|
    decreases |actions|
  {
    if actions != [] {
      var front, last := actions[..|actions| - 1], actions[|actions| - 1];
      ReachableNumbers(limit, front);
      Runs.BootIsOk(limit);
      Runs.RunKeepsOk(Runs.Boot(limit), front);
      var sys := Runs.Run(Runs.Boot(limit), front);
      if last.DoRestart? {
        Runs.Restored(sys.store, last.historyLimit, last.order, last.replies);
      } else if sys.mem.Some? {
        CallKeepsNumbers(sys.mem.value, sys.store, sys.issued, last);
      }
    }
  }

  /** A stream that is not the newest of its Worker can no longer beat or end liveness. */
  lemma OldStreamIsStale(mem: Memory, store: StoreState, w: string, s: string, earlier: nat, n: nat, run: RunState, reply: StoreReply)
    requires mem.nextLease < MAX_U64 && Current(mem, w, s) && earlier <= mem.nextLease && run != UnspecifiedRunState
    ensures var after := OpenHeartbeat(mem, store, w, s).mem;
            && Heartbeat(after, store, w, s, earlier, n, run, reply).reply == Err(StaleHeartbeatStream)
            && CloseHeartbeat(after, store, w, s, earlier, reply).mem == after
  {
    var after := OpenHeartbeat(mem, store, w, s).mem;
    OpenHeartbeatDoes(mem, store, w, s);
    HeartbeatAnswers(after, store, w, s, earlier, n, run, reply);
  }
}
