/** Drains on a Worker: target application, drain tasks, gate clearing and queue work, interleaved.

    Each step is one stretch between two suspension points of one task.  The drain-transition lock is
    part of the state, because it is held across calls into the weight manager. */
module WeightSession {
  import opened Ordering
  import opened Topology
  import opened QueueState
  import opened QueueInvariant

  datatype Authorization = Authorization(id: nat, generation: nat, minVersion: nat, stopAll: bool, experts: set<ExpertKey>)

  /** Where the task of one drain stands. */
  datatype Stage = Starting | Gated | SeenIdle | Removing | Removed

  datatype ActiveDrain = ActiveDrain(authorization: Authorization, stage: Stage)

  /** Who holds the drain-transition lock. */
  datatype Lock = Free | Applying(generation: nat, targets: set<ExpertKey>) | Snapshotting | RemovingFor(id: nat)

  /** A bounded table of remembered drains, oldest first. */
  type History = seq<Authorization>

  datatype Session = Session(
    queue: Queue, generation: nat, targets: set<ExpertKey>, lock: Lock,
    active: map<nat, ActiveDrain>, completed: History, superseded: History, failed: bool)

  const InitialSession := Session(EmptyQueue, 0, {}, Free, map[], [], [], false)

  const COMPLETED_DRAIN_HISTORY: nat := 64

  function Lookup(history: History, id: nat): Option<Authorization> {
    if history == [] then None
    else if history[0].id == id then Some(history[0])
    else Lookup(history[1..], id)
  }

  function Remember(history: History, authorization: Authorization): History {
    if Lookup(history, authorization.id).Some? then history
    else if |history| >= COMPLETED_DRAIN_HISTORY then history[1..] + [authorization]
    else history + [authorization]
  }

  /** A later placement took over the experts of an expert drain. */
  predicate IsSuperseded(s: Session, authorization: Authorization) {
    !authorization.stopAll && authorization.generation < s.generation
  }

  datatype Action =
    | QueueWork(action: QueueAction)
    | StartDrain(authorization: Authorization)
    | BeginApply(generation: nat, targets: set<ExpertKey>)
    | ManagerApplied(skipSnapshot: bool)
    | FinishApply(ready: set<ExpertKey>)
    | AbortApply
    | ClearReady(ready: set<ExpertKey>)
    | OpenGate(id: nat)
    | ObserveIdle(id: nat)
    | BeginRemove(id: nat)
    | EndRemove(id: nat, removed: bool)
    | CompleteDrain(id: nat)
    | AbortDrain(id: nat, failed: bool)

  // ---------------------------------------------------------------- steps

  predicate KnownDrain(s: Session, id: nat) {
    Lookup(s.superseded, id).Some? || Lookup(s.completed, id).Some? || id in s.active
  }

  /** A new authorization starts a task, unless its placement is already replaced. */
  function Start(s: Session, authorization: Authorization): Session {
    if KnownDrain(s, authorization.id) then s
    else if IsSuperseded(s, authorization) then s.(superseded := Remember(s.superseded, authorization))
    else s.(active := s.active[authorization.id := ActiveDrain(authorization, Starting)])
  }

  predicate Outdated(drain: ActiveDrain, generation: nat) {
    !drain.authorization.stopAll && drain.authorization.generation < generation
  }

  function RememberAll(history: History, active: map<nat, ActiveDrain>, ids: seq<nat>): History {
    if ids == [] then history else
    var before, id := RememberAll(history, active, ids[..|ids| - 1]), ids[|ids| - 1];
    if id in active then Remember(before, active[id].authorization) else before
  }

  /** A newer placement cancels the expert drains of older ones before it is applied. */
  function Apply(s: Session, generation: nat, targets: set<ExpertKey>): Session {
    if s.lock != Free then s
    else if generation <= s.generation then s.(lock := Applying(generation, targets))
    else
      var outdated := set id | id in s.active && Outdated(s.active[id], generation);
      NatOrder();
      s.(lock := Applying(generation, targets), active := s.active - outdated,
         superseded := RememberAll(s.superseded, s.active, SortSet(outdated, NatLe)))
  }

  function Applied(s: Session, skipSnapshot: bool): Session {
    if !s.lock.Applying? then s
    else s.(generation := s.lock.generation, targets := s.lock.targets, lock := if skipSnapshot then Free else Snapshotting)
  }

  /** Only experts that are targets now get their gates back open. */
  function Clear(s: Session, ready: set<ExpertKey>): Session {
    s.(queue := ClearDrains(s.queue, ready * s.targets))
  }

  predicate AtStage(s: Session, id: nat, stage: Stage) {
    id in s.active && s.active[id].stage == stage
  }

  function Drop(s: Session, id: nat): Session { s.(active := s.active - {id}) }

  function MoveTo(s: Session, id: nat, stage: Stage): Session
    requires id in s.active
  {
    s.(active := s.active[id := s.active[id].(stage := stage)])
  }

  function GiveUp(s: Session, id: nat): Session
    requires id in s.active
  {
    Drop(s, id).(superseded := Remember(s.superseded, s.active[id].authorization))
  }

  function Gate(s: Session, id: nat): Session {
    if s.lock != Free || !AtStage(s, id, Starting) then s else
    var a := s.active[id].authorization;
    if IsSuperseded(s, a) then GiveUp(s, id)
    else MoveTo(s, id, Gated).(queue := BeginDrain(s.queue, a.experts, a.minVersion, a.stopAll))
  }

  predicate DrainIdle(q: Queue, a: Authorization) {
    if a.stopAll then AllIdle(q) else ExpertsIdle(q, a.experts)
  }

  function Observe(s: Session, id: nat): Session {
    if AtStage(s, id, Gated) && DrainIdle(s.queue, s.active[id].authorization) then MoveTo(s, id, SeenIdle) else s
  }

  /** From here to `EndRemove` the weight manager drops the drained weights. */
  function StartRemove(s: Session, id: nat): Session {
    if s.lock != Free || !AtStage(s, id, SeenIdle) then s
    else if IsSuperseded(s, s.active[id].authorization) then GiveUp(s, id)
    else MoveTo(s, id, Removing).(lock := RemovingFor(id))
  }

  function FinishRemove(s: Session, id: nat, removed: bool): Session {
    if s.lock != RemovingFor(id) || !AtStage(s, id, Removing) then s
    else if removed then MoveTo(s, id, Removed).(lock := Free)
    else Drop(s, id).(lock := Free, failed := true)
  }

  function Complete(s: Session, id: nat): Session {
    if !AtStage(s, id, Removed) then s
    else Drop(s, id).(completed := Remember(s.completed, s.active[id].authorization))
  }

  /** A cancelled or failed task ends wherever it is; its lock is released. */
  function Abort(s: Session, id: nat, failed: bool): Session {
    Drop(s, id).(lock := if s.lock == RemovingFor(id) then Free else s.lock, failed := s.failed || failed)
  }

  function Step(s: Session, limits: Limits, a: Action): Session {
    match a
    case QueueWork(work) => s.(queue := QueueStep(s.queue, limits, work))
    case StartDrain(authorization) => Start(s, authorization)
    case BeginApply(generation, targets) => Apply(s, generation, targets)
    case ManagerApplied(skipSnapshot) => Applied(s, skipSnapshot)
    case FinishApply(ready) => if s.lock.Snapshotting? then Clear(s, ready).(lock := Free) else s
    case AbortApply => if s.lock.Applying? || s.lock.Snapshotting? then s.(lock := Free) else s
    case ClearReady(ready) => Clear(s, ready)
    case OpenGate(id) => Gate(s, id)
    case ObserveIdle(id) => Observe(s, id)
    case BeginRemove(id) => StartRemove(s, id)
    case EndRemove(id, removed) => FinishRemove(s, id, removed)
    case CompleteDrain(id) => Complete(s, id)
    case AbortDrain(id, failed) => Abort(s, id, failed)
  }

  // ---------------------------------------------------------------- environment

  /** The target set of every placement generation. */
  type Placements = nat -> set<ExpertKey>

  /** What the Controller and the target assembler guarantee: generations do not go back, a generation
      names one target set, its targets arrive before its drains, and a drain never names them.
      Only the session opens and closes gates. */
  ghost predicate Allowed(s: Session, plan: Placements, a: Action) {
    match a
    case QueueWork(work) => !work.DoBeginDrain? && !work.DoClear?
    case BeginApply(generation, targets) => generation > 0 && generation >= s.generation && targets == plan(generation)
    case StartDrain(d) => d.stopAll || (0 < d.generation <= s.generation && d.experts !! plan(d.generation))
    case _ => true
  }

  function Run(limits: Limits, actions: seq<Action>): Session {
    if actions == [] then InitialSession
    else Step(Run(limits, actions[..|actions| - 1]), limits, actions[|actions| - 1])
  }

  ghost predicate AllowedRun(limits: Limits, plan: Placements, actions: seq<Action>)
    decreases |actions|
  {
    actions == [] ||
    (AllowedRun(limits, plan, actions[..|actions| - 1]) &&
     Allowed(Run(limits, actions[..|actions| - 1]), plan, actions[|actions| - 1]))
  }

  // ---------------------------------------------------------------- invariant

  /** What one drain's progress says about the queue, as long as no later placement took over. */
  ghost predicate ProgressOk(q: Queue, drain: ActiveDrain) {
    var a := drain.authorization;
    if a.stopAll then
      && (drain.stage in {Gated, SeenIdle, Removing} ==> q.stopAll.Some?)
      && (drain.stage in {SeenIdle, Removing} ==> StoppedIdle(q))
    else
      && (drain.stage in {Gated, SeenIdle, Removing} ==> forall key :: key in a.experts ==> key in q.gates)
      && (drain.stage in {SeenIdle, Removing} ==> forall key :: key in a.experts ==> GatedIdle(q, key))
  }

  ghost predicate DrainOk(s: Session, plan: Placements, drain: ActiveDrain) {
    var a := drain.authorization;
    && (!a.stopAll ==> 0 < a.generation <= s.generation && a.experts !! plan(a.generation))
    && (!IsSuperseded(s, a) ==> ProgressOk(s.queue, drain))
    && (drain.stage == Removing ==> !IsSuperseded(s, a))
  }

  ghost predicate Inv(s: Session, limits: Limits, plan: Placements) {
    && QueueOk(s.queue, limits)
    && (s.generation > 0 ==> s.targets == plan(s.generation))
    && (s.lock.Applying? ==> s.lock.generation > 0 && s.lock.generation >= s.generation && s.lock.targets == plan(s.lock.generation))
    && (forall id :: id in s.active ==> s.active[id].authorization.id == id && DrainOk(s, plan, s.active[id]))
    && (forall id :: AtStage(s, id, Removing) ==> s.lock == RemovingFor(id))
  }

  /** Queue work other than clearing keeps what every drain relies on. */
  lemma WorkKeepsProgress(q: Queue, limits: Limits, work: QueueAction, drain: ActiveDrain)
    requires ProgressOk(q, drain) && !work.DoClear?
    ensures ProgressOk(QueueStep(q, limits, work), drain)
  {
    var a := drain.authorization;
    KeepsGates(q, limits, work);
    if drain.stage in {SeenIdle, Removing} {
      if a.stopAll {
        StopStep(q, limits, work);
      } else {
        forall key | key in a.experts ensures GatedIdle(QueueStep(q, limits, work), key) { GateStep(q, limits, work, key); }
      }
    }
  }

  lemma KeepsGates(q: Queue, limits: Limits, work: QueueAction)
    requires !work.DoClear?
    ensures forall key :: key in q.gates ==> key in QueueStep(q, limits, work).gates
    ensures q.stopAll.Some? ==> QueueStep(q, limits, work).stopAll.Some?
  {
    if work.DoClose? { DiscardReleases(q, |q.waiting|, ExpertKey(0, 0)); }
  }

  /** Clearing other experts does too. */
  lemma ClearKeepsProgress(q: Queue, keys: set<ExpertKey>, drain: ActiveDrain)
    requires ProgressOk(q, drain) && (drain.authorization.stopAll || drain.authorization.experts !! keys)
    ensures ProgressOk(ClearDrains(q, keys), drain)
  {
  }

  /** The drains of an unchanged session over a changed queue. */
  lemma NewQueueKeepsInv(s: Session, limits: Limits, plan: Placements, q: Queue)
    requires Inv(s, limits, plan) && QueueOk(q, limits)
    requires forall id :: id in s.active && !IsSuperseded(s, s.active[id].authorization) ==> ProgressOk(q, s.active[id])
    ensures Inv(s.(queue := q), limits, plan)
  {
    var next := s.(queue := q);
    forall id | id in next.active ensures DrainOk(next, plan, next.active[id]) {
      assert DrainOk(s, plan, s.active[id]);
    }
    assert forall id :: AtStage(next, id, Removing) ==> AtStage(s, id, Removing);
  }

  lemma QueueWorkKeepsInv(s: Session, limits: Limits, plan: Placements, work: QueueAction)
    requires Inv(s, limits, plan) && !work.DoClear?
    ensures Inv(s.(queue := QueueStep(s.queue, limits, work)), limits, plan)
  {
    QueueStepKeepsOk(s.queue, limits, work);
    forall id | id in s.active && !IsSuperseded(s, s.active[id].authorization)
      ensures ProgressOk(QueueStep(s.queue, limits, work), s.active[id])
    {
      assert DrainOk(s, plan, s.active[id]);
      WorkKeepsProgress(s.queue, limits, work, s.active[id]);
    }
    NewQueueKeepsInv(s, limits, plan, QueueStep(s.queue, limits, work));
  }

  /** Clearing ready targets never opens the gate of a drain that is still in force. */
  lemma ClearKeepsInv(s: Session, limits: Limits, plan: Placements, ready: set<ExpertKey>)
    requires Inv(s, limits, plan)
    ensures Inv(Clear(s, ready), limits, plan)
  {
    var keys := ready * s.targets;
    forall id | id in s.active && !IsSuperseded(s, s.active[id].authorization)
      ensures ProgressOk(ClearDrains(s.queue, keys), s.active[id])
    {
      assert DrainOk(s, plan, s.active[id]);
      ClearKeepsProgress(s.queue, keys, s.active[id]);
    }
    NewQueueKeepsInv(s, limits, plan, ClearDrains(s.queue, keys));
  }

  lemma StartKeepsInv(s: Session, limits: Limits, plan: Placements, a: Authorization)
    requires Inv(s, limits, plan) && Allowed(s, plan, StartDrain(a))
    ensures Inv(Start(s, a), limits, plan)
  {
    var next := Start(s, a);
    forall id | id in next.active ensures next.active[id].authorization.id == id && DrainOk(next, plan, next.active[id]) {
      if id in s.active { assert DrainOk(s, plan, s.active[id]); }
    }
    assert forall id :: AtStage(next, id, Removing) ==> AtStage(s, id, Removing);
  }

  /** Fewer drains, same queue and placement. */
  lemma FewerKeepInv(s: Session, limits: Limits, plan: Placements, next: Session)
    requires Inv(s, limits, plan)
    requires next.queue == s.queue && next.generation == s.generation && next.targets == s.targets
    requires next.lock == s.lock || ((forall id :: !AtStage(next, id, Removing)) &&
                                     (next.lock.Applying? ==> Allowed(s, plan, BeginApply(next.lock.generation, next.lock.targets))))
    requires forall id :: id in next.active ==> id in s.active && next.active[id] == s.active[id]
    ensures Inv(next, limits, plan)
  {
    forall id | id in next.active ensures next.active[id].authorization.id == id && DrainOk(next, plan, next.active[id]) {
      assert DrainOk(s, plan, s.active[id]);
    }
    forall id | AtStage(next, id, Removing) ensures next.lock == RemovingFor(id) { assert AtStage(s, id, Removing); }
  }

  lemma ApplyKeepsInv(s: Session, limits: Limits, plan: Placements, generation: nat, targets: set<ExpertKey>)
    requires Inv(s, limits, plan) && Allowed(s, plan, BeginApply(generation, targets))
    ensures Inv(Apply(s, generation, targets), limits, plan)
  {
    if s.lock == Free {
      var next := Apply(s, generation, targets);
      forall id ensures !AtStage(next, id, Removing) {
        assert AtStage(next, id, Removing) ==> AtStage(s, id, Removing);
      }
      FewerKeepInv(s, limits, plan, next);
    }
  }

  lemma AppliedKeepsInv(s: Session, limits: Limits, plan: Placements, skipSnapshot: bool)
    requires Inv(s, limits, plan)
    ensures Inv(Applied(s, skipSnapshot), limits, plan)
  {
    if s.lock.Applying? {
      var next := Applied(s, skipSnapshot);
      forall id ensures !AtStage(next, id, Removing) {
        assert AtStage(next, id, Removing) ==> AtStage(s, id, Removing);
      }
      forall id | id in next.active ensures DrainOk(next, plan, next.active[id]) {
        assert DrainOk(s, plan, s.active[id]) && !AtStage(next, id, Removing);
      }
    }
  }

  /** One drain moves on; everything else stays. */
  lemma MoveKeepsInv(s: Session, limits: Limits, plan: Placements, id: nat, stage: Stage, lock: Lock)
    requires Inv(s, limits, plan) && id in s.active && DrainOk(s, plan, s.active[id].(stage := stage))
    requires if stage == Removing then s.lock == Free && lock == RemovingFor(id)
             else lock == s.lock || (s.lock == RemovingFor(id) && lock == Free)
    ensures Inv(MoveTo(s, id, stage).(lock := lock), limits, plan)
  {
    var next := MoveTo(s, id, stage).(lock := lock);
    forall i | i in next.active ensures next.active[i].authorization.id == i && DrainOk(next, plan, next.active[i]) {
      assert DrainOk(s, plan, s.active[i]);
    }
    forall i | AtStage(next, i, Removing) ensures next.lock == RemovingFor(i) {
      if i != id { assert AtStage(s, i, Removing); }
    }
  }

  lemma DropKeepsInv(s: Session, limits: Limits, plan: Placements, id: nat, next: Session)
    requires Inv(s, limits, plan)
    requires next == Drop(s, id).(lock := next.lock, completed := next.completed, superseded := next.superseded, failed := next.failed)
    requires next.lock == s.lock || (s.lock == RemovingFor(id) && next.lock == Free)
    ensures Inv(next, limits, plan)
  {
    forall i | AtStage(next, i, Removing) ensures next.lock == RemovingFor(i) && next.lock == s.lock { assert AtStage(s, i, Removing); }
    FewerKeepInv(s, limits, plan, next);
  }

  lemma GateKeepsInv(s: Session, limits: Limits, plan: Placements, id: nat)
    requires Inv(s, limits, plan)
    ensures Inv(Gate(s, id), limits, plan)
  {
    if s.lock == Free && AtStage(s, id, Starting) {
      var a := s.active[id].authorization;
      if IsSuperseded(s, a) {
        DropKeepsInv(s, limits, plan, id, GiveUp(s, id));
      } else {
        var work := DoBeginDrain(a.experts, a.minVersion, a.stopAll);
        var gated := s.(queue := QueueStep(s.queue, limits, work));
        QueueWorkKeepsInv(s, limits, plan, work);
        assert DrainOk(s, plan, s.active[id]);
        MoveKeepsInv(gated, limits, plan, id, Gated, gated.lock);
        assert Gate(s, id) == MoveTo(gated, id, Gated).(lock := gated.lock);
      }
    }
  }

  lemma ObserveKeepsInv(s: Session, limits: Limits, plan: Placements, id: nat)
    requires Inv(s, limits, plan)
    ensures Inv(Observe(s, id), limits, plan)
  {
    if AtStage(s, id, Gated) && DrainIdle(s.queue, s.active[id].authorization) {
      assert DrainOk(s, plan, s.active[id]);
      IdleMeansUnused(s.queue, limits);
      MoveKeepsInv(s, limits, plan, id, SeenIdle, s.lock);
      assert Observe(s, id) == MoveTo(s, id, SeenIdle).(lock := s.lock);
    }
  }

  lemma RemoveKeepsInv(s: Session, limits: Limits, plan: Placements, id: nat)
    requires Inv(s, limits, plan)
    ensures Inv(StartRemove(s, id), limits, plan)
  {
    if s.lock == Free && AtStage(s, id, SeenIdle) {
      assert DrainOk(s, plan, s.active[id]);
      if IsSuperseded(s, s.active[id].authorization) {
        DropKeepsInv(s, limits, plan, id, GiveUp(s, id));
      } else {
        MoveKeepsInv(s, limits, plan, id, Removing, RemovingFor(id));
      }
    }
  }

  lemma FinishRemoveKeepsInv(s: Session, limits: Limits, plan: Placements, id: nat, removed: bool)
    requires Inv(s, limits, plan)
    ensures Inv(FinishRemove(s, id, removed), limits, plan)
  {
    if s.lock == RemovingFor(id) && AtStage(s, id, Removing) {
      assert DrainOk(s, plan, s.active[id]);
      if removed {
        MoveKeepsInv(s, limits, plan, id, Removed, Free);
      } else {
        DropKeepsInv(s, limits, plan, id, FinishRemove(s, id, removed));
      }
    }
  }

  /** Every step keeps the invariant. */
  lemma StepKeepsInv(s: Session, limits: Limits, plan: Placements, a: Action)
    requires Inv(s, limits, plan) && Allowed(s, plan, a)
    ensures Inv(Step(s, limits, a), limits, plan)
  {
    match a
    case QueueWork(work) => QueueWorkKeepsInv(s, limits, plan, work);
    case StartDrain(authorization) => StartKeepsInv(s, limits, plan, authorization);
    case BeginApply(generation, targets) => ApplyKeepsInv(s, limits, plan, generation, targets);
    case ManagerApplied(skipSnapshot) => AppliedKeepsInv(s, limits, plan, skipSnapshot);
    case FinishApply(ready) => {
      ClearKeepsInv(s, limits, plan, ready);
      UnlockKeepsInv(Clear(s, ready), limits, plan);
    }
    case AbortApply => UnlockKeepsInv(s, limits, plan);
    case ClearReady(ready) => ClearKeepsInv(s, limits, plan, ready);
    case OpenGate(id) => GateKeepsInv(s, limits, plan, id);
    case ObserveIdle(id) => ObserveKeepsInv(s, limits, plan, id);
    case BeginRemove(id) => RemoveKeepsInv(s, limits, plan, id);
    case EndRemove(id, removed) => FinishRemoveKeepsInv(s, limits, plan, id, removed);
    case CompleteDrain(id) => if AtStage(s, id, Removed) { DropKeepsInv(s, limits, plan, id, Complete(s, id)); }
    case AbortDrain(id, failed) => DropKeepsInv(s, limits, plan, id, Abort(s, id, failed));
  }

  lemma UnlockKeepsInv(s: Session, limits: Limits, plan: Placements)
    requires Inv(s, limits, plan)
    ensures s.lock.Applying? || s.lock.Snapshotting? ==> Inv(s.(lock := Free), limits, plan)
  {
    if s.lock.Applying? || s.lock.Snapshotting? {
      var next := s.(lock := Free);
      forall id ensures !AtStage(next, id, Removing) {
        assert AtStage(next, id, Removing) ==> AtStage(s, id, Removing);
      }
      FewerKeepInv(s, limits, plan, next);
    }
  }

  lemma {:induction false} RunOk(limits: Limits, plan: Placements, actions: seq<Action>)
    requires AllowedRun(limits, plan, actions)
    ensures Inv(Run(limits, actions), limits, plan)
    decreases |actions|
  {
    if actions == [] {
      EmptyQueueOk(limits);
    } else {
      RunOk(limits, plan, actions[..|actions| - 1]);
      StepKeepsInv(Run(limits, actions[..|actions| - 1]), limits, plan, actions[|actions| - 1]);
    }
  }

  // ---------------------------------------------------------------- what was applied

  ghost predicate Began(actions: seq<Action>, generation: nat) {
    exists j :: 0 <= j < |actions| && actions[j].BeginApply? && actions[j].generation == generation
  }

  lemma BeganBefore(actions: seq<Action>, a: Action, generation: nat)
    ensures Began(actions, generation) ==> Began(actions + [a], generation)
    ensures a.BeginApply? ==> Began(actions + [a], a.generation)
  {
    var more := actions + [a];
    assert more[|actions|] == a;
    if Began(actions, generation) {
      var j :| 0 <= j < |actions| && actions[j].BeginApply? && actions[j].generation == generation;
      assert more[j] == actions[j];
    }
  }

  /** A step moves the placement only to the one being applied, and applies only what it is given. */
  lemma StepPlacement(s: Session, limits: Limits, a: Action)
    ensures var next := Step(s, limits, a);
            && (next.generation == s.generation || (s.lock.Applying? && next.generation == s.lock.generation))
            && (next.lock.Applying? ==> next.lock == s.lock || (a.BeginApply? && next.lock.generation == a.generation))
  {
  }

  /** The placement a session is at, or applies, is one it was told to apply. */
  lemma {:induction false} PlacementWasBegun(limits: Limits, actions: seq<Action>)
    ensures var s := Run(limits, actions);
            && (s.generation == 0 || Began(actions, s.generation))
            && (s.lock.Applying? ==> Began(actions, s.lock.generation))
    decreases |actions|
  {
    if actions != [] {
      var front, last := actions[..|actions| - 1], actions[|actions| - 1];
      assert actions == front + [last];
      PlacementWasBegun(limits, front);
      var s, next := Run(limits, front), Run(limits, actions);
      StepPlacement(s, limits, last);
      BeganBefore(front, last, s.generation);
      if s.lock.Applying? { BeganBefore(front, last, s.lock.generation); }
    }
  }

  // ---------------------------------------------------------------- gates of a drain in force

  /** Batches for a drained expert, or all batches, are refused with the drain's version or a later one. */
  ghost predicate GateHeld(q: Queue, a: Authorization) {
    if a.stopAll then q.stopAll.Some? && q.stopAll.value >= a.minVersion
    else forall key :: key in a.experts ==> key in q.gates && q.gates[key] >= a.minVersion
  }

  lemma GateIsHeld(q: Queue, a: Authorization)
    ensures GateHeld(BeginDrain(q, a.experts, a.minVersion, a.stopAll), a)
  {
  }

  lemma WorkKeepsGate(q: Queue, limits: Limits, work: QueueAction, a: Authorization)
    requires GateHeld(q, a) && !work.DoClear?
    ensures GateHeld(QueueStep(q, limits, work), a)
  {
    if work.DoClose? { DiscardReleases(q, |q.waiting|, ExpertKey(0, 0)); }
  }

  lemma StepKeepsGate(s: Session, limits: Limits, plan: Placements, step: Action, a: Authorization)
    requires GateHeld(s.queue, a) && Allowed(s, plan, step) && (a.stopAll || s.targets !! a.experts)
    ensures GateHeld(Step(s, limits, step).queue, a)
  {
    match step
    case QueueWork(work) => WorkKeepsGate(s.queue, limits, work, a);
    case OpenGate(id) =>
      if id in s.active {
        var b := s.active[id].authorization;
        WorkKeepsGate(s.queue, limits, DoBeginDrain(b.experts, b.minVersion, b.stopAll), a);
      }
    case _ =>
  }

  lemma AllowedPrefix(limits: Limits, plan: Placements, actions: seq<Action>, n: nat)
    requires AllowedRun(limits, plan, actions) && n <= |actions|
    ensures AllowedRun(limits, plan, actions[..n])
    decreases |actions|
  {
    if n == |actions| {
      assert actions[..n] == actions;
    } else {
      AllowedPrefix(limits, plan, actions[..|actions| - 1], n);
      assert actions[..|actions| - 1][..n] == actions[..n];
    }
  }

  /** As long as no drained expert is a target again, the gates of a drain stay closed, with its version. */
  lemma {:induction false} GateOutlives(limits: Limits, plan: Placements, actions: seq<Action>, k: nat, a: Authorization)
    requires AllowedRun(limits, plan, actions) && k <= |actions| && GateHeld(Run(limits, actions[..k]).queue, a)
    requires a.stopAll || forall m :: k <= m < |actions| ==> Run(limits, actions[..m]).targets !! a.experts
    ensures GateHeld(Run(limits, actions).queue, a)
    decreases |actions|
  {
    if k == |actions| {
      assert actions[..k] == actions;
    } else {
      var front := actions[..|actions| - 1];
      assert front[..k] == actions[..k];
      forall m | k <= m < |front| ensures a.stopAll || Run(limits, front[..m]).targets !! a.experts {
        assert front[..m] == actions[..m];
      }
      GateOutlives(limits, plan, front, k, a);
      StepKeepsGate(Run(limits, front), limits, plan, actions[|actions| - 1], a);
    }
  }

  /** The placement of a session never goes back. */
  lemma {:induction false} PlacementGrows(limits: Limits, plan: Placements, actions: seq<Action>, k: nat)
    requires AllowedRun(limits, plan, actions) && k <= |actions|
    ensures Run(limits, actions[..k]).generation <= Run(limits, actions).generation
    decreases |actions|
  {
    if k == |actions| {
      assert actions[..k] == actions;
    } else {
      var front := actions[..|actions| - 1];
      assert front[..k] == actions[..k];
      PlacementGrows(limits, plan, front, k);
      RunOk(limits, plan, front);
      StepPlacement(Run(limits, front), limits, actions[|actions| - 1]);
    }
  }

  /** In every interleaving: while the manager removes the weights of a drain, that drain is not
      superseded and no admitted batch, waiting or active, names a drained expert; for a whole-Worker
      drain there is no admitted batch at all. */
  lemma RemovalIsSafe(limits: Limits, plan: Placements, actions: seq<Action>, id: nat)
    requires AllowedRun(limits, plan, actions) && AtStage(Run(limits, actions), id, Removing)
    ensures var s := Run(limits, actions);
            var a := s.active[id].authorization;
            && !IsSuperseded(s, a)
            && (a.stopAll ==> s.queue.entries == map[])
            && (!a.stopAll ==> forall item :: item in s.queue.entries ==> EntryKeys(s.queue.entries[item]) !! a.experts)
  {
    RunOk(limits, plan, actions);
    var s := Run(limits, actions);
    var a := s.active[id].authorization;
    assert DrainOk(s, plan, s.active[id]);
    IdleMeansUnused(s.queue, limits);
    if !a.stopAll {
      forall item | item in s.queue.entries ensures EntryKeys(s.queue.entries[item]) !! a.experts {
        forall key | key in a.experts ensures key !in EntryKeys(s.queue.entries[item]) { assert GatedIdle(s.queue, key); }
      }
    }
  }

  /** At most one drain removes weights at a time, and never while targets are being applied. */
  lemma OneRemoval(limits: Limits, plan: Placements, actions: seq<Action>, i: nat, j: nat)
    requires AllowedRun(limits, plan, actions)
    requires AtStage(Run(limits, actions), i, Removing) && AtStage(Run(limits, actions), j, Removing)
    ensures i == j && Run(limits, actions).lock == RemovingFor(i)
  {
    RunOk(limits, plan, actions);
  }
}
