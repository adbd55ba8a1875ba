/** What every step of a Worker's weight session does, and that drains and re-targeted experts get on. */
module SessionEffects {
  import opened Ordering
  import opened Topology
  import opened QueueState
  import opened QueueInvariant
  import opened QueueEffects
  import opened WeightSession

  // ---------------------------------------------------------------- gates open again

  /** Exactly the gates of experts that are ready and targets are open; nothing else of the queue changed. */
  ghost predicate Reopened(s: Session, after: Session, ready: set<ExpertKey>) {
    && after.queue == s.queue.(gates := after.queue.gates)
    && (forall key :: key in ready && key in s.targets ==> key !in after.queue.gates)
    && (forall key :: !(key in ready && key in s.targets) ==>
          (key in after.queue.gates <==> key in s.queue.gates) && (key in after.queue.gates ==> after.queue.gates[key] == s.queue.gates[key]))
    && after == s.(queue := after.queue, lock := after.lock)
  }

  /** The snapshot after a target application opens the gates of ready targets and releases the lock. */
  lemma FinishApplyReopens(s: Session, limits: Limits, ready: set<ExpertKey>)
    ensures var after := Step(s, limits, FinishApply(ready));
            if s.lock.Snapshotting? then Reopened(s, after, ready) && after.lock == Free else after == s
  {
  }

  /** A report of ready targets opens their gates as it is sent. */
  lemma ReportReopens(s: Session, limits: Limits, ready: set<ExpertKey>)
    ensures var after := Step(s, limits, ClearReady(ready)); Reopened(s, after, ready) && after.lock == s.lock
  {
  }

  /** A batch for experts that are ready targets, or were never gated, is admitted again. */
  lemma ReopenedIsServed(s: Session, after: Session, limits: Limits, ready: set<ExpertKey>, item: nat, layer: nat, experts: seq<nat>, bytes: nat)
    requires Reopened(s, after, ready) && QueueOk(s.queue, limits)
    requires forall i :: 0 <= i < |experts| ==>
               var key := ExpertKey(layer, experts[i]); (key in ready && key in s.targets) || key !in s.queue.gates
    requires s.queue.stopAll == None && !s.queue.closing && item !in s.queue.entries && HasRoom(s.queue, limits, bytes)
    ensures AdmitRefusal(after.queue, limits, item, layer, experts, bytes) == None
    ensures IsIn(Admit(after.queue, limits, item, layer, experts, bytes), item, Waiting)
  {
    AdmissionExact(after.queue, limits, item, layer, experts, bytes);
  }

  // ---------------------------------------------------------------- remembered drains

  lemma {:induction false} LookupAppend(history: History, a: Authorization, id: nat)
    ensures Lookup(history + [a], id) == if Lookup(history, id).Some? then Lookup(history, id) else if a.id == id then Some(a) else None
    decreases |history|
  {
    if history != [] {
      assert (history + [a])[1..] == history[1..] + [a];
      LookupAppend(history[1..], a, id);
    } else {
      assert (history + [a])[1..] == [];
    }
  }

  ghost predicate IdsOnce(history: History) {
    forall i, j :: 0 <= i < j < |history| ==> history[i].id != history[j].id
  }

  lemma {:induction false} LookupTail(history: History, id: nat)
    requires history != [] && IdsOnce(history)
    ensures Lookup(history[1..], id) == if history[0].id == id then None else Lookup(history, id)
    decreases |history|
  {
    if history[0].id == id { NotFound(history[1..], id); }
  }

  lemma {:induction false} NotFound(history: History, id: nat)
    requires forall i :: 0 <= i < |history| ==> history[i].id != id
    ensures Lookup(history, id) == None
    decreases |history|
  {
    if history != [] { NotFound(history[1..], id); }
  }

  lemma {:induction false} Found(history: History, id: nat) returns (i: nat)
    requires Lookup(history, id).Some?
    ensures i < |history| && history[i] == Lookup(history, id).value && history[i].id == id
    decreases |history|
  {
    if history[0].id == id { i := 0; } else { var k := Found(history[1..], id); i := k + 1; }
  }

  /** A drain is remembered once; the table stays within 64 and only its oldest entry makes room. */
  lemma RememberDoes(history: History, a: Authorization)
    requires IdsOnce(history) && |history| <= 64
    ensures var after := Remember(history, a);
            && IdsOnce(after) && |after| <= 64 && Lookup(after, a.id).Some?
            && (Lookup(history, a.id).None? ==> Lookup(after, a.id) == Some(a))
            && (forall id :: Lookup(history, id).Some? && !(Lookup(history, a.id).None? && |history| == 64 && history[0].id == id) ==>
                  Lookup(after, id) == Lookup(history, id))
  {
    if Lookup(history, a.id).None? {
      forall i | 0 <= i < |history| ensures history[i].id != a.id { NotNone(history, i); }
      if |history| == 64 {
        forall id | Lookup(history, id).Some? && history[0].id != id ensures Lookup(Remember(history, a), id) == Lookup(history, id) {
          LookupTail(history, id);
          LookupAppend(history[1..], a, id);
        }
        NotFound(history[1..], a.id);
        LookupAppend(history[1..], a, a.id);
      } else {
        forall id | Lookup(history, id).Some? ensures Lookup(Remember(history, a), id) == Lookup(history, id) { LookupAppend(history, a, id); }
        LookupAppend(history, a, a.id);
      }
    }
  }

  lemma {:induction false} NotNone(history: History, i: nat)
    requires i < |history|
    ensures Lookup(history, history[i].id).Some?
    decreases |history|
  {
    if history[0].id != history[i].id { NotNone(history[1..], i - 1); }
  }

  /** Both tables hold a drain once, and at most 64 of them. */
  ghost predicate HistoriesOk(s: Session) {
    IdsOnce(s.completed) && |s.completed| <= 64 && IdsOnce(s.superseded) && |s.superseded| <= 64
  }

  lemma {:induction false} RememberAllOk(history: History, active: map<nat, ActiveDrain>, ids: seq<nat>)
    requires IdsOnce(history) && |history| <= 64
    ensures IdsOnce(RememberAll(history, active, ids)) && |RememberAll(history, active, ids)| <= 64
    decreases |ids|
  {
    if ids != [] {
      var front, id := ids[..|ids| - 1], ids[|ids| - 1];
      RememberAllOk(history, active, front);
      if id in active { RememberDoes(RememberAll(history, active, front), active[id].authorization); }
    }
  }

  lemma RememberSize(history: History, a: Authorization)
    requires |history| < 64
    ensures |Remember(history, a)| <= |history| + 1
  {
  }

  /** With room for all of them, every drain is remembered and none that was is lost. */
  lemma {:induction false} RememberAllDoes(history: History, active: map<nat, ActiveDrain>, ids: seq<nat>, id: nat)
    requires IdsOnce(history) && |history| + |ids| <= 64 && forall i :: 0 <= i < |ids| ==> ids[i] in active && active[ids[i]].authorization.id == ids[i]
    ensures var after := RememberAll(history, active, ids);
            && IdsOnce(after) && |after| <= |history| + |ids|
            && (id in ids || Lookup(history, id).Some? ==> Lookup(after, id).Some?)
    decreases |ids|
  {
    if ids != [] {
      var front, last := ids[..|ids| - 1], ids[|ids| - 1];
      RememberAllDoes(history, active, front, id);
      var before := RememberAll(history, active, front);
      RememberDoes(before, active[last].authorization);
      RememberSize(before, active[last].authorization);
      assert id in ids <==> id == last || id in front;
    }
  }

  // ---------------------------------------------------------------- steps of a drain

  /** A drain that is new and not superseded starts; one that is superseded is only remembered; a known
      one is left alone. */
  lemma StartDoes(s: Session, limits: Limits, a: Authorization)
    ensures var after := Step(s, limits, StartDrain(a));
            var known := Lookup(s.superseded, a.id).Some? || Lookup(s.completed, a.id).Some? || a.id in s.active;
            var late := !a.stopAll && a.generation < s.generation;
            && (known ==> after == s)
            && (!known && late ==> after == s.(superseded := after.superseded) && a.id !in after.active && Lookup(after.superseded, a.id) == Some(a))
            && (!known && !late ==>
                  && after == s.(active := after.active) && after.active.Keys == s.active.Keys + {a.id}
                  && after.active[a.id] == ActiveDrain(a, Starting) && forall id :: id in s.active && id != a.id ==> after.active[id] == s.active[id])
  {
    if Lookup(s.superseded, a.id).None? && |s.superseded| < COMPLETED_DRAIN_HISTORY { LookupAppend(s.superseded, a, a.id); }
    if Lookup(s.superseded, a.id).None? && |s.superseded| >= COMPLETED_DRAIN_HISTORY {
      LookupAppend(s.superseded[1..], a, a.id);
      assert Lookup(s.superseded[1..], a.id).None?;
    }
  }

  /** A newer placement ends exactly the expert drains of older ones; the queue is not touched. */
  lemma ApplyDoes(s: Session, limits: Limits, generation: nat, targets: set<ExpertKey>)
    ensures var after := Step(s, limits, BeginApply(generation, targets));
            if s.lock != Free then after == s
            else
              && after.lock == Applying(generation, targets)
              && after == s.(lock := after.lock, active := after.active, superseded := after.superseded)
              && (forall id :: id in after.active <==>
                    id in s.active && !(generation > s.generation && !s.active[id].authorization.stopAll
                                        && s.active[id].authorization.generation < generation))
              && (forall id :: id in after.active ==> after.active[id] == s.active[id])
              && (generation <= s.generation ==> after.superseded == s.superseded)
  {
  }

  /** The drains it ends are remembered as superseded, if the table has room for them. */
  lemma ApplyRemembers(s: Session, limits: Limits, generation: nat, targets: set<ExpertKey>, id: nat)
    requires HistoriesOk(s) && s.lock == Free && generation > s.generation && |s.superseded| + |s.active| <= 64
    requires forall i :: i in s.active ==> s.active[i].authorization.id == i
    requires id in s.active && id !in Step(s, limits, BeginApply(generation, targets)).active
    ensures Lookup(Step(s, limits, BeginApply(generation, targets)).superseded, id).Some?
  {
    var outdated := set i | i in s.active && Outdated(s.active[i], generation);
    NatOrder();
    var ids := SortSet(outdated, NatLe);
    assert outdated <= s.active.Keys;
    FewerThan(outdated, s.active.Keys);
    forall i | 0 <= i < |ids| ensures ids[i] in s.active { assert ids[i] in ids; }
    RememberAllDoes(s.superseded, s.active, ids, id);
  }

  lemma FewerThan(a: set<nat>, b: set<nat>)
    requires a <= b
    ensures |a| <= |b|
  {
    assert b == a + (b - a);
  }

  /** The placement takes effect when the manager has applied it. */
  lemma AppliedDoes(s: Session, limits: Limits, skip: bool)
    ensures var after := Step(s, limits, ManagerApplied(skip));
            if !s.lock.Applying? then after == s
            else
              && after.generation == s.lock.generation && after.targets == s.lock.targets
              && after.lock == (if skip then Free else Snapshotting)
              && after == s.(generation := after.generation, targets := after.targets, lock := after.lock)
  {
  }

  /** An application that fails gives the lock back; the placement in effect and the gates stay. */
  lemma AbortApplyDoes(s: Session, limits: Limits)
    ensures Step(s, limits, AbortApply) == if s.lock.Applying? || s.lock.Snapshotting? then s.(lock := Free) else s
  {
  }

  /** Only drain `id` moves, to `stage`. */
  ghost predicate Advances(s: Session, after: Session, id: nat, stage: Stage) {
    && id in s.active && after.active.Keys == s.active.Keys
    && after.active[id] == ActiveDrain(s.active[id].authorization, stage)
    && (forall i :: i in s.active && i != id ==> after.active[i] == s.active[i])
    && after == s.(active := after.active, queue := after.queue, lock := after.lock)
  }

  /** Drain `id` ends, and the others stay. */
  ghost predicate Leaves(s: Session, after: Session, id: nat) {
    && after.active.Keys == s.active.Keys - {id} && forall i :: i in after.active ==> after.active[i] == s.active[i]
  }

  ghost predicate Late(s: Session, a: Authorization) { !a.stopAll && a.generation < s.generation }

  ghost predicate At(s: Session, id: nat, stage: Stage) { id in s.active && s.active[id].stage == stage }

  /** A drain in force closes its gates; one that a placement overtook gives up without touching them. */
  lemma GateDoes(s: Session, limits: Limits, id: nat)
    requires HistoriesOk(s) && (id in s.active ==> s.active[id].authorization.id == id)
    ensures var after := Step(s, limits, OpenGate(id));
            if s.lock != Free || !At(s, id, Starting) then after == s
            else if Late(s, s.active[id].authorization) then
              Leaves(s, after, id) && after == s.(active := after.active, superseded := after.superseded) && Lookup(after.superseded, id).Some?
            else
              && Advances(s, after, id, Gated) && after.lock == s.lock && GateHeld(after.queue, s.active[id].authorization)
              && after.queue == s.queue.(gates := after.queue.gates, stopAll := after.queue.stopAll)
              && (forall key :: key in after.queue.gates <==> key in s.queue.gates || key in s.active[id].authorization.experts)
  {
    if At(s, id, Starting) {
      GateIsHeld(s.queue, s.active[id].authorization);
      RememberDoes(s.superseded, s.active[id].authorization);
    }
  }

  /** Nothing admitted is left for the drain. */
  ghost predicate Unused(q: Queue, a: Authorization) {
    if a.stopAll then q.entries == map[]
    else forall item :: item in q.entries ==> EntryKeys(q.entries[item]) !! a.experts
  }

  lemma IdleIsUnused(q: Queue, limits: Limits, a: Authorization)
    requires QueueOk(q, limits)
    ensures DrainIdle(q, a) <==> Unused(q, a)
  {
    IdleMeansUnused(q, limits);
    if a.stopAll && q.entries == map[] {
      NonemptyHasMember(q.waiting);
      assert InPhase(q.entries, Active) == {};
    }
    if !a.stopAll && Unused(q, a) {
      forall key | key in a.experts ensures Count(q.admitted, key) == 0 { assert Naming(q.entries, key) == {}; }
    }
    if !a.stopAll && DrainIdle(q, a) {
      forall item | item in q.entries ensures EntryKeys(q.entries[item]) !! a.experts {
        forall key | key in a.experts ensures key !in EntryKeys(q.entries[item]) { assert Count(q.admitted, key) == 0; }
      }
    }
  }

  /** A gated drain goes on exactly when no admitted batch uses what it drains. */
  lemma ObserveDoes(s: Session, limits: Limits, id: nat)
    requires QueueOk(s.queue, limits)
    ensures var after := Step(s, limits, ObserveIdle(id));
            if At(s, id, Gated) && Unused(s.queue, s.active[id].authorization) then
              Advances(s, after, id, SeenIdle) && after.queue == s.queue && after.lock == s.lock
            else after == s
  {
    if id in s.active { IdleIsUnused(s.queue, limits, s.active[id].authorization); }
  }

  lemma BeginRemoveDoes(s: Session, limits: Limits, id: nat)
    requires HistoriesOk(s) && (id in s.active ==> s.active[id].authorization.id == id)
    ensures var after := Step(s, limits, BeginRemove(id));
            if s.lock != Free || !At(s, id, SeenIdle) then after == s
            else if Late(s, s.active[id].authorization) then
              Leaves(s, after, id) && after == s.(active := after.active, superseded := after.superseded) && Lookup(after.superseded, id).Some?
            else Advances(s, after, id, Removing) && after.queue == s.queue && after.lock == RemovingFor(id)
  {
    if At(s, id, SeenIdle) { RememberDoes(s.superseded, s.active[id].authorization); }
  }

  lemma EndRemoveDoes(s: Session, limits: Limits, id: nat, removed: bool)
    ensures var after := Step(s, limits, EndRemove(id, removed));
            if s.lock != RemovingFor(id) || !At(s, id, Removing) then after == s
            else if removed then Advances(s, after, id, Removed) && after.queue == s.queue && after.lock == Free
            else Leaves(s, after, id) && after == s.(active := after.active, lock := Free, failed := true)
  {
  }

  /** A finished drain is remembered as completed. */
  lemma CompleteDoes(s: Session, limits: Limits, id: nat)
    requires HistoriesOk(s) && (id in s.active ==> s.active[id].authorization.id == id)
    ensures var after := Step(s, limits, CompleteDrain(id));
            if !At(s, id, Removed) then after == s
            else Leaves(s, after, id) && after == s.(active := after.active, completed := after.completed)
                 && IdsOnce(after.completed) && |after.completed| <= 64 && Lookup(after.completed, id).Some?
  {
    if At(s, id, Removed) { RememberDoes(s.completed, s.active[id].authorization); }
  }

  /** A cancelled or failed task leaves, gives its lock back, and opens no gate. */
  lemma AbortDoes(s: Session, limits: Limits, id: nat, failed: bool)
    ensures var after := Step(s, limits, AbortDrain(id, failed));
            && Leaves(s, after, id) && after == s.(active := after.active, lock := after.lock, failed := after.failed)
            && after.lock == (if s.lock == RemovingFor(id) then Free else s.lock) && (after.failed <==> s.failed || failed)
  {
  }

  lemma StartKeepsHistories(s: Session, d: Authorization)
    requires HistoriesOk(s)
    ensures HistoriesOk(Start(s, d))
  {
    RememberDoes(s.superseded, d);
  }

  lemma ApplyKeepsHistories(s: Session, generation: nat, targets: set<ExpertKey>)
    requires HistoriesOk(s)
    ensures HistoriesOk(Apply(s, generation, targets))
  {
    NatOrder();
    var outdated := set id | id in s.active && Outdated(s.active[id], generation);
    RememberAllOk(s.superseded, s.active, SortSet(outdated, NatLe));
  }

  lemma GivingUpKeepsHistories(s: Session, id: nat)
    requires HistoriesOk(s)
    ensures HistoriesOk(Gate(s, id)) && HistoriesOk(StartRemove(s, id))
  {
    if id in s.active { RememberDoes(s.superseded, s.active[id].authorization); }
  }

  lemma CompleteKeepsHistories(s: Session, id: nat)
    requires HistoriesOk(s)
    ensures HistoriesOk(Complete(s, id))
  {
    if id in s.active { RememberDoes(s.completed, s.active[id].authorization); }
  }

  lemma StepKeepsHistories(s: Session, limits: Limits, a: Action)
    requires HistoriesOk(s)
    ensures HistoriesOk(Step(s, limits, a))
  {
    match a
    case StartDrain(d) => StartKeepsHistories(s, d);
    case BeginApply(generation, targets) => ApplyKeepsHistories(s, generation, targets);
    case OpenGate(id) => GivingUpKeepsHistories(s, id);
    case BeginRemove(id) => GivingUpKeepsHistories(s, id);
    case CompleteDrain(id) => CompleteKeepsHistories(s, id);
    case _ =>
  }

  /** In every run the tables of finished and superseded drains hold a drain once and stay within 64. */
  lemma {:induction false} HistoriesStayBounded(limits: Limits, actions: seq<Action>)
    ensures HistoriesOk(Run(limits, actions))
    decreases |actions|
  {
    if actions != [] {
      HistoriesStayBounded(limits, actions[..|actions| - 1]);
      StepKeepsHistories(Run(limits, actions[..|actions| - 1]), limits, actions[|actions| - 1]);
    }
  }

  // ---------------------------------------------------------------- drains get through

  /** The steps of one undisturbed drain. */
  function DrainSteps(s: Session, limits: Limits, id: nat): Session {
    var idle := Step(Step(s, limits, OpenGate(id)), limits, ObserveIdle(id));
    var removed := Step(Step(idle, limits, BeginRemove(id)), limits, EndRemove(id, true));
    Step(removed, limits, CompleteDrain(id))
  }

  /** From a drain that has seen its experts idle to its completion. */
  lemma SeenGetsThrough(s: Session, limits: Limits, id: nat)
    requires HistoriesOk(s) && s.lock == Free && At(s, id, SeenIdle)
    requires s.active[id].authorization.id == id && !Late(s, s.active[id].authorization)
    ensures var removed := Step(Step(s, limits, BeginRemove(id)), limits, EndRemove(id, true));
            var after := Step(removed, limits, CompleteDrain(id));
            && Leaves(s, after, id) && Lookup(after.completed, id).Some?
            && after == s.(active := after.active, completed := after.completed)
  {
    var removing := Step(s, limits, BeginRemove(id));
    BeginRemoveDoes(s, limits, id);
    var removed := Step(removing, limits, EndRemove(id, true));
    EndRemoveDoes(removing, limits, id, true);
    CompleteDoes(removed, limits, id);
  }

  /** A drain that no placement has overtaken, and whose experts no admitted batch uses, gets through: it
      is completed, its gates are closed, the lock is free again, and nothing else moved. */
  lemma DrainGetsThrough(s: Session, limits: Limits, id: nat)
    requires QueueOk(s.queue, limits) && HistoriesOk(s)
    requires s.lock == Free && At(s, id, Starting) && s.active[id].authorization.id == id
    requires !Late(s, s.active[id].authorization) && Unused(s.queue, s.active[id].authorization)
    ensures var after := DrainSteps(s, limits, id);
            && Leaves(s, after, id) && Lookup(after.completed, id).Some? && after.lock == Free
            && GateHeld(after.queue, s.active[id].authorization) && after.queue.entries == s.queue.entries
            && after.generation == s.generation && after.targets == s.targets && after.failed == s.failed
  {
    var a := s.active[id].authorization;
    var gated := Step(s, limits, OpenGate(id));
    GateDoes(s, limits, id);
    QueueStepKeepsOk(s.queue, limits, DoBeginDrain(a.experts, a.minVersion, a.stopAll));
    assert gated.queue == BeginDrain(s.queue, a.experts, a.minVersion, a.stopAll);
    var idle := Step(gated, limits, ObserveIdle(id));
    ObserveDoes(gated, limits, id);
    SeenGetsThrough(idle, limits, id);
  }
}
