/** What the Controller sends to one Worker is what the Worker's drains rely on.

    Target lists travel in parts through the Worker's assembler; authorizations are the unfinished
    drains of the Worker's record.  Whatever the Controller went through, failed writes and restarts
    included, this is the environment that `WeightSession` asks for. */
module WorkerEnvironment {
  import opened Topology
  import opened ControllerState
  import Runs = ControllerRuns
  import Guarantees = ControllerGuarantees
  import Assembler = TargetAssembler
  import Session = WeightSession
  import Queue = QueueState

  // ---------------------------------------------------------------- placements of one run

  /** The Controller after its first `t` calls. */
  function At(limit: nat, calls: seq<Runs.Action>, t: nat): Runs.System
    requires t <= |calls|
  {
    Runs.Run(Runs.Boot(limit), calls[..t])
  }

  ghost predicate IsHeld(limit: nat, calls: seq<Runs.Action>, w: string, generation: nat, t: nat) {
    t <= |calls| && Guarantees.Floor(At(limit, calls, t), w) == generation
  }

  /** The targets that some moment of the run gives to a generation. */
  ghost function TargetsOf(limit: nat, calls: seq<Runs.Action>, w: string, generation: nat): map<ExpertKey, Target> {
    if exists t: nat :: IsHeld(limit, calls, w, generation, t) then
      var t: nat :| IsHeld(limit, calls, w, generation, t);
      Guarantees.FloorTargets(At(limit, calls, t), w)
    else map[]
  }

  /** ... are its targets at every moment: a generation names one target list. */
  lemma NamedOnce(limit: nat, calls: seq<Runs.Action>, w: string, instance: nat, t: nat)
    requires limit > 0 && Guarantees.RegistersFor(calls, w, instance) && t <= |calls|
    ensures TargetsOf(limit, calls, w, Guarantees.Floor(At(limit, calls, t), w)) == Guarantees.FloorTargets(At(limit, calls, t), w)
  {
    var generation := Guarantees.Floor(At(limit, calls, t), w);
    assert IsHeld(limit, calls, w, generation, t);
    var u: nat :| IsHeld(limit, calls, w, generation, u) && TargetsOf(limit, calls, w, generation) == Guarantees.FloorTargets(At(limit, calls, u), w);
    assert IsHeld(limit, calls, w, generation, u);
    assert u <= |calls|;
    if u <= t {
      Guarantees.PlacementsInOrder(limit, calls, w, instance, u, t);
    } else {
      Guarantees.PlacementsInOrder(limit, calls, w, instance, t, u);
    }
  }

  ghost function PlanOf(limit: nat, calls: seq<Runs.Action>, w: string): Session.Placements {
    (generation: nat) => TargetsOf(limit, calls, w, generation).Keys
  }

  ghost function ListsOf(limit: nat, calls: seq<Runs.Action>, w: string): Assembler.Lists {
    (generation: nat) => TargetList(TargetsOf(limit, calls, w, generation))
  }

  // ---------------------------------------------------------------- what is sent

  ghost predicate HasRecord(limit: nat, calls: seq<Runs.Action>, w: string, t: nat) {
    t <= |calls| && At(limit, calls, t).mem.Some? && w in At(limit, calls, t).mem.value.workers
  }

  ghost function RecordAt(limit: nat, calls: seq<Runs.Action>, w: string, t: nat): WorkerRecord
    requires HasRecord(limit, calls, w, t)
  {
    At(limit, calls, t).mem.value.workers[w]
  }

  ghost predicate SentAt(limit: nat, calls: seq<Runs.Action>, w: string, part: Assembler.TargetPart, t: nat) {
    HasRecord(limit, calls, w, t) &&
    var record := RecordAt(limit, calls, w, t);
    Assembler.IsPartOf(part, record.generation, TargetList(record.targets))
  }

  /** A part of the target list that the record of `w` had at some moment. */
  ghost predicate Sent(limit: nat, calls: seq<Runs.Action>, w: string, part: Assembler.TargetPart) {
    exists t: nat :: SentAt(limit, calls, w, part, t)
  }

  function AuthorizationOf(d: Drain): Session.Authorization {
    Session.Authorization(d.id, d.generation, d.minVersion, d.stopAll, d.experts)
  }

  ghost predicate AuthorizedAt(limit: nat, calls: seq<Runs.Action>, w: string, a: Session.Authorization, t: nat, n: nat) {
    HasRecord(limit, calls, w, t) &&
    var drains := RecordAt(limit, calls, w, t).drains;
    n < |drains| && !drains[n].completed && a == AuthorizationOf(drains[n])
  }

  /** A drain that the record of `w` had unfinished at some moment. */
  ghost predicate Authorized(limit: nat, calls: seq<Runs.Action>, w: string, a: Session.Authorization) {
    exists t: nat, n: nat :: AuthorizedAt(limit, calls, w, a, t, n)
  }

  lemma SentIsFrom(limit: nat, calls: seq<Runs.Action>, w: string, instance: nat, part: Assembler.TargetPart)
    requires limit > 0 && Guarantees.RegistersFor(calls, w, instance) && Sent(limit, calls, w, part)
    ensures Assembler.IsFrom(ListsOf(limit, calls, w), part)
  {
    var t: nat :| SentAt(limit, calls, w, part, t);
    NamedOnce(limit, calls, w, instance, t);
  }

  /** An expert drain never names a target of its generation. */
  lemma AuthorizedIsApart(limit: nat, calls: seq<Runs.Action>, w: string, instance: nat, a: Session.Authorization)
    requires limit > 0 && Guarantees.RegistersFor(calls, w, instance) && Authorized(limit, calls, w, a) && !a.stopAll
    ensures a.experts !! PlanOf(limit, calls, w)(a.generation)
  {
    var t: nat, n: nat :| AuthorizedAt(limit, calls, w, a, t, n);
    Runs.ReachableDrains(limit, calls[..t], w, n);
    NamedOnce(limit, calls, w, instance, t);
  }

  lemma KeysOfList(targets: map<ExpertKey, Target>)
    ensures Assembler.TargetKeys(TargetList(targets)) == targets.Keys
  {
    var list, keys := TargetList(targets), SortedKeys(targets.Keys);
    forall key | key in targets ensures key in Assembler.TargetKeys(list) {
      assert key in keys;
      var i :| 0 <= i < |keys| && keys[i] == key;
      assert list[i].key == key;
    }
  }

  // ---------------------------------------------------------------- the session it drives

  /** The Worker's side: its capacity, the size of a part on the wire, its queue limits, and every part
      that arrives, in order. */
  datatype Worker = Worker(maxExperts: nat, size: Assembler.Sizes, limits: Queue.Limits, feed: seq<Assembler.TargetPart>)

  const NothingKept := Assembler.Assembler(0, None)

  function AnswerTo(worker: Worker, n: nat): Result<Option<Assembler.PlacementTargets>, Assembler.PartError>
    requires n < |worker.feed|
  {
    Assembler.Answer(NothingKept, worker.feed, n, worker.maxExperts, worker.size)
  }

  /** Step `k` of the session: it applies the list that part `n` completed, or starts an authorized
      drain after the targets of its generation; nobody else opens or closes gates. */
  ghost predicate DrivenStep(limit: nat, calls: seq<Runs.Action>, w: string, worker: Worker, before: Session.Session, a: Session.Action, n: nat) {
    match a
    case QueueWork(work) => !work.DoBeginDrain? && !work.DoClear?
    case BeginApply(generation, targets) =>
      && n < |worker.feed| && Assembler.IsList(AnswerTo(worker, n))
      && AnswerTo(worker, n).value.value.generation == generation
      && Assembler.TargetKeys(AnswerTo(worker, n).value.value.experts) == targets
    case StartDrain(d) => Authorized(limit, calls, w, d) && (d.stopAll || 0 < d.generation <= before.generation)
    case _ => true
  }

  /** Every part comes from the Controller, lists are applied in the order they were completed. */
  ghost predicate Driven(limit: nat, calls: seq<Runs.Action>, w: string, worker: Worker, actions: seq<Session.Action>, at: seq<nat>) {
    && |at| == |actions| && (forall k :: 0 <= k < |worker.feed| ==> Sent(limit, calls, w, worker.feed[k]))
    && (forall j, k :: 0 <= j < k < |actions| && actions[j].BeginApply? && actions[k].BeginApply? ==> at[j] <= at[k])
    && forall k :: 0 <= k < |actions| ==> DrivenStep(limit, calls, w, worker, Session.Run(worker.limits, actions[..k]), actions[k], at[k])
  }

  /** The list is the Controller's for that generation. */
  lemma AppliedIsPlanned(limit: nat, calls: seq<Runs.Action>, w: string, instance: nat, worker: Worker, n: nat)
    requires limit > 0 && Guarantees.RegistersFor(calls, w, instance) && n < |worker.feed| && Assembler.IsList(AnswerTo(worker, n))
    requires forall k :: 0 <= k < |worker.feed| ==> Sent(limit, calls, w, worker.feed[k])
    ensures var list := AnswerTo(worker, n).value.value;
            Assembler.TargetKeys(list.experts) == PlanOf(limit, calls, w)(list.generation)
  {
    var lists := ListsOf(limit, calls, w);
    forall k | 0 <= k < |worker.feed| ensures Assembler.IsFrom(lists, worker.feed[k]) {
      SentIsFrom(limit, calls, w, instance, worker.feed[k]);
    }
    Assembler.ListsAreOriginal(lists, NothingKept, worker.feed, n, worker.maxExperts, worker.size);
    KeysOfList(TargetsOf(limit, calls, w, AnswerTo(worker, n).value.value.generation));
  }

  /** A later list is of no older placement than the one the session is at. */
  lemma AppliedIsNewer(limit: nat, calls: seq<Runs.Action>, w: string, worker: Worker, actions: seq<Session.Action>, at: seq<nat>, k: nat)
    requires Driven(limit, calls, w, worker, actions, at) && k < |actions| && actions[k].BeginApply?
    ensures actions[k].generation > 0 && actions[k].generation >= Session.Run(worker.limits, actions[..k]).generation
  {
    var s, front := Session.Run(worker.limits, actions[..k]), actions[..k];
    assert DrivenStep(limit, calls, w, worker, s, actions[k], at[k]);
    Assembler.NeverGoesBack(NothingKept, worker.feed, at[k], at[k], worker.maxExperts, worker.size);
    Session.PlacementWasBegun(worker.limits, front);
    if s.generation > 0 {
      var j :| 0 <= j < |front| && front[j].BeginApply? && front[j].generation == s.generation;
      assert front[j] == actions[j];
      assert DrivenStep(limit, calls, w, worker, Session.Run(worker.limits, actions[..j]), actions[j], at[j]);
      Assembler.NeverGoesBack(NothingKept, worker.feed, at[j], at[k], worker.maxExperts, worker.size);
    }
  }

  lemma StepIsAllowed(limit: nat, calls: seq<Runs.Action>, w: string, instance: nat, worker: Worker, actions: seq<Session.Action>, at: seq<nat>, k: nat)
    requires limit > 0 && Guarantees.RegistersFor(calls, w, instance) && Driven(limit, calls, w, worker, actions, at) && k < |actions|
    ensures Session.Allowed(Session.Run(worker.limits, actions[..k]), PlanOf(limit, calls, w), actions[k])
  {
    assert DrivenStep(limit, calls, w, worker, Session.Run(worker.limits, actions[..k]), actions[k], at[k]);
    match actions[k]
    case BeginApply(generation, targets) =>
      AppliedIsPlanned(limit, calls, w, instance, worker, at[k]);
      AppliedIsNewer(limit, calls, w, worker, actions, at, k);
    case StartDrain(d) => if !d.stopAll { AuthorizedIsApart(limit, calls, w, instance, d); }
    case _ =>
  }

  /** Over every run of the Controller, with failed writes and restarts, what it sends to a Worker that
      registers for one instance is the environment the Worker's drains rely on. */
  lemma {:induction false} DrivenIsAllowed(limit: nat, calls: seq<Runs.Action>, w: string, instance: nat, worker: Worker,
                                           actions: seq<Session.Action>, at: seq<nat>, n: nat)
    requires limit > 0 && Guarantees.RegistersFor(calls, w, instance) && Driven(limit, calls, w, worker, actions, at) && n <= |actions|
    ensures Session.AllowedRun(worker.limits, PlanOf(limit, calls, w), actions[..n])
    decreases n
  {
    if n > 0 {
      DrivenIsAllowed(limit, calls, w, instance, worker, actions, at, n - 1);
      StepIsAllowed(limit, calls, w, instance, worker, actions, at, n - 1);
      assert actions[..n][..n - 1] == actions[..n - 1];
    }
  }

  /** Controller and Worker together: while the weights of a drain are removed, no admitted batch names
      them, and no later placement has taken them over. */
  lemma ControllerRemovalIsSafe(limit: nat, calls: seq<Runs.Action>, w: string, instance: nat, worker: Worker,
                                actions: seq<Session.Action>, at: seq<nat>, id: nat)
    requires limit > 0 && Guarantees.RegistersFor(calls, w, instance) && Driven(limit, calls, w, worker, actions, at)
    requires Session.AtStage(Session.Run(worker.limits, actions), id, Session.Removing)
    ensures var s := Session.Run(worker.limits, actions);
            var a := s.active[id].authorization;
            && !Session.IsSuperseded(s, a)
            && (a.stopAll ==> s.queue.entries == map[])
            && (!a.stopAll ==> forall item :: item in s.queue.entries ==> Queue.EntryKeys(s.queue.entries[item]) !! a.experts)
  {
    DrivenIsAllowed(limit, calls, w, instance, worker, actions, at, |actions|);
    assert actions[..|actions|] == actions;
    Session.RemovalIsSafe(worker.limits, PlanOf(limit, calls, w), actions, id);
  }

  // ---------------------------------------------------------------- gates while the Controller waits

  /** The session is never ahead of the Controller. */
  lemma SessionIsBehind(limit: nat, calls: seq<Runs.Action>, w: string, instance: nat, worker: Worker, actions: seq<Session.Action>, at: seq<nat>, m: nat)
    requires Guarantees.RegistersFor(calls, w, instance) && Driven(limit, calls, w, worker, actions, at) && m <= |actions|
    ensures Session.Run(worker.limits, actions[..m]).generation <= Guarantees.FloorAt(limit, calls, w, |calls|)
  {
    var s, front := Session.Run(worker.limits, actions[..m]), actions[..m];
    Session.PlacementWasBegun(worker.limits, front);
    if s.generation > 0 {
      var j :| 0 <= j < |front| && front[j].BeginApply? && front[j].generation == s.generation;
      assert front[j] == actions[j];
      assert DrivenStep(limit, calls, w, worker, Session.Run(worker.limits, actions[..j]), actions[j], at[j]);
      Assembler.AnswerIsNewest(NothingKept, worker.feed, at[j], worker.maxExperts, worker.size);
      SentIsBehind(limit, calls, w, instance, worker.feed[at[j]]);
    }
  }

  lemma SentIsBehind(limit: nat, calls: seq<Runs.Action>, w: string, instance: nat, part: Assembler.TargetPart)
    requires Guarantees.RegistersFor(calls, w, instance) && Sent(limit, calls, w, part)
    ensures part.generation <= Guarantees.FloorAt(limit, calls, w, |calls|)
  {
    var t: nat :| SentAt(limit, calls, w, part, t);
    assert part.generation == Guarantees.FloorAt(limit, calls, w, t);
    Guarantees.FloorsInOrder(limit, calls, w, instance, t, |calls|);
  }

  /** The drain at position `n` of the Worker's record in the Controller's final state. */
  ghost predicate IsUnfinished(limit: nat, calls: seq<Runs.Action>, w: string, n: nat, d: Drain) {
    HasRecord(limit, calls, w, |calls|) && n < |RecordAt(limit, calls, w, |calls|).drains| && !d.completed
    && d == RecordAt(limit, calls, w, |calls|).drains[n]
  }

  /** An unfinished expert drain is of the Controller's placement, and names none of its targets. */
  lemma UnfinishedIsCurrent(limit: nat, calls: seq<Runs.Action>, w: string, instance: nat, n: nat, d: Drain)
    requires limit > 0 && Guarantees.RegistersFor(calls, w, instance) && IsUnfinished(limit, calls, w, n, d) && !d.stopAll
    ensures d.generation == Guarantees.FloorAt(limit, calls, w, |calls|) && d.experts !! PlanOf(limit, calls, w)(d.generation)
  {
    assert calls[..|calls|] == calls;
    Runs.ReachableDrains(limit, calls, w, n);
    NamedOnce(limit, calls, w, instance, |calls|);
  }

  lemma SessionIsPlanned(limit: nat, calls: seq<Runs.Action>, w: string, instance: nat, worker: Worker, actions: seq<Session.Action>, at: seq<nat>, m: nat)
    requires limit > 0 && Guarantees.RegistersFor(calls, w, instance) && Driven(limit, calls, w, worker, actions, at) && m <= |actions|
    ensures var s := Session.Run(worker.limits, actions[..m]);
            && Session.AllowedRun(worker.limits, PlanOf(limit, calls, w), actions[..m])
            && (s.generation > 0 ==> s.targets == PlanOf(limit, calls, w)(s.generation))
            && forall id :: id in s.active ==>
                 var a := s.active[id].authorization; a.stopAll || 0 < a.generation <= s.generation
  {
    var plan, s := PlanOf(limit, calls, w), Session.Run(worker.limits, actions[..m]);
    DrivenIsAllowed(limit, calls, w, instance, worker, actions, at, m);
    Session.RunOk(worker.limits, plan, actions[..m]);
    forall id | id in s.active ensures s.active[id].authorization.stopAll || 0 < s.active[id].authorization.generation <= s.generation {
      assert Session.DrainOk(s, plan, s.active[id]);
    }
  }

  /** The session is at the placement of every expert drain it has started, or at a later one. */
  lemma SessionReaches(limit: nat, calls: seq<Runs.Action>, w: string, instance: nat, worker: Worker, actions: seq<Session.Action>,
                       at: seq<nat>, k: nat, m: nat, id: nat)
    requires limit > 0 && Guarantees.RegistersFor(calls, w, instance) && Driven(limit, calls, w, worker, actions, at)
    requires k <= m <= |actions| && id in Session.Run(worker.limits, actions[..k]).active
    ensures var a := Session.Run(worker.limits, actions[..k]).active[id].authorization;
            a.stopAll || 0 < a.generation <= Session.Run(worker.limits, actions[..m]).generation
  {
    SessionIsPlanned(limit, calls, w, instance, worker, actions, at, k);
    SessionIsPlanned(limit, calls, w, instance, worker, actions, at, m);
    assert actions[..m][..k] == actions[..k];
    Session.PlacementGrows(worker.limits, PlanOf(limit, calls, w), actions[..m], k);
  }

  /** Step `k` of the session closes the gates of `a`. */
  ghost predicate ClosesGates(worker: Worker, actions: seq<Session.Action>, k: nat, a: Session.Authorization) {
    && k < |actions| && actions[k].OpenGate?
    && var before, id := Session.Run(worker.limits, actions[..k]), actions[k].id;
       && before.lock == Session.Free && Session.AtStage(before, id, Session.Starting)
       && before.active[id].authorization == a && !Session.IsSuperseded(before, a)
  }

  lemma GatedIsReached(limit: nat, calls: seq<Runs.Action>, w: string, instance: nat, worker: Worker, actions: seq<Session.Action>,
                       at: seq<nat>, k: nat, m: nat, a: Session.Authorization)
    requires limit > 0 && Guarantees.RegistersFor(calls, w, instance) && Driven(limit, calls, w, worker, actions, at)
    requires ClosesGates(worker, actions, k, a) && k <= m <= |actions| && !a.stopAll
    ensures 0 < a.generation <= Session.Run(worker.limits, actions[..m]).generation
  {
    SessionReaches(limit, calls, w, instance, worker, actions, at, k, m, actions[k].id);
  }

  lemma AtPlacementOf(s: Session.Session, plan: Session.Placements, d: Drain)
    requires 0 < d.generation == s.generation && s.targets == plan(s.generation) && d.experts !! plan(d.generation)
    ensures s.targets !! d.experts
  {
  }

  /** While the Controller has the drain unfinished, none of its experts is a target of the session. */
  lemma DrainedIsNoTarget(limit: nat, calls: seq<Runs.Action>, w: string, instance: nat, worker: Worker, actions: seq<Session.Action>,
                          at: seq<nat>, k: nat, n: nat, d: Drain, m: nat)
    requires limit > 0 && Guarantees.RegistersFor(calls, w, instance) && Driven(limit, calls, w, worker, actions, at)
    requires IsUnfinished(limit, calls, w, n, d) && !d.stopAll
    requires ClosesGates(worker, actions, k, AuthorizationOf(d)) && k <= m <= |actions|
    ensures Session.Run(worker.limits, actions[..m]).targets !! d.experts
  {
    var s := Session.Run(worker.limits, actions[..m]);
    assert 0 < d.generation == s.generation by {
      UnfinishedIsCurrent(limit, calls, w, instance, n, d);
      GatedIsReached(limit, calls, w, instance, worker, actions, at, k, m, AuthorizationOf(d));
      SessionIsBehind(limit, calls, w, instance, worker, actions, at, m);
    }
    assert s.targets == PlanOf(limit, calls, w)(s.generation) by {
      SessionIsPlanned(limit, calls, w, instance, worker, actions, at, m);
    }
    UnfinishedIsCurrent(limit, calls, w, instance, n, d);
    AtPlacementOf(s, PlanOf(limit, calls, w), d);
  }

  lemma ClosedIsHeld(worker: Worker, actions: seq<Session.Action>, k: nat, a: Session.Authorization)
    requires ClosesGates(worker, actions, k, a)
    ensures k < |actions| && Session.GateHeld(Session.Run(worker.limits, actions[..k + 1]).queue, a)
  {
    var before := Session.Run(worker.limits, actions[..k]);
    assert actions[..k + 1][..k] == actions[..k];
    assert Session.Run(worker.limits, actions[..k + 1]) == Session.Gate(before, actions[k].id);
    Session.GateIsHeld(before.queue, a);
  }

  /** From the step that closes them on, the gates of a drain stay closed as long as the Controller has
      the drain unfinished. */
  lemma GateStaysHeld(limit: nat, calls: seq<Runs.Action>, w: string, instance: nat, worker: Worker, actions: seq<Session.Action>,
                      at: seq<nat>, k: nat, n: nat, d: Drain)
    requires limit > 0 && Guarantees.RegistersFor(calls, w, instance) && Driven(limit, calls, w, worker, actions, at)
    requires IsUnfinished(limit, calls, w, n, d) && ClosesGates(worker, actions, k, AuthorizationOf(d))
    ensures Session.GateHeld(Session.Run(worker.limits, actions).queue, AuthorizationOf(d))
  {
    var a := AuthorizationOf(d);
    SessionIsPlanned(limit, calls, w, instance, worker, actions, at, |actions|);
    assert actions[..|actions|] == actions;
    ClosedIsHeld(worker, actions, k, a);
    if !a.stopAll {
      forall m | k + 1 <= m < |actions| ensures Session.Run(worker.limits, actions[..m]).targets !! a.experts {
        DrainedIsNoTarget(limit, calls, w, instance, worker, actions, at, k, n, d, m);
      }
    }
    Session.GateOutlives(worker.limits, PlanOf(limit, calls, w), actions, k + 1, a);
  }
}
