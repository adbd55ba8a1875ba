/** What every queue step keeps, and what the drain gates guarantee over any run. */
module QueueInvariant {
  import opened Topology
  import opened QueueState

  lemma PhaseCounts(entries: map<nat, Entry>, item: nat, entry: Entry)
    requires item !in entries
    ensures |InPhase(entries[item := entry], Active)| == |InPhase(entries, Active)| + if entry.phase == Active then 1 else 0
  {
    var after := entries[item := entry];
    if entry.phase == Active {
      assert InPhase(after, Active) == InPhase(entries, Active) + {item};
    } else {
      assert InPhase(after, Active) == InPhase(entries, Active);
    }
  }

  lemma PhaseDrop(entries: map<nat, Entry>, item: nat)
    requires item in entries
    ensures |InPhase(entries - {item}, Active)| == |InPhase(entries, Active)| - if entries[item].phase == Active then 1 else 0
  {
    assert entries == (entries - {item})[item := entries[item]];
    PhaseCounts(entries - {item}, item, entries[item]);
  }

  // ---------------------------------------------------------------- admission

  lemma AdmitCounters(q: Queue, limits: Limits, item: nat, layer: nat, experts: seq<nat>, bytes: nat)
    requires QueueOk(q, limits) && AdmitRefusal(q, limits, item, layer, experts, bytes).None?
    ensures CountersOk(Admit(q, limits, item, layer, experts, bytes))
  {
    var entry := Entry(layer, experts, bytes, Waiting);
    var next := Admit(q, limits, item, layer, experts, bytes);
    forall key ensures Count(next.admitted, key) == |Naming(next.entries, key)| { NamingPut(q.entries, item, entry, key); }
    PhaseCounts(q.entries, item, entry);
    BytesAppend(next.entries, q.waiting, item);
    BytesSame(q.entries, next.entries, q.waiting);
  }

  lemma AdmitKeepsOk(q: Queue, limits: Limits, item: nat, layer: nat, experts: seq<nat>, bytes: nat)
    requires QueueOk(q, limits)
    ensures QueueOk(Admit(q, limits, item, layer, experts, bytes), limits)
  {
    if AdmitRefusal(q, limits, item, layer, experts, bytes).None? {
      AdmitCounters(q, limits, item, layer, experts, bytes);
      var next := Admit(q, limits, item, layer, experts, bytes);
      assert item !in q.waiting;
      assert forall x :: x in next.waiting <==> x in q.waiting || x == item;
    }
  }

  // ---------------------------------------------------------------- execution

  lemma FirstWaits(q: Queue)
    requires WaitingOk(q) && q.waiting != []
    ensures IsIn(q, q.waiting[0], Waiting)
  {
    assert q.waiting[0] in q.waiting;
  }

  lemma TakeCounters(q: Queue, limits: Limits)
    requires QueueOk(q, limits) && q.waiting != []
    ensures CountersOk(Take(q))
  {
    FirstWaits(q);
    var next, item := Take(q), q.waiting[0];
    var entry := q.entries[item];
    forall key ensures Count(next.admitted, key) == |Naming(next.entries, key)| { NamingPhase(q.entries, item, Active, key); }
    PhaseDrop(q.entries, item);
    PhaseCounts(q.entries - {item}, item, entry.(phase := Active));
    assert next.entries == (q.entries - {item})[item := entry.(phase := Active)];
    assert forall x :: x in q.waiting[1..] ==> x in q.waiting;
    BytesSame(q.entries, next.entries, q.waiting[1..]);
  }

  lemma TakeWaiting(q: Queue)
    requires WaitingOk(q) && q.waiting != []
    ensures WaitingOk(Take(q))
  {
    FirstWaits(q);
    assert q.waiting == [q.waiting[0]] + q.waiting[1..];
    assert q.waiting[0] !in q.waiting[1..];
    forall item ensures item in q.waiting[1..] <==> IsIn(Take(q), item, Waiting) {
      assert item in q.waiting <==> item == q.waiting[0] || item in q.waiting[1..];
    }
  }

  lemma TakeKeepsOk(q: Queue, limits: Limits)
    requires QueueOk(q, limits)
    ensures QueueOk(Take(q), limits)
  {
    if q.waiting != [] {
      TakeCounters(q, limits);
      TakeWaiting(q);
    }
  }

  // ---------------------------------------------------------------- leaving

  /** Removing one admitted batch releases exactly its experts. */
  lemma LeaveCounts(q: Queue, item: nat)
    requires CountersOk(q) && item in q.entries
    ensures forall key :: Count(Release(q.admitted, EntryKeys(q.entries[item])), key) == |Naming(q.entries - {item}, key)|
    ensures forall key :: key in Release(q.admitted, EntryKeys(q.entries[item])) ==>
                            Release(q.admitted, EntryKeys(q.entries[item]))[key] > 0
  {
    var keys := EntryKeys(q.entries[item]);
    forall key
      ensures Count(Release(q.admitted, keys), key) == |Naming(q.entries - {item}, key)|
      ensures key in Release(q.admitted, keys) ==> Release(q.admitted, keys)[key] > 0
    {
      NamingDrop(q.entries, item, key);
      if key in keys { assert item in Naming(q.entries, key); }
      ReleaseCounts(q.admitted, keys, key);
    }
  }

  lemma CancelKeepsOk(q: Queue, limits: Limits, item: nat)
    requires QueueOk(q, limits)
    ensures QueueOk(CancelWaiting(q, item), limits)
  {
    if IsIn(q, item, Waiting) {
      var next := CancelWaiting(q, item);
      LeaveCounts(q, item);
      PhaseDrop(q.entries, item);
      WithoutIs(q.waiting, item);
      BytesWithout(q.entries, q.waiting, item);
      BytesSame(q.entries, next.entries, next.waiting);
    }
  }

  lemma FinishKeepsOk(q: Queue, limits: Limits, item: nat)
    requires QueueOk(q, limits)
    ensures QueueOk(Finish(q, item), limits)
  {
    if IsIn(q, item, Active) {
      var next := Finish(q, item);
      LeaveCounts(q, item);
      PhaseDrop(q.entries, item);
      assert item in InPhase(q.entries, Active);
      BytesSame(q.entries, next.entries, q.waiting);
    }
  }

  /** While waiting batches are thrown away, the counters follow. */
  ghost predicate Discarding(q: Queue, d: Queue, n: nat)
    requires n <= |q.waiting|
  {
    && (forall key :: Count(d.admitted, key) == |Naming(d.entries, key)|)
    && (forall key :: key in d.admitted ==> d.admitted[key] > 0)
    && d.activeCount == |InPhase(d.entries, Active)|
    && (forall item :: item in d.entries <==> item in q.entries && item !in q.waiting[..n])
    && (forall item :: item in d.entries ==> d.entries[item] == q.entries[item])
    && d.gates == q.gates && d.stopAll == q.stopAll && d.activeCount == q.activeCount
  }

  lemma {:induction false} DiscardFollows(q: Queue, n: nat)
    requires WaitingOk(q) && CountersOk(q) && n <= |q.waiting|
    ensures Discarding(q, Discard(q, n), n)
  {
    if n > 0 {
      DiscardFollows(q, n - 1);
      var before, item := Discard(q, n - 1), q.waiting[n - 1];
      assert q.waiting[..n] == q.waiting[..n - 1] + [item];
      assert item in q.waiting && item !in q.waiting[..n - 1];
      DiscardOne(before, item);
    }
  }

  lemma DiscardOne(d: Queue, item: nat)
    requires (forall key :: Count(d.admitted, key) == |Naming(d.entries, key)|) && (forall key :: key in d.admitted ==> d.admitted[key] > 0)
    requires d.activeCount == |InPhase(d.entries, Active)| && IsIn(d, item, Waiting)
    ensures var admitted := Release(d.admitted, EntryKeys(d.entries[item]));
            && (forall key :: Count(admitted, key) == |Naming(d.entries - {item}, key)|)
            && (forall key :: key in admitted ==> admitted[key] > 0)
    ensures d.activeCount == |InPhase(d.entries - {item}, Active)|
  {
    LeaveCounts(d.(waiting := [], retained := 0), item);
    PhaseDrop(d.entries, item);
  }

  lemma CloseKeepsOk(q: Queue, limits: Limits)
    requires QueueOk(q, limits)
    ensures QueueOk(BeginClose(q), limits)
  {
    if !q.closing {
      DiscardFollows(q, |q.waiting|);
      assert q.waiting[..|q.waiting|] == q.waiting;
    }
  }

  // ---------------------------------------------------------------- runs

  datatype QueueAction =
    | DoAdmit(item: nat, layer: nat, experts: seq<nat>, bytes: nat)
    | DoTake
    | DoCancel(item: nat)
    | DoFinish(item: nat)
    | DoBeginDrain(keys: set<ExpertKey>, version: nat, stopAll: bool)
    | DoClear(keys: set<ExpertKey>)
    | DoClose

  function QueueStep(q: Queue, limits: Limits, a: QueueAction): Queue {
    match a
    case DoAdmit(item, layer, experts, bytes) => Admit(q, limits, item, layer, experts, bytes)
    case DoTake => Take(q)
    case DoCancel(item) => CancelWaiting(q, item)
    case DoFinish(item) => Finish(q, item)
    case DoBeginDrain(keys, version, stopAll) => BeginDrain(q, keys, version, stopAll)
    case DoClear(keys) => ClearDrains(q, keys)
    case DoClose => BeginClose(q)
  }

  lemma QueueStepKeepsOk(q: Queue, limits: Limits, a: QueueAction)
    requires QueueOk(q, limits)
    ensures QueueOk(QueueStep(q, limits, a), limits)
  {
    match a
    case DoAdmit(item, layer, experts, bytes) => AdmitKeepsOk(q, limits, item, layer, experts, bytes);
    case DoTake => TakeKeepsOk(q, limits);
    case DoCancel(item) => CancelKeepsOk(q, limits, item);
    case DoFinish(item) => FinishKeepsOk(q, limits, item);
    case DoBeginDrain(keys, version, stopAll) =>
    case DoClear(keys) =>
    case DoClose => CloseKeepsOk(q, limits);
  }

  function QueueRun(q: Queue, limits: Limits, actions: seq<QueueAction>): Queue {
    if actions == [] then q else QueueStep(QueueRun(q, limits, actions[..|actions| - 1]), limits, actions[|actions| - 1])
  }

  /** In every reachable queue the counters are counts over the admitted batches, within the limits. */
  lemma {:induction false} QueueRunOk(limits: Limits, actions: seq<QueueAction>)
    ensures QueueOk(QueueRun(EmptyQueue, limits, actions), limits)
    decreases |actions|
  {
    if actions == [] {
      EmptyQueueOk(limits);
    } else {
      QueueRunOk(limits, actions[..|actions| - 1]);
      QueueStepKeepsOk(QueueRun(EmptyQueue, limits, actions[..|actions| - 1]), limits, actions[|actions| - 1]);
    }
  }

  // ---------------------------------------------------------------- gates

  /** A batch that names a gated expert, or any batch under a whole-Worker stop, meets a gate. */
  lemma {:induction false} GateBlocks(q: Queue, layer: nat, experts: seq<nat>, n: nat)
    requires n <= |experts|
    requires q.stopAll.Some? || exists i :: 0 <= i < n && ExpertKey(layer, experts[i]) in q.gates
    ensures GateOf(q, layer, experts, n).Some?
  {
    if n > 0 && ExpertKey(layer, experts[n - 1]) !in q.gates { GateBlocks(q, layer, experts, n - 1); }
  }

  /** Conversely, only a gate refuses a batch as draining, and the version asked for is the highest of its gates. */
  lemma {:induction false} GateIsHighest(q: Queue, layer: nat, experts: seq<nat>, n: nat)
    requires n <= |experts| && GateOf(q, layer, experts, n).Some?
    ensures var version := GateOf(q, layer, experts, n).value;
            && (q.stopAll.Some? ==> q.stopAll.value <= version)
            && (forall i :: 0 <= i < n && ExpertKey(layer, experts[i]) in q.gates ==> q.gates[ExpertKey(layer, experts[i])] <= version)
            && (q.stopAll == Some(version) ||
                exists i :: 0 <= i < n && ExpertKey(layer, experts[i]) in q.gates && q.gates[ExpertKey(layer, experts[i])] == version)
  {
    if n > 0 {
      if GateOf(q, layer, experts, n - 1).Some? {
        GateIsHighest(q, layer, experts, n - 1);
      } else if q.stopAll.Some? || exists i :: 0 <= i < n - 1 && ExpertKey(layer, experts[i]) in q.gates {
        GateBlocks(q, layer, experts, n - 1);
      }
    }
  }

  lemma {:induction false} DiscardReleases(q: Queue, n: nat, key: ExpertKey)
    requires n <= |q.waiting|
    ensures Count(Discard(q, n).admitted, key) <= Count(q.admitted, key)
    ensures Discard(q, n).gates == q.gates && Discard(q, n).stopAll == q.stopAll
  {
    if n > 0 { DiscardReleases(q, n - 1, key); }
  }

  predicate Clears(a: QueueAction, key: ExpertKey) { a.DoClear? && key in a.keys }

  ghost predicate GatedIdle(q: Queue, key: ExpertKey) { key in q.gates && Count(q.admitted, key) == 0 }

  lemma GateStep(q: Queue, limits: Limits, a: QueueAction, key: ExpertKey)
    requires GatedIdle(q, key) && !Clears(a, key)
    ensures GatedIdle(QueueStep(q, limits, a), key)
  {
    match a
    case DoAdmit(item, layer, experts, bytes) =>
      if key in KeysOf(layer, experts) {
        var i :| 0 <= i < |experts| && experts[i] == key.expert;
        GateBlocks(q, layer, experts, |experts|);
      }
    case DoClose => DiscardReleases(q, |q.waiting|, key);
    case _ =>
  }

  /** Once a gated expert is idle it stays idle until its gate is cleared, whatever else happens. */
  lemma {:induction false} GateHolds(q: Queue, limits: Limits, actions: seq<QueueAction>, key: ExpertKey)
    requires GatedIdle(q, key) && forall i :: 0 <= i < |actions| ==> !Clears(actions[i], key)
    ensures GatedIdle(QueueRun(q, limits, actions), key)
    decreases |actions|
  {
    if actions != [] {
      GateHolds(q, limits, actions[..|actions| - 1], key);
      GateStep(QueueRun(q, limits, actions[..|actions| - 1]), limits, actions[|actions| - 1], key);
    }
  }

  ghost predicate StoppedIdle(q: Queue) { q.stopAll.Some? && q.entries == map[] && AllIdle(q) }

  lemma StopStep(q: Queue, limits: Limits, a: QueueAction)
    requires StoppedIdle(q)
    ensures StoppedIdle(QueueStep(q, limits, a))
  {
    match a
    case DoAdmit(item, layer, experts, bytes) => GateBlocks(q, layer, experts, |experts|);
    case _ =>
  }

  /** Once a stopped queue is empty it stays empty for good. */
  lemma {:induction false} StopHolds(q: Queue, limits: Limits, actions: seq<QueueAction>)
    requires StoppedIdle(q)
    ensures StoppedIdle(QueueRun(q, limits, actions))
    decreases |actions|
  {
    if actions != [] {
      StopHolds(q, limits, actions[..|actions| - 1]);
      StopStep(QueueRun(q, limits, actions[..|actions| - 1]), limits, actions[|actions| - 1]);
    }
  }

  /** Idle counters mean no admitted batch names the expert; an idle queue means no batch at all. */
  lemma IdleMeansUnused(q: Queue, limits: Limits)
    requires QueueOk(q, limits)
    ensures forall key, item :: Count(q.admitted, key) == 0 && item in q.entries ==> key !in EntryKeys(q.entries[item])
    ensures AllIdle(q) ==> q.entries == map[]
  {
    forall key, item | Count(q.admitted, key) == 0 && item in q.entries ensures key !in EntryKeys(q.entries[item]) {
      assert key in EntryKeys(q.entries[item]) ==> item in Naming(q.entries, key);
    }
    if AllIdle(q) {
      forall item ensures item !in q.entries {
        assert item in q.entries ==> IsIn(q, item, Waiting) || item in InPhase(q.entries, Active);
      }
    }
  }
}
