/** What every section of the receiver queue does, said on its batches, gates and limits alone. */
module QueueEffects {
  import opened Topology
  import opened QueueState
  import opened QueueInvariant

  // ---------------------------------------------------------------- admission

  /** Nothing stands in the way of the batch: no stop, and no gate at one of its experts. */
  ghost predicate Ungated(q: Queue, layer: nat, experts: seq<nat>) {
    q.stopAll == None && forall i :: 0 <= i < |experts| ==> ExpertKey(layer, experts[i]) !in q.gates
  }

  ghost predicate HasRoom(q: Queue, limits: Limits, bytes: nat) {
    |q.waiting| < limits.maxPending && q.retained + bytes <= limits.maxBytes
  }

  lemma {:induction false} NoGate(q: Queue, layer: nat, experts: seq<nat>, n: nat)
    requires n <= |experts| && q.stopAll == None && forall i :: 0 <= i < n ==> ExpertKey(layer, experts[i]) !in q.gates
    ensures GateOf(q, layer, experts, n) == None
  {
    if n > 0 { NoGate(q, layer, experts, n - 1); }
  }

  lemma GateExists(q: Queue, layer: nat, experts: seq<nat>)
    ensures GateOf(q, layer, experts, |experts|).None? <==> Ungated(q, layer, experts)
  {
    if Ungated(q, layer, experts) {
      NoGate(q, layer, experts, |experts|);
    } else {
      GateBlocks(q, layer, experts, |experts|);
    }
  }

  /** A batch is admitted exactly when the queue is open, does not hold it, no gate names it and it fits;
      otherwise the first of these that fails is the answer. */
  lemma AdmissionExact(q: Queue, limits: Limits, item: nat, layer: nat, experts: seq<nat>, bytes: nat)
    ensures var refusal := AdmitRefusal(q, limits, item, layer, experts, bytes);
            && (refusal == None <==> !q.closing && item !in q.entries && Ungated(q, layer, experts) && HasRoom(q, limits, bytes))
            && (refusal == Some(Closing) <==> q.closing)
            && (refusal == Some(AlreadyAdmitted) <==> !q.closing && item in q.entries)
            && ((exists v :: refusal == Some(Draining(v))) <==> !q.closing && item !in q.entries && !Ungated(q, layer, experts))
            && (refusal == Some(Busy) <==>
                  !q.closing && item !in q.entries && Ungated(q, layer, experts) && !HasRoom(q, limits, bytes))
  {
    GateExists(q, layer, experts);
  }

  /** An admitted batch waits at the end of the line, a refused one leaves no trace. */
  lemma AdmitDoes(q: Queue, limits: Limits, item: nat, layer: nat, experts: seq<nat>, bytes: nat)
    requires QueueOk(q, limits)
    ensures var after := Admit(q, limits, item, layer, experts, bytes);
            if q.closing || item in q.entries || !Ungated(q, layer, experts) || !HasRoom(q, limits, bytes) then after == q
            else
              && after.waiting == q.waiting + [item] && after.entries == q.entries[item := Entry(layer, experts, bytes, Waiting)]
              && after.gates == q.gates && after.stopAll == q.stopAll && after.closing == q.closing && QueueOk(after, limits)
  {
    AdmissionExact(q, limits, item, layer, experts, bytes);
    AdmitKeepsOk(q, limits, item, layer, experts, bytes);
  }

  // ---------------------------------------------------------------- ownership

  /** Gates, stop and closing are as before. */
  ghost predicate SameGates(q: Queue, after: Queue) {
    after.gates == q.gates && after.stopAll == q.stopAll && after.closing == q.closing
  }

  /** The oldest waiting batch goes to execution, alone. */
  lemma TakeDoes(q: Queue, limits: Limits)
    requires QueueOk(q, limits)
    ensures if q.waiting == [] then Take(q) == q
            else
              && SameGates(q, Take(q)) && q.waiting == [q.waiting[0]] + Take(q).waiting && q.waiting[0] in q.entries
              && Take(q).entries == q.entries[q.waiting[0] := q.entries[q.waiting[0]].(phase := Active)]
  {
    if q.waiting != [] {
      FirstWaits(q);
      assert q.waiting == [q.waiting[0]] + q.waiting[1..];
    }
  }

  lemma {:induction false} WithoutAt(waiting: seq<nat>, item: nat) returns (k: nat)
    requires item in waiting
    ensures k < |waiting| && waiting[k] == item && Without(waiting, item) == waiting[..k] + waiting[k + 1..]
    decreases |waiting|
  {
    if waiting[0] == item {
      k := 0;
    } else {
      assert waiting == [waiting[0]] + waiting[1..];
      var j := WithoutAt(waiting[1..], item);
      k := j + 1;
      assert waiting[..k] + waiting[k + 1..] == [waiting[0]] + (waiting[1..][..j] + waiting[1..][j + 1..]);
    }
  }

  /** Only a waiting batch can be cancelled; it leaves the line, and the others keep their places. */
  lemma CancelDoes(q: Queue, limits: Limits, item: nat) returns (k: nat)
    requires QueueOk(q, limits)
    ensures if !IsIn(q, item, Waiting) then CancelWaiting(q, item) == q
            else
              && SameGates(q, CancelWaiting(q, item)) && CancelWaiting(q, item).entries == q.entries - {item}
              && k < |q.waiting| && q.waiting[k] == item && CancelWaiting(q, item).waiting == q.waiting[..k] + q.waiting[k + 1..]
  {
    k := 0;
    if IsIn(q, item, Waiting) {
      assert item in q.waiting;
      k := WithoutAt(q.waiting, item);
    }
  }

  /** Only an active batch can finish; the line stays as it is. */
  lemma FinishDoes(q: Queue, item: nat)
    ensures if !IsIn(q, item, Active) then Finish(q, item) == q
            else SameGates(q, Finish(q, item)) && Finish(q, item).entries == q.entries - {item} && Finish(q, item).waiting == q.waiting
  {
  }

  /** Closing throws away exactly the waiting batches, for good. */
  lemma CloseDoes(q: Queue, limits: Limits)
    requires QueueOk(q, limits)
    ensures var after := BeginClose(q);
            if q.closing then after == q
            else
              && after.closing && after.waiting == [] && after.gates == q.gates && after.stopAll == q.stopAll
              && (forall item :: item in after.entries <==> IsIn(q, item, Active))
              && (forall item :: item in after.entries ==> after.entries[item] == q.entries[item])
  {
    if !q.closing {
      DiscardFollows(q, |q.waiting|);
      assert q.waiting[..|q.waiting|] == q.waiting;
      forall item ensures item in BeginClose(q).entries <==> IsIn(q, item, Active) {
        assert item in q.waiting <==> IsIn(q, item, Waiting);
      }
    }
  }

  // ---------------------------------------------------------------- gates

  /** A drain closes the gates of its experts, and the whole queue if it stops everything, with its
      version or a later one that was there; no batch is touched. */
  lemma BeginDrainDoes(q: Queue, keys: set<ExpertKey>, version: nat, stopAll: bool)
    ensures var after := BeginDrain(q, keys, version, stopAll);
            && after == q.(gates := after.gates, stopAll := after.stopAll)
            && (forall key :: key in after.gates <==> key in q.gates || key in keys)
            && (forall key :: key in keys ==>
                  && after.gates[key] >= version && (key in q.gates ==> after.gates[key] >= q.gates[key])
                  && (after.gates[key] == version || (key in q.gates && after.gates[key] == q.gates[key])))
            && (forall key :: key in q.gates && key !in keys ==> after.gates[key] == q.gates[key])
            && (!stopAll ==> after.stopAll == q.stopAll)
            && (stopAll ==> after.stopAll.Some? && after.stopAll.value >= version
                            && (q.stopAll.Some? ==> after.stopAll.value >= q.stopAll.value)
                            && (after.stopAll.value == version || after.stopAll == q.stopAll))
  {
  }

  /** Clearing opens exactly the named gates. */
  lemma ClearDrainsDoes(q: Queue, keys: set<ExpertKey>)
    ensures var after := ClearDrains(q, keys);
            && after == q.(gates := after.gates)
            && (forall key :: key in after.gates <==> key in q.gates && key !in keys)
            && (forall key :: key in after.gates ==> after.gates[key] == q.gates[key])
  {
  }

  // ---------------------------------------------------------------- first come, first served

  /** `i` stands before `j` in the line. */
  ghost predicate Before(q: Queue, i: nat, j: nat) {
    exists a, b :: 0 <= a < b < |q.waiting| && q.waiting[a] == i && q.waiting[b] == j
  }

  /** `j` has not overtaken `i`: it is not there, or stands behind. */
  ghost predicate NotAhead(q: Queue, i: nat, j: nat) {
    j !in q.entries || Before(q, i, j)
  }

  lemma AdmitKeepsOrder(q: Queue, limits: Limits, i: nat, j: nat, item: nat, layer: nat, experts: seq<nat>, bytes: nat)
    requires QueueOk(q, limits) && i in q.waiting && NotAhead(q, i, j)
    ensures NotAhead(Admit(q, limits, item, layer, experts, bytes), i, j)
  {
    var after := Admit(q, limits, item, layer, experts, bytes);
    AdmitDoes(q, limits, item, layer, experts, bytes);
    if after != q {
      if j in q.entries {
        var a, b :| 0 <= a < b < |q.waiting| && q.waiting[a] == i && q.waiting[b] == j;
        assert after.waiting[a] == i && after.waiting[b] == j;
      } else if item == j {
        var a :| 0 <= a < |q.waiting| && q.waiting[a] == i;
        assert after.waiting[a] == i && after.waiting[|q.waiting|] == j;
      }
    }
  }

  lemma TakeKeepsOrder(q: Queue, limits: Limits, i: nat, j: nat)
    requires QueueOk(q, limits) && i in q.waiting && i in Take(q).waiting && NotAhead(q, i, j) && i != j
    ensures NotAhead(Take(q), i, j)
  {
    TakeDoes(q, limits);
    var after := Take(q);
    if j in after.entries && q.waiting != [] {
      var a, b :| 0 <= a < b < |q.waiting| && q.waiting[a] == i && q.waiting[b] == j;
      assert q.waiting[0] != i by {
        var c :| 0 <= c < |after.waiting| && after.waiting[c] == i;
        assert q.waiting[c + 1] == i;
      }
      assert after.waiting[a - 1] == i && after.waiting[b - 1] == j;
    }
  }

  lemma CancelKeepsOrder(q: Queue, limits: Limits, i: nat, j: nat, item: nat)
    requires QueueOk(q, limits) && i in q.waiting && i in CancelWaiting(q, item).waiting && NotAhead(q, i, j) && i != j
    ensures NotAhead(CancelWaiting(q, item), i, j)
  {
    var k := CancelDoes(q, limits, item);
    var after := CancelWaiting(q, item);
    if j in after.entries && after != q {
      var a, b :| 0 <= a < b < |q.waiting| && q.waiting[a] == i && q.waiting[b] == j;
      assert item != j;
      assert item != i by {
        CancelKeepsOk(q, limits, item);
        assert i in after.entries;
      }
      assert after.waiting[if a < k then a else a - 1] == i && after.waiting[if b < k then b else b - 1] == j;
    }
  }

  lemma StepKeepsOrder(q: Queue, limits: Limits, a: QueueAction, i: nat, j: nat)
    requires QueueOk(q, limits) && i in q.waiting && i in QueueStep(q, limits, a).waiting && NotAhead(q, i, j) && i != j
    ensures NotAhead(QueueStep(q, limits, a), i, j)
  {
    match a
    case DoAdmit(item, layer, experts, bytes) => AdmitKeepsOrder(q, limits, i, j, item, layer, experts, bytes);
    case DoTake => TakeKeepsOrder(q, limits, i, j);
    case DoCancel(item) => CancelKeepsOrder(q, limits, i, j, item);
    case DoFinish(item) => FinishDoes(q, item);
    case DoBeginDrain(keys, version, stopAll) =>
    case DoClear(keys) =>
    case DoClose => CloseDoes(q, limits);
  }

  /** First come, first served: a batch behind another in line never goes to execution while that one waits. */
  lemma {:induction false} FirstComeFirstServed(q: Queue, limits: Limits, actions: seq<QueueAction>, i: nat, j: nat)
    requires QueueOk(q, limits) && i != j && NotAhead(q, i, j)
    requires forall n :: 0 <= n <= |actions| ==> i in QueueRun(q, limits, actions[..n]).waiting
    ensures QueueOk(QueueRun(q, limits, actions), limits) && NotAhead(QueueRun(q, limits, actions), i, j)
    ensures !IsIn(QueueRun(q, limits, actions), j, Active)
    decreases |actions|
  {
    var after := QueueRun(q, limits, actions);
    assert actions[..|actions|] == actions;
    if actions == [] {
      assert actions[..0] == [];
    } else {
      var front := actions[..|actions| - 1];
      forall n | 0 <= n <= |front| ensures i in QueueRun(q, limits, front[..n]).waiting { assert front[..n] == actions[..n]; }
      FirstComeFirstServed(q, limits, front, i, j);
      var before := QueueRun(q, limits, front);
      assert front[..|front|] == front;
      QueueStepKeepsOk(before, limits, actions[|actions| - 1]);
      StepKeepsOrder(before, limits, actions[|actions| - 1], i, j);
    }
    if Before(after, i, j) {
      var a, b :| 0 <= a < b < |after.waiting| && after.waiting[a] == i && after.waiting[b] == j;
      assert j in after.waiting;
    }
  }
}
