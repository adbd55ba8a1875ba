/** The queue object of a Worker receiver; every method is one section under its condition lock. */
module ReceiverQueueObject {
  import opened Topology
  import opened QueueState
  import opened QueueInvariant

  /** The experts of one batch, each once, as constructing a batch enforces. */
  ghost predicate NoRepeats(experts: seq<nat>) {
    forall i, j :: 0 <= i < j < |experts| ==> experts[i] != experts[j]
  }

  function KeySet(keys: seq<ExpertKey>): set<ExpertKey> { set key | key in keys }

  lemma RaiseOneMore(gates: map<ExpertKey, nat>, keys: seq<ExpertKey>, n: nat, version: nat)
    requires n < |keys|
    ensures var before := RaiseGates(gates, KeySet(keys[..n]), version);
            var current := if keys[n] in before then before[keys[n]] else 0;
            RaiseGates(gates, KeySet(keys[..n + 1]), version) == before[keys[n] := if current >= version then current else version]
  {
    assert keys[..n + 1] == keys[..n] + [keys[n]];
    assert KeySet(keys[..n + 1]) == KeySet(keys[..n]) + {keys[n]};
  }

  class ReceiverQueue {
    const limits: Limits
    var waiting: seq<nat>
    var entries: map<nat, Entry>
    var retained: nat
    var activeCount: nat
    var admitted: map<ExpertKey, nat>
    var gates: map<ExpertKey, nat>
    var stopAll: Option<nat>
    var closing: bool

    function View(): Queue reads this {
      Queue(waiting, entries, retained, activeCount, admitted, gates, stopAll, closing)
    }

    ghost predicate Valid() reads this {
      QueueOk(View(), limits) && forall item :: item in entries ==> NoRepeats(entries[item].experts)
    }

    constructor (maxPending: nat, maxBytes: nat)
      requires maxPending > 0
      ensures Valid() && View() == EmptyQueue && limits == Limits(maxPending, maxBytes)
    {
      limits := Limits(maxPending, maxBytes);
      waiting, entries, retained, activeCount := [], map[], 0, 0;
      admitted, gates, stopAll, closing := map[], map[], None, false;
      new;
      EmptyQueueOk(limits);
    }

    method DrainGate(layer: nat, experts: seq<nat>) returns (gate: Option<nat>)
      ensures gate == GateOf(View(), layer, experts, |experts|)
    {
      gate := stopAll;
      for n := 0 to |experts|
        invariant gate == GateOf(View(), layer, experts, n)
      {
        var key := ExpertKey(layer, experts[n]);
        if key in gates { gate := Later(gate, gates[key]); }
      }
    }

    method AddExperts(layer: nat, experts: seq<nat>)
      requires NoRepeats(experts)
      modifies this`admitted
      ensures admitted == Bump(old(admitted), KeysOf(layer, experts))
    {
      for n := 0 to |experts|
        invariant admitted == Bump(old(admitted), KeysOf(layer, experts[..n]))
      {
        assert experts[..n + 1] == experts[..n] + [experts[n]];
        assert experts[n] !in experts[..n];
        var key := ExpertKey(layer, experts[n]);
        admitted := admitted[key := Count(admitted, key) + 1];
      }
      assert experts[..|experts|] == experts;
    }

    method ReleaseExperts(layer: nat, experts: seq<nat>)
      requires NoRepeats(experts) && forall key :: key in admitted ==> admitted[key] > 0
      requires forall key :: key in KeysOf(layer, experts) ==> key in admitted
      modifies this`admitted
      ensures admitted == Release(old(admitted), KeysOf(layer, experts))
    {
      ghost var before := admitted;
      for n := 0 to |experts|
        invariant admitted == Release(before, KeysOf(layer, experts[..n]))
      {
        assert experts[..n + 1] == experts[..n] + [experts[n]];
        assert experts[n] !in experts[..n];
        var key := ExpertKey(layer, experts[n]);
        assert key in KeysOf(layer, experts);
        admitted := admitted[key := admitted[key] - 1];
        if admitted[key] == 0 { admitted := admitted - {key}; }
      }
      assert experts[..|experts|] == experts;
    }

    method AdmitBatch(item: nat, layer: nat, experts: seq<nat>, bytes: nat) returns (refusal: Option<Refusal>)
      requires Valid() && NoRepeats(experts)
      modifies this
      ensures Valid() && refusal == AdmitRefusal(old(View()), limits, item, layer, experts, bytes)
      ensures View() == Admit(old(View()), limits, item, layer, experts, bytes)
    {
      AdmitKeepsOk(View(), limits, item, layer, experts, bytes);
      refusal := DoAdmit(item, layer, experts, bytes);
    }

    method DoAdmit(item: nat, layer: nat, experts: seq<nat>, bytes: nat) returns (refusal: Option<Refusal>)
      requires NoRepeats(experts)
      modifies this
      ensures refusal == AdmitRefusal(old(View()), limits, item, layer, experts, bytes)
      ensures View() == Admit(old(View()), limits, item, layer, experts, bytes)
    {
      if closing { return Some(Closing); }
      if item in entries { return Some(AlreadyAdmitted); }
      var gate := DrainGate(layer, experts);
      if gate.Some? { return Some(Draining(gate.value)); }
      if |waiting| >= limits.maxPending || retained + bytes > limits.maxBytes { return Some(Busy); }
      waiting := waiting + [item];
      entries := entries[item := Entry(layer, experts, bytes, Waiting)];
      retained := retained + bytes;
      AddExperts(layer, experts);
      return None;
    }

    /** A caller is woken only when a batch waits or the queue closes. */
    method TakeBatch() returns (item: Option<nat>)
      requires Valid()
      modifies this
      ensures Valid() && View() == Take(old(View()))
      ensures item == if old(waiting) == [] then None else Some(old(waiting)[0])
    {
      TakeKeepsOk(View(), limits);
      if waiting == [] { return None; }
      FirstWaits(View());
      var first := waiting[0];
      var entry := entries[first];
      waiting, retained := waiting[1..], retained - entry.bytes;
      entries, activeCount := entries[first := entry.(phase := Active)], activeCount + 1;
      return Some(first);
    }

    /** Every expert of an admitted batch has a counter to release. */
    lemma Countable(item: nat)
      requires Valid() && item in entries
      ensures forall key :: key in EntryKeys(entries[item]) ==> key in admitted
    {
      forall key | key in EntryKeys(entries[item]) ensures key in admitted {
        assert item in Naming(entries, key);
        assert Count(admitted, key) == |Naming(entries, key)|;
      }
    }

    method CancelBatch(item: nat) returns (removed: bool)
      requires Valid()
      modifies this
      ensures Valid() && View() == CancelWaiting(old(View()), item) && removed == IsIn(old(View()), item, Waiting)
    {
      CancelKeepsOk(View(), limits, item);
      if item !in entries || entries[item].phase != Waiting { return false; }
      Countable(item);
      BytesWithout(entries, waiting, item);
      var entry := entries[item];
      waiting, retained := Without(waiting, item), retained - entry.bytes;
      entries := entries - {item};
      ReleaseExperts(entry.layer, entry.experts);
      return true;
    }

    method FinishBatch(item: nat) returns (refusal: Option<Refusal>)
      requires Valid()
      modifies this
      ensures Valid() && View() == Finish(old(View()), item)
      ensures refusal == if IsIn(old(View()), item, Active) then None else Some(NotActive)
    {
      FinishKeepsOk(View(), limits, item);
      if item !in entries || entries[item].phase != Active { return Some(NotActive); }
      Countable(item);
      assert item in InPhase(entries, Active);
      var entry := entries[item];
      entries, activeCount := entries - {item}, activeCount - 1;
      ReleaseExperts(entry.layer, entry.experts);
      return None;
    }

    method BeginDrainOf(keys: seq<ExpertKey>, version: nat, stop: bool)
      requires Valid() && (keys != [] || stop)
      modifies this
      ensures Valid() && View() == BeginDrain(old(View()), KeySet(keys), version, stop)
    {
      RaiseAll(keys, version);
      if stop { stopAll := Later(stopAll, version); }
    }

    method RaiseAll(keys: seq<ExpertKey>, version: nat)
      modifies this`gates
      ensures gates == RaiseGates(old(gates), KeySet(keys), version)
    {
      ghost var before := gates;
      for n := 0 to |keys|
        invariant gates == RaiseGates(before, KeySet(keys[..n]), version)
      {
        RaiseOneMore(before, keys, n, version);
        var current := if keys[n] in gates then gates[keys[n]] else 0;
        gates := gates[keys[n] := if current >= version then current else version];
      }
      assert keys[..|keys|] == keys;
    }

    method ClearExpertDrains(keys: seq<ExpertKey>)
      requires Valid()
      modifies this
      ensures Valid() && View() == ClearDrains(old(View()), KeySet(keys))
    {
      for n := 0 to |keys|
        invariant gates == old(gates) - KeySet(keys[..n])
        invariant View() == old(View()).(gates := gates)
      {
        assert keys[..n + 1] == keys[..n] + [keys[n]];
        gates := gates - {keys[n]};
      }
      assert keys[..|keys|] == keys;
    }

    /** Throw away one waiting batch. */
    method DiscardNext(ghost before: Queue, n: nat)
      requires WaitingOk(before) && CountersOk(before) && n < |before.waiting| && View() == Discard(before, n) && waiting == before.waiting
      requires forall item :: item in before.entries ==> NoRepeats(before.entries[item].experts)
      modifies this`entries, this`admitted
      ensures View() == Discard(before, n + 1)
    {
      DiscardFollows(before, n);
      var item := waiting[n];
      assert item in before.waiting && item !in before.waiting[..n];
      var entry := entries[item];
      forall key | key in EntryKeys(entry) ensures key in admitted {
        assert item in Naming(entries, key);
        assert Count(admitted, key) == |Naming(entries, key)|;
      }
      entries := entries - {item};
      ReleaseExperts(entry.layer, entry.experts);
    }

    /** Stop admission and hand back the waiting batches that are thrown away. */
    method Close() returns (discarded: seq<nat>)
      requires Valid()
      modifies this
      ensures Valid() && View() == BeginClose(old(View())) && discarded == if old(closing) then [] else old(waiting)
    {
      CloseKeepsOk(View(), limits);
      if closing { return []; }
      ghost var before := View();
      discarded := waiting;
      for n := 0 to |discarded|
        invariant View() == Discard(before, n) && waiting == before.waiting
      {
        DiscardNext(before, n);
      }
      DiscardFollows(before, |before.waiting|);
      closing, waiting, retained := true, [], 0;
    }
  }
}
