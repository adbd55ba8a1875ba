/** The waiting area of a Worker receiver: admission, execution ownership, drain gates and shutdown.

    Each function is one section under the queue's condition lock. */
module QueueState {
  import opened Topology

  datatype Phase = Waiting | Active

  /** An admitted batch: the experts it names, the bytes its input holds, and whether execution has taken it. */
  datatype Entry = Entry(layer: nat, experts: seq<nat>, bytes: nat, phase: Phase)

  function KeysOf(layer: nat, experts: seq<nat>): (keys: set<ExpertKey>)
    ensures forall key :: key in keys <==> key.layer == layer && key.expert in experts
  {
    set e | e in experts :: ExpertKey(layer, e)
  }

  function EntryKeys(entry: Entry): set<ExpertKey> { KeysOf(entry.layer, entry.experts) }

  datatype Limits = Limits(maxPending: nat, maxBytes: nat)

  datatype Queue = Queue(
    waiting: seq<nat>, entries: map<nat, Entry>, retained: nat, activeCount: nat,
    admitted: map<ExpertKey, nat>, gates: map<ExpertKey, nat>, stopAll: Option<nat>, closing: bool)

  const EmptyQueue := Queue([], map[], 0, 0, map[], map[], None, false)

  function Count(admitted: map<ExpertKey, nat>, key: ExpertKey): nat {
    if key in admitted then admitted[key] else 0
  }

  function Bump(admitted: map<ExpertKey, nat>, keys: set<ExpertKey>): (r: map<ExpertKey, nat>)
    ensures forall key :: Count(r, key) == Count(admitted, key) + if key in keys then 1 else 0
  {
    map key | key in admitted.Keys + keys :: Count(admitted, key) + if key in keys then 1 else 0
  }

  /** Counters that reach zero disappear. */
  function Release(admitted: map<ExpertKey, nat>, keys: set<ExpertKey>): map<ExpertKey, nat> {
    map key | key in admitted && !(key in keys && admitted[key] <= 1) ::
      if key in keys then admitted[key] - 1 else admitted[key]
  }

  // ---------------------------------------------------------------- steps

  datatype Refusal = Closing | AlreadyAdmitted | Draining(minVersion: nat) | Busy | NotActive

  function Later(a: Option<nat>, b: nat): Option<nat> {
    Some(if a.Some? && a.value >= b then a.value else b)
  }

  /** The highest version asked for by the gates of the first `n` experts. */
  function GateOf(q: Queue, layer: nat, experts: seq<nat>, n: nat): Option<nat>
    requires n <= |experts|
  {
    if n == 0 then q.stopAll else
    var before, key := GateOf(q, layer, experts, n - 1), ExpertKey(layer, experts[n - 1]);
    if key in q.gates then Later(before, q.gates[key]) else before
  }

  function AdmitRefusal(q: Queue, limits: Limits, item: nat, layer: nat, experts: seq<nat>, bytes: nat): Option<Refusal> {
    if q.closing then Some(Closing)
    else if item in q.entries then Some(AlreadyAdmitted)
    else
      var gate := GateOf(q, layer, experts, |experts|);
      if gate.Some? then Some(Draining(gate.value))
      else if |q.waiting| >= limits.maxPending || q.retained + bytes > limits.maxBytes then Some(Busy)
      else None
  }

  function Admit(q: Queue, limits: Limits, item: nat, layer: nat, experts: seq<nat>, bytes: nat): Queue {
    if AdmitRefusal(q, limits, item, layer, experts, bytes).Some? then q
    else q.(waiting := q.waiting + [item], entries := q.entries[item := Entry(layer, experts, bytes, Waiting)],
            retained := q.retained + bytes, admitted := Bump(q.admitted, KeysOf(layer, experts)))
  }

  /** The oldest waiting batch becomes active; nothing happens while none waits. */
  function Take(q: Queue): Queue {
    if q.waiting == [] || q.waiting[0] !in q.entries then q else
    var item := q.waiting[0];
    var entry := q.entries[item];
    q.(waiting := q.waiting[1..], entries := q.entries[item := entry.(phase := Active)],
       retained := if entry.bytes <= q.retained then q.retained - entry.bytes else 0, activeCount := q.activeCount + 1)
  }

  function Without(waiting: seq<nat>, item: nat): seq<nat> {
    if waiting == [] then []
    else if waiting[0] == item then waiting[1..]
    else [waiting[0]] + Without(waiting[1..], item)
  }

  predicate IsIn(q: Queue, item: nat, phase: Phase) {
    item in q.entries && q.entries[item].phase == phase
  }

  /** A cancelled waiting batch leaves; active work stays tracked. */
  function CancelWaiting(q: Queue, item: nat): Queue {
    if !IsIn(q, item, Waiting) then q else
    var entry := q.entries[item];
    q.(waiting := Without(q.waiting, item), entries := q.entries - {item},
       retained := if entry.bytes <= q.retained then q.retained - entry.bytes else 0,
       admitted := Release(q.admitted, EntryKeys(entry)))
  }

  /** An active batch leaves after its response. */
  function Finish(q: Queue, item: nat): Queue {
    if !IsIn(q, item, Active) then q else
    q.(entries := q.entries - {item}, activeCount := if q.activeCount > 0 then q.activeCount - 1 else 0,
       admitted := Release(q.admitted, EntryKeys(q.entries[item])))
  }

  function RaiseGates(gates: map<ExpertKey, nat>, keys: set<ExpertKey>, version: nat): map<ExpertKey, nat> {
    map key | key in gates.Keys + keys ::
      if key !in keys then gates[key] else if key in gates && gates[key] >= version then gates[key] else version
  }

  function BeginDrain(q: Queue, keys: set<ExpertKey>, version: nat, stopAll: bool): Queue {
    q.(gates := RaiseGates(q.gates, keys, version), stopAll := if stopAll then Later(q.stopAll, version) else q.stopAll)
  }

  function ClearDrains(q: Queue, keys: set<ExpertKey>): Queue {
    q.(gates := q.gates - keys)
  }

  /** The first `n` waiting batches are thrown away. */
  function Discard(q: Queue, n: nat): Queue
    requires n <= |q.waiting|
  {
    if n == 0 then q else
    var before, item := Discard(q, n - 1), q.waiting[n - 1];
    if item !in before.entries then before
    else before.(entries := before.entries - {item}, admitted := Release(before.admitted, EntryKeys(before.entries[item])))
  }

  /** Stop admission; waiting batches are thrown away, active ones may still finish. */
  function BeginClose(q: Queue): Queue {
    if q.closing then q
    else Discard(q, |q.waiting|).(closing := true, waiting := [], retained := 0)
  }

  predicate ExpertsIdle(q: Queue, keys: set<ExpertKey>) {
    forall key :: key in keys ==> Count(q.admitted, key) == 0
  }

  predicate AllIdle(q: Queue) { q.waiting == [] && q.activeCount == 0 }

  // ---------------------------------------------------------------- invariant

  ghost function Naming(entries: map<nat, Entry>, key: ExpertKey): set<nat> {
    set item | item in entries && key in EntryKeys(entries[item])
  }

  ghost function InPhase(entries: map<nat, Entry>, phase: Phase): set<nat> {
    set item | item in entries && entries[item].phase == phase
  }

  function Bytes(entries: map<nat, Entry>, waiting: seq<nat>): nat {
    if waiting == [] then 0
    else (if waiting[0] in entries then entries[waiting[0]].bytes else 0) + Bytes(entries, waiting[1..])
  }

  /** The waiting list holds each waiting batch once. */
  ghost predicate WaitingOk(q: Queue) {
    && (forall i, j :: 0 <= i < j < |q.waiting| ==> q.waiting[i] != q.waiting[j])
    && (forall item :: item in q.waiting <==> IsIn(q, item, Waiting))
  }

  /** Every counter is the number of admitted batches it stands for. */
  ghost predicate CountersOk(q: Queue) {
    && (forall key :: Count(q.admitted, key) == |Naming(q.entries, key)|)
    && (forall key :: key in q.admitted ==> q.admitted[key] > 0)
    && q.activeCount == |InPhase(q.entries, Active)|
    && q.retained == Bytes(q.entries, q.waiting)
  }

  ghost predicate QueueOk(q: Queue, limits: Limits) {
    && WaitingOk(q) && CountersOk(q)
    && |q.waiting| <= limits.maxPending && q.retained <= limits.maxBytes
  }

  lemma EmptyQueueOk(limits: Limits)
    ensures QueueOk(EmptyQueue, limits)
  {
  }

  // ---------------------------------------------------------------- bookkeeping lemmas

  lemma NamingPut(entries: map<nat, Entry>, item: nat, entry: Entry, key: ExpertKey)
    requires item !in entries
    ensures |Naming(entries[item := entry], key)| == |Naming(entries, key)| + if key in EntryKeys(entry) then 1 else 0
  {
    var after := entries[item := entry];
    if key in EntryKeys(entry) {
      assert Naming(after, key) == Naming(entries, key) + {item};
    } else {
      assert Naming(after, key) == Naming(entries, key);
    }
  }

  lemma NamingDrop(entries: map<nat, Entry>, item: nat, key: ExpertKey)
    requires item in entries
    ensures |Naming(entries - {item}, key)| == |Naming(entries, key)| - if key in EntryKeys(entries[item]) then 1 else 0
  {
    assert entries == (entries - {item})[item := entries[item]];
    NamingPut(entries - {item}, item, entries[item], key);
  }

  lemma NamingPhase(entries: map<nat, Entry>, item: nat, phase: Phase, key: ExpertKey)
    requires item in entries
    ensures Naming(entries[item := entries[item].(phase := phase)], key) == Naming(entries, key)
  {
  }

  lemma ReleaseCounts(admitted: map<ExpertKey, nat>, keys: set<ExpertKey>, key: ExpertKey)
    requires forall k :: k in admitted ==> admitted[k] > 0
    requires key in keys ==> Count(admitted, key) > 0
    ensures Count(Release(admitted, keys), key) == Count(admitted, key) - if key in keys then 1 else 0
    ensures key in Release(admitted, keys) ==> Release(admitted, keys)[key] > 0
  {
  }

  lemma {:induction false} BytesSame(a: map<nat, Entry>, b: map<nat, Entry>, waiting: seq<nat>)
    requires forall item :: item in waiting ==> item in a && item in b && a[item].bytes == b[item].bytes
    ensures Bytes(a, waiting) == Bytes(b, waiting)
    decreases |waiting|
  {
    if waiting != [] {
      assert waiting[0] in waiting;
      BytesSame(a, b, waiting[1..]);
    }
  }

  lemma {:induction false} BytesAppend(entries: map<nat, Entry>, waiting: seq<nat>, item: nat)
    ensures Bytes(entries, waiting + [item]) == Bytes(entries, waiting) + if item in entries then entries[item].bytes else 0
    decreases |waiting|
  {
    if waiting == [] {
      assert waiting + [item] == [item];
    } else {
      assert (waiting + [item])[1..] == waiting[1..] + [item];
      BytesAppend(entries, waiting[1..], item);
    }
  }

  lemma {:induction false} WithoutIs(waiting: seq<nat>, item: nat)
    requires forall i, j :: 0 <= i < j < |waiting| ==> waiting[i] != waiting[j]
    ensures forall x :: x in Without(waiting, item) <==> x in waiting && x != item
    ensures forall i, j :: 0 <= i < j < |Without(waiting, item)| ==> Without(waiting, item)[i] != Without(waiting, item)[j]
    ensures |Without(waiting, item)| <= |waiting|
    decreases |waiting|
  {
    if waiting != [] {
      var rest := waiting[1..];
      WithoutIs(rest, item);
      assert waiting == [waiting[0]] + rest;
      assert waiting[0] !in rest;
      if waiting[0] != item {
        var out := Without(rest, item);
        assert forall i :: 0 <= i < |out| ==> out[i] in out;
      }
    }
  }

  lemma {:induction false} BytesWithout(entries: map<nat, Entry>, waiting: seq<nat>, item: nat)
    requires item in waiting && item in entries
    ensures Bytes(entries, Without(waiting, item)) + entries[item].bytes == Bytes(entries, waiting)
    decreases |waiting|
  {
    if waiting[0] != item {
      assert waiting == [waiting[0]] + waiting[1..];
      BytesWithout(entries, waiting[1..], item);
      var tail := Without(waiting[1..], item);
      assert ([waiting[0]] + tail)[1..] == tail;
    }
  }
}
