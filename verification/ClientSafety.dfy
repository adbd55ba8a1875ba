/** What a Frontend accepts, from any sender: which messages are refused, and what every installed view
    satisfies whatever arrived before. */
module ClientSafety {
  import opened Topology
  import opened ControlParts
  import opened TopologyAssembler
  import Replication

  // ---------------------------------------------------------------- entries

  /** A process with an address, a device, positive limits and a known transport. */
  ghost predicate Usable(r: WorkerRoute) {
    && r.workerId != "" && r.startId != "" && r.endpoint != "" && r.device != ""
    && r.maxActive > 0 && r.maxPending > 0 && r.maxBatchTokens > 0 && (r.transport == Grpc || r.transport == Shm)
  }

  ghost predicate SameProcess(r: WorkerRoute, q: WorkerRoute) { r.workerId == q.workerId && r.startId == q.startId }

  ghost predicate ReplicasOk(replicas: seq<WorkerRoute>) {
    && (forall i :: 0 <= i < |replicas| ==> Usable(replicas[i]))
    && (forall i, j :: 0 <= i < j < |replicas| ==> !SameProcess(replicas[i], replicas[j]))
  }

  /** The replicas describe no process otherwise than `metadata` does. */
  ghost predicate AgreesWith(replicas: seq<WorkerRoute>, metadata: map<Identity, WorkerRoute>) {
    forall i :: 0 <= i < |replicas| && IdentityOf(replicas[i]) in metadata ==> metadata[IdentityOf(replicas[i])] == replicas[i]
  }

  /** `after` is `before` and the given replicas. */
  ghost predicate Adds(before: map<Identity, WorkerRoute>, after: map<Identity, WorkerRoute>, replicas: seq<WorkerRoute>) {
    && (forall id :: id in after <==> id in before || exists i :: 0 <= i < |replicas| && IdentityOf(replicas[i]) == id)
    && (forall id :: id in before ==> after[id] == before[id])
    && (forall i :: 0 <= i < |replicas| ==> IdentityOf(replicas[i]) in after && after[IdentityOf(replicas[i])] == replicas[i])
  }

  lemma AddsMore(before: map<Identity, WorkerRoute>, after: map<Identity, WorkerRoute>, front: seq<WorkerRoute>, r: WorkerRoute)
    requires Adds(before, after, front) && IdentityOf(r) !in Identities(front) && (IdentityOf(r) in after ==> after[IdentityOf(r)] == r)
    ensures Adds(before, after[IdentityOf(r) := r], front + [r])
  {
    var more, next := front + [r], after[IdentityOf(r) := r];
    assert more[|front|] == r;
    forall id ensures id in next <==> id in before || exists i :: 0 <= i < |more| && IdentityOf(more[i]) == id {
      if i :| 0 <= i < |front| && IdentityOf(front[i]) == id { assert more[i] == front[i]; }
    }
  }

  lemma LastReplica(front: seq<WorkerRoute>, r: WorkerRoute, metadata: map<Identity, WorkerRoute>)
    ensures ReplicasOk(front + [r]) <==> ReplicasOk(front) && Usable(r) && IdentityOf(r) !in Identities(front)
    ensures AgreesWith(front + [r], metadata) <==> AgreesWith(front, metadata) && (IdentityOf(r) in metadata ==> metadata[IdentityOf(r)] == r)
  {
    var more := front + [r];
    assert more[|front|] == r && forall i :: 0 <= i < |front| ==> more[i] == front[i];
    if ReplicasOk(more) {
      forall i | 0 <= i < |front| ensures Usable(front[i]) && IdentityOf(front[i]) != IdentityOf(r) { assert Usable(more[i]) && !SameProcess(more[i], more[|front|]); }
      forall i, j | 0 <= i < j < |front| ensures !SameProcess(front[i], front[j]) { assert !SameProcess(more[i], more[j]); }
    }
    if AgreesWith(more, metadata) {
      forall i | 0 <= i < |front| && IdentityOf(front[i]) in metadata ensures metadata[IdentityOf(front[i])] == front[i] { assert more[i] == front[i]; }
    }
  }

  /** Replicas are accepted exactly when each is usable, none names a process twice, and all agree with
      what was described before. */
  lemma {:induction false} ReplicasExact(replicas: seq<WorkerRoute>, metadata: map<Identity, WorkerRoute>)
    ensures DecodeReplicas(replicas, metadata).Ok? <==> ReplicasOk(replicas) && AgreesWith(replicas, metadata)
    ensures DecodeReplicas(replicas, metadata).Ok? ==> Adds(metadata, DecodeReplicas(replicas, metadata).value, replicas)
    decreases |replicas|
  {
    if replicas != [] {
      var front, r := replicas[..|replicas| - 1], replicas[|replicas| - 1];
      assert replicas == front + [r];
      ReplicasExact(front, metadata);
      LastReplica(front, r, metadata);
      var before := DecodeReplicas(front, metadata);
      if before.Ok? {
        assert IdentityOf(r) !in Identities(front) ==> (IdentityOf(r) in before.value <==> IdentityOf(r) in metadata);
        if CheckReplica(front, before.value, r).Ok? { AddsMore(metadata, before.value, front, r); }
      }
    }
  }

  ghost predicate EntryOk(bounds: Bounds, e: RouteEntry, allowEmpty: bool) {
    e.key.layer < bounds.layers && e.key.expert < bounds.experts && ReplicasOk(e.replicas) && (e.replicas != [] || allowEmpty)
  }

  ghost predicate IsReplica(entries: seq<RouteEntry>, r: WorkerRoute) {
    exists a :: 0 <= a < |entries| && r in entries[a].replicas
  }

  /** All entries describe a process in the same way. */
  ghost predicate OneDescription(entries: seq<RouteEntry>) {
    forall r, q :: IsReplica(entries, r) && IsReplica(entries, q) && SameProcess(r, q) ==> r == q
  }

  ghost predicate EntriesOk(bounds: Bounds, entries: seq<RouteEntry>, allowEmpty: bool) {
    && (forall a :: 0 <= a < |entries| ==> EntryOk(bounds, entries[a], allowEmpty))
    && DistinctKeys(entries) && OneDescription(entries)
  }

  /** `metadata` describes exactly the processes of the entries. */
  ghost predicate Describes(metadata: map<Identity, WorkerRoute>, entries: seq<RouteEntry>) {
    && (forall r :: IsReplica(entries, r) ==> IdentityOf(r) in metadata && metadata[IdentityOf(r)] == r)
    && (forall id :: id in metadata ==> IsReplica(entries, metadata[id]) && IdentityOf(metadata[id]) == id)
  }

  lemma ReplicaMore(front: seq<RouteEntry>, e: RouteEntry, r: WorkerRoute)
    ensures IsReplica(front + [e], r) <==> IsReplica(front, r) || r in e.replicas
  {
    var more := front + [e];
    assert more[|front|] == e;
    if IsReplica(front, r) {
      var a :| 0 <= a < |front| && r in front[a].replicas;
      assert more[a] == front[a];
    }
    if a :| 0 <= a < |more| && r in more[a].replicas {
      if a < |front| { assert front[a] == more[a]; }
    }
  }

  lemma DescribesMore(front: seq<RouteEntry>, e: RouteEntry, before: map<Identity, WorkerRoute>, after: map<Identity, WorkerRoute>)
    requires Describes(before, front) && Adds(before, after, e.replicas)
    ensures Describes(after, front + [e])
  {
    forall r | IsReplica(front + [e], r) ensures IdentityOf(r) in after && after[IdentityOf(r)] == r {
      ReplicaMore(front, e, r);
      if !IsReplica(front, r) { var i :| 0 <= i < |e.replicas| && e.replicas[i] == r; }
    }
    forall id | id in after ensures IsReplica(front + [e], after[id]) && IdentityOf(after[id]) == id {
      ReplicaMore(front, e, after[id]);
      if id !in before { var i :| 0 <= i < |e.replicas| && IdentityOf(e.replicas[i]) == id; assert e.replicas[i] in e.replicas; }
    }
  }

  /** With the earlier entries described, one description for all means that the new replicas agree. */
  lemma OneDescriptionMore(front: seq<RouteEntry>, e: RouteEntry, before: map<Identity, WorkerRoute>)
    requires Describes(before, front) && ReplicasOk(e.replicas)
    ensures OneDescription(front + [e]) <==> OneDescription(front) && AgreesWith(e.replicas, before)
  {
    if OneDescription(front + [e]) {
      forall r, q | IsReplica(front, r) && IsReplica(front, q) && SameProcess(r, q) ensures r == q {
        ReplicaMore(front, e, r);
        ReplicaMore(front, e, q);
      }
      forall i | 0 <= i < |e.replicas| && IdentityOf(e.replicas[i]) in before ensures before[IdentityOf(e.replicas[i])] == e.replicas[i] {
        assert e.replicas[i] in e.replicas;
        ReplicaMore(front, e, e.replicas[i]);
        ReplicaMore(front, e, before[IdentityOf(e.replicas[i])]);
        assert SameProcess(before[IdentityOf(e.replicas[i])], e.replicas[i]);
      }
    }
    if OneDescription(front) && AgreesWith(e.replicas, before) {
      forall r, q | IsReplica(front + [e], r) && IsReplica(front + [e], q) && SameProcess(r, q) ensures r == q {
        ReplicaMore(front, e, r);
        ReplicaMore(front, e, q);
        NewAgrees(front, e, before, r, q);
      }
    }
  }

  lemma NewAgrees(front: seq<RouteEntry>, e: RouteEntry, before: map<Identity, WorkerRoute>, r: WorkerRoute, q: WorkerRoute)
    requires Describes(before, front) && ReplicasOk(e.replicas) && OneDescription(front) && AgreesWith(e.replicas, before)
    requires (IsReplica(front, r) || r in e.replicas) && (IsReplica(front, q) || q in e.replicas) && SameProcess(r, q)
    ensures r == q
  {
    assert IdentityOf(r) == IdentityOf(q);
    NewIsDescribed(e, before, r);
    NewIsDescribed(e, before, q);
    NewOnce(e, r, q);
  }

  lemma NewIsDescribed(e: RouteEntry, before: map<Identity, WorkerRoute>, r: WorkerRoute)
    requires AgreesWith(e.replicas, before)
    ensures r in e.replicas && IdentityOf(r) in before ==> before[IdentityOf(r)] == r
  {
  }

  lemma NewOnce(e: RouteEntry, r: WorkerRoute, q: WorkerRoute)
    requires ReplicasOk(e.replicas) && SameProcess(r, q)
    ensures r in e.replicas && q in e.replicas ==> r == q
  {
    if r in e.replicas && q in e.replicas {
      var i :| 0 <= i < |e.replicas| && e.replicas[i] == r;
      var j :| 0 <= j < |e.replicas| && e.replicas[j] == q;
      assert i == j;
    }
  }

  lemma EntriesMore(bounds: Bounds, front: seq<RouteEntry>, e: RouteEntry, allowEmpty: bool, before: map<Identity, WorkerRoute>)
    requires EntriesOk(bounds, front, allowEmpty) ==> Describes(before, front)
    ensures EntriesOk(bounds, front + [e], allowEmpty) ==> EntriesOk(bounds, front, allowEmpty) && EntryOk(bounds, e, allowEmpty)
    ensures EntriesOk(bounds, front, allowEmpty) && EntryOk(bounds, e, allowEmpty) ==>
              (EntriesOk(bounds, front + [e], allowEmpty) <==>
                 (forall a :: 0 <= a < |front| ==> front[a].key != e.key) && AgreesWith(e.replicas, before))
  {
    var more := front + [e];
    assert more[|front|] == e && forall a :: 0 <= a < |front| ==> more[a] == front[a];
    if EntriesOk(bounds, more, allowEmpty) {
      forall a | 0 <= a < |front| ensures EntryOk(bounds, front[a], allowEmpty) && front[a].key != e.key { assert EntryOk(bounds, more[a], allowEmpty) && more[a].key != more[|front|].key; }
      assert EntryOk(bounds, more[|front|], allowEmpty);
      forall r, q | IsReplica(front, r) && IsReplica(front, q) && SameProcess(r, q) ensures r == q {
        ReplicaMore(front, e, r);
        ReplicaMore(front, e, q);
      }
    }
    if EntriesOk(bounds, front, allowEmpty) && EntryOk(bounds, e, allowEmpty) { OneDescriptionMore(front, e, before); }
  }

  lemma EntryExact(bounds: Bounds, before: Decoded, e: RouteEntry, allowEmpty: bool)
    ensures var r := DecodeEntry(bounds, before, e, allowEmpty);
            && (r.Ok? <==> EntryOk(bounds, e, allowEmpty) && e.key !in before.routes && AgreesWith(e.replicas, before.metadata))
            && (r.Ok? ==> r.value.routes == before.routes[e.key := e.replicas] && Adds(before.metadata, r.value.metadata, e.replicas))
  {
    ReplicasExact(e.replicas, before.metadata);
  }

  /** A list of routes is accepted exactly when every expert is in the model and named once, every replica
      is usable, no route repeats a process, and a process is described in one way only. */
  lemma {:induction false} DecodeExact(bounds: Bounds, entries: seq<RouteEntry>, allowEmpty: bool)
    ensures DecodeEntries(bounds, entries, allowEmpty).Ok? <==> EntriesOk(bounds, entries, allowEmpty)
    ensures DecodeEntries(bounds, entries, allowEmpty).Ok? ==>
              var d := DecodeEntries(bounds, entries, allowEmpty).value;
              d.routes == Replication.EntryMap(entries) && Describes(d.metadata, entries)
    decreases |entries|
  {
    if entries != [] {
      var front, e := entries[..|entries| - 1], entries[|entries| - 1];
      assert entries == front + [e];
      DecodeExact(bounds, front, allowEmpty);
      var before := DecodeEntries(bounds, front, allowEmpty);
      EntriesMore(bounds, front, e, allowEmpty, if before.Ok? then before.value.metadata else map[]);
      if before.Ok? {
        Replication.EntryMapKeys(front);
        EntryExact(bounds, before.value, e, allowEmpty);
        var next := DecodeEntry(bounds, before.value, e, allowEmpty);
        assert DecodeEntries(bounds, entries, allowEmpty) == next;
        if next.Ok? { DescribesMore(front, e, before.value.metadata, next.value.metadata); }
      }
    }
  }

  // ---------------------------------------------------------------- complete messages

  /** A snapshot is installed exactly when it is well formed, not older, empty at version zero, and no
      second meaning of the installed version. */
  ghost predicate SnapshotOk(bounds: Bounds, version: nat, entries: seq<RouteEntry>, installed: View) {
    && EntriesOk(bounds, entries, false) && version >= installed.version && (version == 0 ==> entries == [])
    && (version == installed.version ==> Replication.EntryMap(entries) == installed.routes)
  }

  /** An update is installed exactly when it follows the installed version, changes something and is well formed. */
  ghost predicate UpdateOk(bounds: Bounds, previous: nat, version: nat, entries: seq<RouteEntry>, installed: View) {
    previous == installed.version && version > previous && entries != [] && EntriesOk(bounds, entries, true)
  }

  lemma CompleteExact(bounds: Bounds, header: Header, entries: seq<RouteEntry>, installed: View)
    ensures var r := Complete(bounds, header, entries, installed);
            && (header.Snapshot? ==>
                  && (r.Ok? <==> SnapshotOk(bounds, header.version, entries, installed))
                  && (r.Ok? ==> r.value == View(header.version, Replication.EntryMap(entries))))
            && (header.Update? ==>
                  && (r.Ok? <==> UpdateOk(bounds, header.previous, header.version, entries, installed))
                  && (r.Ok? ==> r.value == View(header.version, ApplyEntries(installed.routes, entries))))
  {
    DecodeExact(bounds, entries, false);
    DecodeExact(bounds, entries, true);
    Replication.EntryMapKeys(entries);
    if entries != [] { assert entries[0].key in Replication.EntryMap(entries); }
  }

  // ---------------------------------------------------------------- parts

  function HeaderOf(message: Message): Header {
    if message.SnapshotPart? then Snapshot(message.version) else Update(message.previous, message.version)
  }

  function EntriesOf(message: Message): seq<RouteEntry> {
    if message.SnapshotPart? then message.routes else message.changes
  }

  /** A part no larger than 64 entries, of a message with no more parts than the model has routes for. */
  ghost predicate PartFits(bounds: Bounds, message: Message) {
    && message.instance == bounds.instance && message.index < message.count && |EntriesOf(message)| <= 64
    && (message.count == 1 || (message.count - 1) * 64 < bounds.layers * bounds.experts)
  }

  /** The part belongs to the message whose parts are retained, and is not one of them. */
  ghost predicate PartJoins(pending: Option<Pending>, message: Message) {
    pending.Some? ==> pending.value.header == HeaderOf(message) && pending.value.count == message.count && message.index !in pending.value.parts
  }

  function PartsWith(pending: Option<Pending>, message: Message): map<nat, seq<RouteEntry>> {
    (if pending.Some? then pending.value.parts else map[])[message.index := EntriesOf(message)]
  }

  lemma MaxPartsIs(bounds: Bounds, count: nat)
    requires count > 0
    ensures count <= MaxParts(bounds) <==> count == 1 || (count - 1) * 64 < bounds.layers * bounds.experts
  {
  }

  /** A part that does not fit, or does not join what is retained, is refused and changes nothing.  Any other
      is retained, and the last missing one decides the message. */
  lemma ConsumeDoes(bounds: Bounds, pending: Option<Pending>, message: Message, installed: View)
    ensures var (after, r) := Consume(bounds, pending, message, installed);
            var parts := PartsWith(pending, message);
            if !PartFits(bounds, message) || !PartJoins(pending, message) then after == pending && r.Err?
            else if |parts| != message.count then after == Some(Pending(HeaderOf(message), message.count, parts)) && r == Ok(None)
            else
              && after == None
              && var whole := Complete(bounds, HeaderOf(message), Joined(parts, message.count), installed);
                 r == if whole.Err? then Err(whole.error) else Ok(Some(whole.value))
  {
    if message.count > 0 { MaxPartsIs(bounds, message.count); }
  }

  /** What is retained are parts of one message that is still incomplete. */
  ghost predicate RetainedOk(bounds: Bounds, pending: Option<Pending>) {
    pending.Some? ==>
      && (pending.value.count == 1 || (pending.value.count - 1) * 64 < bounds.layers * bounds.experts)
      && 0 < |pending.value.parts| < pending.value.count
      && forall i :: i in pending.value.parts ==> i < pending.value.count && |pending.value.parts[i]| <= 64
  }

  lemma RetainsWithinBounds(bounds: Bounds, client: Replication.Client, message: Message)
    requires RetainedOk(bounds, client.pending) && Replication.Receive(bounds, client, message).Ok?
    ensures RetainedOk(bounds, Replication.Receive(bounds, client, message).value.pending)
  {
    ConsumeDoes(bounds, client.pending, message, client.view);
    var parts := PartsWith(client.pending, message);
    assert message.index in parts;
    CountedIndexes(parts.Keys, message.count);
    assert |parts| == |parts.Keys|;
  }

  /** Whatever arrives, a client never retains more than one message, nor more parts than the model has routes for. */
  lemma {:induction false} RetainedIsBounded(bounds: Bounds, client: Replication.Client, messages: seq<Message>)
    requires RetainedOk(bounds, client.pending) && Replication.ReceiveAll(bounds, client, messages).Ok?
    ensures RetainedOk(bounds, Replication.ReceiveAll(bounds, client, messages).value.pending)
    decreases |messages|
  {
    if messages != [] {
      RetainedIsBounded(bounds, client, messages[..|messages| - 1]);
      RetainsWithinBounds(bounds, Replication.ReceiveAll(bounds, client, messages[..|messages| - 1]).value, messages[|messages| - 1]);
    }
  }

  // ---------------------------------------------------------------- every installed view

  /** Experts of the model, each with usable replicas, no process twice; nothing at version zero. */
  ghost predicate ViewOk(bounds: Bounds, view: View) {
    && (forall key :: key in view.routes ==> RouteOk(bounds, key, view.routes[key])) && (view.version == 0 ==> view.routes == map[])
  }

  ghost predicate RouteOk(bounds: Bounds, key: ExpertKey, replicas: seq<WorkerRoute>) {
    key.layer < bounds.layers && key.expert < bounds.experts && replicas != [] && ReplicasOk(replicas)
  }

  lemma {:induction false} AppliedRoutesOk(bounds: Bounds, routes: RouteMap, entries: seq<RouteEntry>)
    requires forall key :: key in routes ==> RouteOk(bounds, key, routes[key])
    requires forall a :: 0 <= a < |entries| ==> EntryOk(bounds, entries[a], true)
    ensures forall key :: key in ApplyEntries(routes, entries) ==> RouteOk(bounds, key, ApplyEntries(routes, entries)[key])
    decreases |entries|
  {
    if entries != [] {
      var front := entries[..|entries| - 1];
      forall a | 0 <= a < |front| ensures EntryOk(bounds, front[a], true) { assert front[a] == entries[a]; }
      AppliedRoutesOk(bounds, routes, front);
    }
  }

  lemma CompletedIsOk(bounds: Bounds, header: Header, entries: seq<RouteEntry>, installed: View)
    requires ViewOk(bounds, installed) && Complete(bounds, header, entries, installed).Ok?
    ensures var view := Complete(bounds, header, entries, installed).value;
            && ViewOk(bounds, view) && view.version >= installed.version
            && (view.version == installed.version ==> view == installed)
            && (header.Update? ==> header.previous == installed.version)
  {
    CompleteExact(bounds, header, entries, installed);
    if header.Snapshot? {
      Replication.EntryMapKeys(entries);
      forall key | key in Replication.EntryMap(entries) ensures RouteOk(bounds, key, Replication.EntryMap(entries)[key]) {
        var a :| 0 <= a < |entries| && entries[a].key == key;
        assert EntryOk(bounds, entries[a], false);
      }
    } else {
      AppliedRoutesOk(bounds, installed.routes, entries);
    }
  }

  /** The part of a message that came first in its place. */
  lemma ConsumeIsOk(bounds: Bounds, client: Replication.Client, message: Message)
    requires ViewOk(bounds, client.view) && Replication.Receive(bounds, client, message).Ok?
    ensures var view := Replication.Receive(bounds, client, message).value.view;
            && message.instance == bounds.instance && message.index < message.count
            && ViewOk(bounds, view) && view.version >= client.view.version && (view.version == client.view.version ==> view == client.view)
            && (view != client.view && message.UpdatePart? ==> message.previous == client.view.version)
            && (view != client.view ==> view.version == message.version)
  {
    var header := if message.SnapshotPart? then Snapshot(message.version) else Update(message.previous, message.version);
    var entries := if message.SnapshotPart? then message.routes else message.changes;
    var parts := if client.pending.Some? then client.pending.value.parts else map[];
    var joined := Joined(parts[message.index := entries], message.count);
    CompleteExact(bounds, header, joined, client.view);
    if Complete(bounds, header, joined, client.view).Ok? { CompletedIsOk(bounds, header, joined, client.view); }
  }

  /** Whatever messages arrive, from whoever and in whatever order: as long as none is refused, the
      installed view is sound, versions never go back, and one version never changes its routes. */
  lemma {:induction false} EveryViewIsSound(bounds: Bounds, client: Replication.Client, messages: seq<Message>)
    requires ViewOk(bounds, client.view) && Replication.ReceiveAll(bounds, client, messages).Ok?
    ensures var view := Replication.ReceiveAll(bounds, client, messages).value.view;
            && ViewOk(bounds, view) && view.version >= client.view.version && (view.version == client.view.version ==> view == client.view)
    decreases |messages|
  {
    if messages != [] {
      var front := messages[..|messages| - 1];
      EveryViewIsSound(bounds, client, front);
      ConsumeIsOk(bounds, Replication.ReceiveAll(bounds, client, front).value, messages[|messages| - 1]);
    }
  }
}
