/** One `topology_messages` call brings a client from any view ever issued to the current one. */
module Replication {
  import opened Topology
  import opened ControlParts
  import opened ControllerState
  import opened ControllerRoutes
  import opened ControllerLog
  import opened ControllerInvariant
  import opened ControllerRuns
  import opened TopologyAssembler

  /** A Frontend: its assembler's retained parts and its installed view. */
  datatype Client = Client(pending: Option<Pending>, view: View)

  function Receive(bounds: Bounds, client: Client, message: Message): Result<Client, ProtocolError> {
    var (pending, result) := Consume(bounds, client.pending, message, client.view);
    match result
    case Err(e) => Err(e)
    case Ok(None) => Ok(Client(pending, client.view))
    case Ok(Some(view)) => Ok(Client(pending, view))
  }

  /** Run a step over a list, stopping at the first error. */
  function Fold<S, M, E>(step: (S, M) -> Result<S, E>, state: S, messages: seq<M>): Result<S, E> {
    if messages == [] then Ok(state) else
    var before := Fold(step, state, messages[..|messages| - 1]);
    if before.Err? then before else step(before.value, messages[|messages| - 1])
  }

  lemma {:induction false} FoldConcat<S, M, E>(step: (S, M) -> Result<S, E>, state: S, a: seq<M>, b: seq<M>)
    requires Fold(step, state, a).Ok?
    ensures Fold(step, state, a + b) == Fold(step, Fold(step, state, a).value, b)
    decreases |b|
  {
    if b == [] {
      assert a + b == a;
    } else {
      var all := a + b;
      assert all[..|all| - 1] == a + b[..|b| - 1] && all[|all| - 1] == b[|b| - 1];
      FoldConcat(step, state, a, b[..|b| - 1]);
    }
  }

  function ClientOf(bounds: Bounds): (Client, Message) -> Result<Client, ProtocolError> {
    (client, message) => Receive(bounds, client, message)
  }

  function ReceiveAll(bounds: Bounds, client: Client, messages: seq<Message>): Result<Client, ProtocolError> {
    Fold(ClientOf(bounds), client, messages)
  }

  lemma ReceiveConcat(bounds: Bounds, client: Client, a: seq<Message>, b: seq<Message>)
    requires ReceiveAll(bounds, client, a).Ok?
    ensures ReceiveAll(bounds, client, a + b) == ReceiveAll(bounds, ReceiveAll(bounds, client, a).value, b)
  {
    FoldConcat(ClientOf(bounds), client, a, b);
  }

  // ---------------------------------------------------------------- model bounds

  ghost predicate KeysInModel(bounds: Bounds, entries: seq<RouteEntry>) {
    forall j :: 0 <= j < |entries| ==> InModel(bounds, entries[j].key)
  }

  ghost predicate RoutesInModel(bounds: Bounds, routes: RouteMap) {
    forall key :: key in routes ==> InModel(bounds, key)
  }

  lemma {:induction false} LayerBound(keys: set<ExpertKey>, layer: nat, experts: nat)
    requires forall key :: key in keys ==> key.layer == layer && key.expert < experts
    ensures |keys| <= experts
    decreases experts
  {
    if experts == 0 {
      assert keys == {};
    } else {
      var top := ExpertKey(layer, experts - 1);
      LayerBound(keys - {top}, layer, experts - 1);
      if top !in keys { assert keys - {top} == keys; }
    }
  }

  lemma {:induction false} ModelBound(keys: set<ExpertKey>, layers: nat, experts: nat)
    requires forall key :: key in keys ==> key.layer < layers && key.expert < experts
    ensures |keys| <= layers * experts
    decreases layers
  {
    if layers == 0 {
      assert keys == {};
    } else {
      var top := set key | key in keys && key.layer == layers - 1;
      var rest := keys - top;
      LayerBound(top, layers - 1, experts);
      ModelBound(rest, layers - 1, experts);
      assert keys == top + rest;
      assert |keys| == |top| + |rest|;
      assert (layers - 1) * experts + experts == layers * experts;
    }
  }

  lemma {:induction false} DistinctCount(entries: seq<RouteEntry>) returns (keys: set<ExpertKey>)
    requires DistinctKeys(entries)
    ensures |keys| == |entries|
    ensures forall key :: key in keys <==> exists j :: 0 <= j < |entries| && entries[j].key == key
    decreases |entries|
  {
    if entries == [] {
      keys := {};
    } else {
      var front := entries[..|entries| - 1];
      var last := entries[|entries| - 1].key;
      var before := DistinctCount(front);
      assert last !in before;
      keys := before + {last};
      forall key ensures key in keys <==> exists j :: 0 <= j < |entries| && entries[j].key == key {
        if key in before {
          var j :| 0 <= j < |front| && front[j].key == key;
          assert entries[j].key == key;
        }
        if j :| 0 <= j < |entries| && entries[j].key == key {
          if j < |front| { assert front[j].key == key; }
        }
      }
    }
  }

  /** Distinct experts of the model fit into the part bound of the client. */
  lemma PartsFitModel(bounds: Bounds, entries: seq<RouteEntry>)
    requires DistinctKeys(entries) && KeysInModel(bounds, entries)
    ensures PartCount(|entries|) <= MaxParts(bounds)
  {
    var keys := DistinctCount(entries);
    ModelBound(keys, bounds.layers, bounds.experts);
    PartCountMonotone(|entries|, bounds.layers * bounds.experts);
  }

  lemma PartCountMonotone(a: nat, b: nat)
    requires a <= b
    ensures PartCount(a) <= PartCount(b)
  {
  }

  // ---------------------------------------------------------------- decoding

  /** The map a list of routes with distinct keys stands for. */
  function EntryMap(entries: seq<RouteEntry>): RouteMap {
    if entries == [] then map[]
    else EntryMap(entries[..|entries| - 1])[entries[|entries| - 1].key := entries[|entries| - 1].replicas]
  }

  lemma {:induction false} EntryMapKeys(entries: seq<RouteEntry>)
    ensures forall key :: key in EntryMap(entries) <==> exists j :: 0 <= j < |entries| && entries[j].key == key
    ensures DistinctKeys(entries) ==>
              forall j :: 0 <= j < |entries| ==>
                entries[j].key in EntryMap(entries) && EntryMap(entries)[entries[j].key] == entries[j].replicas
    decreases |entries|
  {
    if entries != [] {
      var front := entries[..|entries| - 1];
      EntryMapKeys(front);
      forall key ensures key in EntryMap(entries) <==> exists j :: 0 <= j < |entries| && entries[j].key == key {
        if key in EntryMap(front) {
          var j :| 0 <= j < |front| && front[j].key == key;
          assert entries[j].key == key;
        }
        if j :| 0 <= j < |entries| && entries[j].key == key {
          if j < |front| { assert front[j].key == key; }
        }
      }
    }
  }

  /** Every described process is a replica of some entry seen so far. */
  ghost predicate Described(metadata: map<Identity, WorkerRoute>, pool: set<WorkerRoute>) {
    forall id :: id in metadata ==> metadata[id] in pool && IdentityOf(metadata[id]) == id
  }

  ghost predicate OnePerWorker(pool: set<WorkerRoute>) {
    forall r, q :: r in pool && q in pool && r.workerId == q.workerId ==> r == q
  }

  lemma {:induction false} ReplicasDecode(replicas: seq<WorkerRoute>, metadata: map<Identity, WorkerRoute>, pool: set<WorkerRoute>)
    requires ValidReplicas(replicas) && OnePerWorker(pool) && Described(metadata, pool)
    requires forall r :: r in replicas ==> r in pool
    ensures DecodeReplicas(replicas, metadata).Ok? && Described(DecodeReplicas(replicas, metadata).value, pool)
    decreases |replicas|
  {
    if replicas != [] {
      var front := replicas[..|replicas| - 1];
      var last := replicas[|replicas| - 1];
      assert forall i :: 0 <= i < |front| ==> front[i] == replicas[i];
      ReplicasDecode(front, metadata, pool);
      assert last in replicas;
      assert IdentityOf(last) !in Identities(front);
    }
  }

  function Pool(entries: seq<RouteEntry>): set<WorkerRoute> {
    set j, r | 0 <= j < |entries| && r in entries[j].replicas :: r
  }

  lemma {:induction false} EntriesDecode(bounds: Bounds, entries: seq<RouteEntry>, allowEmpty: bool, pool: set<WorkerRoute>)
    requires DistinctKeys(entries) && KeysInModel(bounds, entries)
    requires forall j :: 0 <= j < |entries| ==> ValidReplicas(entries[j].replicas) && (entries[j].replicas != [] || allowEmpty)
    requires forall j, r :: 0 <= j < |entries| && r in entries[j].replicas ==> r in pool
    requires OnePerWorker(pool)
    ensures var d := DecodeEntries(bounds, entries, allowEmpty);
            d.Ok? && d.value.routes == EntryMap(entries) && Described(d.value.metadata, pool)
    decreases |entries|
  {
    if entries != [] {
      var front := entries[..|entries| - 1];
      var last := entries[|entries| - 1];
      assert forall j :: 0 <= j < |front| ==> front[j] == entries[j];
      EntriesDecode(bounds, front, allowEmpty, pool);
      EntryMapKeys(front);
      assert last.key !in EntryMap(front);
      ReplicasDecode(last.replicas, DecodeEntries(bounds, front, allowEmpty).value.metadata, pool);
    }
  }

  lemma WellFormedDecodes(bounds: Bounds, entries: seq<RouteEntry>, allowEmpty: bool)
    requires DistinctKeys(entries) && KeysInModel(bounds, entries) && WellFormed(entries)
    requires allowEmpty || forall j :: 0 <= j < |entries| ==> entries[j].replicas != []
    ensures var d := DecodeEntries(bounds, entries, allowEmpty); d.Ok? && d.value.routes == EntryMap(entries)
  {
    var pool := Pool(entries);
    assert OnePerWorker(pool);
    EntriesDecode(bounds, entries, allowEmpty, pool);
  }

  // ---------------------------------------------------------------- one multipart message

  function PartMessage(instance: nat, header: Header, index: nat, count: nat, entries: seq<RouteEntry>): Message {
    match header
    case Snapshot(version) => SnapshotPart(instance, version, index, count, entries)
    case Update(previous, version) => UpdatePart(instance, previous, version, index, count, entries)
  }

  function PartMessages(instance: nat, header: Header, entries: seq<RouteEntry>): (messages: seq<Message>)
    ensures |messages| == PartCount(|entries|)
  {
    var count := PartCount(|entries|);
    seq(count, i requires 0 <= i < count => PartMessage(instance, header, i, count, Part(entries, i)))
  }

  /** What the assembler holds after the first `n` parts. */
  function FirstParts(entries: seq<RouteEntry>, n: nat): map<nat, seq<RouteEntry>>
    requires n <= PartCount(|entries|)
  {
    map i: nat | 0 <= i < n :: Part(entries, i)
  }

  lemma {:induction false} FirstPartsSize(entries: seq<RouteEntry>, n: nat)
    requires n <= PartCount(|entries|)
    ensures |FirstParts(entries, n)| == n
    decreases n
  {
    if n > 0 {
      FirstPartsSize(entries, n - 1);
      assert FirstParts(entries, n) == FirstParts(entries, n - 1)[n - 1 := Part(entries, n - 1)];
    } else {
      assert FirstParts(entries, 0) == map[];
    }
  }

  lemma AllPartsJoin(entries: seq<RouteEntry>)
    ensures Joined(FirstParts(entries, PartCount(|entries|)), PartCount(|entries|)) == entries
  {
    var count := PartCount(|entries|);
    var parts := FirstParts(entries, count);
    assert seq(count, i requires 0 <= i < count => if i in parts then parts[i] else []) == SplitParts(entries);
    PartsRejoin(entries);
  }

  /** A part that fits and has not come before joins the others. */
  lemma ConsumeNext(bounds: Bounds, pending: Option<Pending>, header: Header, index: nat, count: nat, part: seq<RouteEntry>,
                    view: View, grown: map<nat, seq<RouteEntry>>)
    requires index < count <= MaxParts(bounds) && |part| <= MAX_ENTRIES_PER_PART
    requires pending.None? ==> grown == map[index := part]
    requires pending.Some? ==> pending.value.header == header && pending.value.count == count &&
                               index !in pending.value.parts && grown == pending.value.parts[index := part]
    ensures Consume(bounds, pending, PartMessage(bounds.instance, header, index, count, part), view) ==
              if |grown| != count then (Some(Pending(header, count, grown)), Ok(None))
              else (None, match Complete(bounds, header, Joined(grown, count), view) case Err(e) => Err(e) case Ok(v) => Ok(Some(v)))
  {
  }

  lemma FirstPartsGrow(entries: seq<RouteEntry>, n: nat)
    requires n < PartCount(|entries|)
    ensures FirstParts(entries, n + 1) == FirstParts(entries, n)[n := Part(entries, n)]
    ensures n == 0 ==> FirstParts(entries, n + 1) == map[n := Part(entries, n)]
    ensures n !in FirstParts(entries, n)
  {
  }

  lemma ReceivePart(bounds: Bounds, view: View, header: Header, entries: seq<RouteEntry>, n: nat)
    requires PartCount(|entries|) <= MaxParts(bounds) && n < PartCount(|entries|)
    ensures var count := PartCount(|entries|);
            var pending := if n == 0 then None else Some(Pending(header, count, FirstParts(entries, n)));
            var message := PartMessage(bounds.instance, header, n, count, Part(entries, n));
            Consume(bounds, pending, message, view) ==
              if n + 1 < count then (Some(Pending(header, count, FirstParts(entries, n + 1))), Ok(None))
              else (None, match Complete(bounds, header, entries, view) case Err(e) => Err(e) case Ok(v) => Ok(Some(v)))
  {
    var count := PartCount(|entries|);
    FirstPartsSize(entries, n + 1);
    FirstPartsGrow(entries, n);
    var pending := if n == 0 then None else Some(Pending(header, count, FirstParts(entries, n)));
    ConsumeNext(bounds, pending, header, n, count, Part(entries, n), view, FirstParts(entries, n + 1));
    if n + 1 == count { AllPartsJoin(entries); }
  }

  /** The client after the first `n` parts. */
  function Partial(view: View, header: Header, entries: seq<RouteEntry>, n: nat): Client
    requires n <= PartCount(|entries|)
  {
    Client(if n == 0 then None else Some(Pending(header, PartCount(|entries|), FirstParts(entries, n))), view)
  }

  lemma ReceiveOnePart(bounds: Bounds, view: View, header: Header, entries: seq<RouteEntry>, n: nat)
    requires PartCount(|entries|) <= MaxParts(bounds) && n < PartCount(|entries|)
    ensures var message := PartMessages(bounds.instance, header, entries)[n];
            Receive(bounds, Partial(view, header, entries, n), message) ==
              if n + 1 < PartCount(|entries|) then Ok(Partial(view, header, entries, n + 1))
              else match Complete(bounds, header, entries, view) case Err(e) => Err(e) case Ok(v) => Ok(Client(None, v))
  {
    ReceivePart(bounds, view, header, entries, n);
  }

  lemma FoldOneMore<S, M, E>(step: (S, M) -> Result<S, E>, state: S, messages: seq<M>, n: nat, next: S)
    requires n < |messages| && Fold(step, state, messages[..n]) == Ok(next)
    ensures Fold(step, state, messages[..n + 1]) == step(next, messages[n])
  {
    assert messages[..n + 1][..n] == messages[..n];
  }

  lemma {:induction false} ReceivePrefix(bounds: Bounds, view: View, header: Header, entries: seq<RouteEntry>, n: nat)
    requires PartCount(|entries|) <= MaxParts(bounds) && n < PartCount(|entries|)
    ensures ReceiveAll(bounds, Client(None, view), PartMessages(bounds.instance, header, entries)[..n])
            == Ok(Partial(view, header, entries, n))
    decreases n
  {
    if n > 0 {
      ReceivePrefix(bounds, view, header, entries, n - 1);
      ReceiveOnePart(bounds, view, header, entries, n - 1);
      FoldOneMore(ClientOf(bounds), Client(None, view), PartMessages(bounds.instance, header, entries), n - 1,
                  Partial(view, header, entries, n - 1));
    }
  }

  /** A message that is accepted as a whole is accepted in parts. */
  lemma ReceiveWhole(bounds: Bounds, view: View, header: Header, entries: seq<RouteEntry>)
    requires PartCount(|entries|) <= MaxParts(bounds)
    requires Complete(bounds, header, entries, view).Ok?
    ensures ReceiveAll(bounds, Client(None, view), PartMessages(bounds.instance, header, entries))
            == Ok(Client(None, Complete(bounds, header, entries, view).value))
  {
    var messages, n := PartMessages(bounds.instance, header, entries), PartCount(|entries|) - 1;
    ReceivePrefix(bounds, view, header, entries, n);
    ReceiveOnePart(bounds, view, header, entries, n);
    FoldOneMore(ClientOf(bounds), Client(None, view), messages, n, Partial(view, header, entries, n));
    assert messages[..n + 1] == messages;
  }

  // ---------------------------------------------------------------- snapshots and updates

  lemma RouteListEntries(routes: RouteMap)
    ensures DistinctKeys(RouteList(routes))
    ensures forall j :: 0 <= j < |RouteList(routes)| ==>
              RouteList(routes)[j].key in routes && RouteList(routes)[j].replicas == routes[RouteList(routes)[j].key]
    ensures forall key :: key in routes ==> exists j :: 0 <= j < |RouteList(routes)| && RouteList(routes)[j].key == key
  {
    var keys, entries := SortedKeys(routes.Keys), RouteList(routes);
    forall key | key in routes ensures exists j :: 0 <= j < |entries| && entries[j].key == key {
      var j :| 0 <= j < |keys| && keys[j] == key;
      assert entries[j].key == key;
    }
  }

  lemma EntriesMapTo(entries: seq<RouteEntry>, routes: RouteMap)
    requires DistinctKeys(entries)
    requires forall j :: 0 <= j < |entries| ==> entries[j].key in routes && entries[j].replicas == routes[entries[j].key]
    requires forall key :: key in routes ==> exists j :: 0 <= j < |entries| && entries[j].key == key
    ensures EntryMap(entries) == routes
  {
    EntryMapKeys(entries);
    forall key | key in routes ensures key in EntryMap(entries) && EntryMap(entries)[key] == routes[key] {
      var j :| 0 <= j < |entries| && entries[j].key == key;
    }
  }

  lemma RouteListIsRoutes(routes: RouteMap)
    ensures DistinctKeys(RouteList(routes)) && EntryMap(RouteList(routes)) == routes
    ensures forall j :: 0 <= j < |RouteList(routes)| ==>
              RouteList(routes)[j].key in routes && RouteList(routes)[j].replicas == routes[RouteList(routes)[j].key]
  {
    RouteListEntries(routes);
    EntriesMapTo(RouteList(routes), routes);
  }

  lemma SnapshotIsParts(instance: nat, version: nat, routes: RouteMap)
    ensures SnapshotMessages(instance, version, routes) == PartMessages(instance, Snapshot(version), RouteList(routes))
  {
  }

  lemma UpdateIsParts(instance: nat, revision: Revision)
    ensures UpdateMessages(instance, revision)
            == PartMessages(instance, Update(revision.previous, revision.version), revision.changes)
  {
  }

  /** A current snapshot is accepted by a client of any older view, and by an empty one at version 0. */
  lemma SnapshotInstalls(bounds: Bounds, view: View, version: nat, routes: RouteMap)
    requires RoutesInModel(bounds, routes) && WellFormed(RouteList(routes)) && NoEmptyRoute(routes)
    requires view.version < version || (view.version == version == 0 && routes == map[] == view.routes)
    ensures ReceiveAll(bounds, Client(None, view), SnapshotMessages(bounds.instance, version, routes))
            == Ok(Client(None, View(version, routes)))
  {
    var entries := RouteList(routes);
    RouteListIsRoutes(routes);
    WellFormedDecodes(bounds, entries, false);
    PartsFitModel(bounds, entries);
    SnapshotIsParts(bounds.instance, version, routes);
    ReceiveWhole(bounds, view, Snapshot(version), entries);
  }

  /** The views of all versions stay within the model. */
  ghost predicate AllInModel(bounds: Bounds, known: map<nat, RouteMap>) {
    forall v :: v in known ==> RoutesInModel(bounds, known[v])
  }

  lemma RevisionInstalls(bounds: Bounds, known: map<nat, RouteMap>, r: Revision)
    requires RevisionOk(r, known) && AllInModel(bounds, known)
    ensures ReceiveAll(bounds, Client(None, View(r.previous, known[r.previous])), UpdateMessages(bounds.instance, r))
            == Ok(Client(None, View(r.version, known[r.version])))
  {
    var view := View(r.previous, known[r.previous]);
    assert KeysInModel(bounds, r.changes);
    WellFormedDecodes(bounds, r.changes, true);
    PartsFitModel(bounds, r.changes);
    UpdateIsParts(bounds.instance, r);
    ReceiveWhole(bounds, view, Update(r.previous, r.version), r.changes);
  }

  /** Following the kept revisions walks through issued views, whatever the starting version. */
  lemma {:induction false} FollowingInstalls(bounds: Bounds, known: map<nat, RouteMap>, history: seq<Revision>, version: nat)
    requires version in known && AllInModel(bounds, known)
    requires forall k :: 0 <= k < |history| ==> RevisionOk(history[k], known)
    ensures var (cursor, followed) := FollowHistory(history, version);
            && cursor in known
            && ReceiveAll(bounds, Client(None, View(version, known[version])), ConcatUpdates(bounds.instance, followed))
               == Ok(Client(None, View(cursor, known[cursor])))
    decreases |history|
  {
    if history != [] {
      var front := history[..|history| - 1];
      var last := history[|history| - 1];
      FollowingInstalls(bounds, known, front, version);
      var (cursor, followed) := FollowHistory(front, version);
      if last.previous == cursor {
        var more := followed + [last];
        assert more[..|more| - 1] == followed;
        var client := Client(None, View(version, known[version]));
        ReceiveConcat(bounds, client, ConcatUpdates(bounds.instance, followed), UpdateMessages(bounds.instance, last));
        RevisionInstalls(bounds, known, last);
      }
    }
  }

  lemma CurrentRoutesWellFormed(mem: Memory, instance: nat)
    requires Keyed(mem.workers) && RoutesExact(mem)
    ensures WellFormed(RouteList(Routes(mem, instance)))
  {
    var entries := RouteList(Routes(mem, instance));
    RouteListIsRoutes(Routes(mem, instance));
    forall j | 0 <= j < |entries| ensures entries[j].replicas == Replicas(mem.workers, instance, entries[j].key) {
      assert ReplicasAt(Routes(mem, instance), entries[j].key) == Replicas(mem.workers, instance, entries[j].key);
    }
    ComputedEntriesWellFormed(mem.workers, instance, entries);
  }

  /** A client holding any issued view that receives one call's messages is never rejected and ends
      with exactly the current version and routes, by deltas or by snapshot. */
  lemma ReplicationExact(mem: Memory, store: StoreState, issued: Issued, bounds: Bounds, version: nat)
    requires Inv(mem, store, issued) && version in Known(issued, bounds.instance)
    requires AllInModel(bounds, Known(issued, bounds.instance))
    ensures var instance := bounds.instance;
            var messages := TopologyMessages(mem, instance, version);
            && messages.Ok?
            && ReceiveAll(bounds, Client(None, View(version, Known(issued, instance)[version])), messages.value)
               == Ok(Client(None, View(Version(mem, instance), Routes(mem, instance))))
  {
    var instance := bounds.instance;
    var known := Known(issued, instance);
    var view := View(version, known[version]);
    VersionIsKnown(mem, store, issued, instance);
    CurrentRoutesWellFormed(mem, instance);
    assert NoEmptyRoute(Routes(mem, instance));
    if instance !in mem.topologies {
      SnapshotInstalls(bounds, view, 0, map[]);
    } else if version < mem.topologies[instance].version {
      var topology := mem.topologies[instance];
      assert TopologyOk(topology, known, mem.historyLimit);
      FollowingInstalls(bounds, known, topology.history, version);
      if FollowHistory(topology.history, version).0 != topology.version {
        SnapshotInstalls(bounds, view, topology.version, topology.routes);
      }
    }
  }

  // ---------------------------------------------------------------- which messages are sent

  /** A client ahead of the Controller is refused, one that is current gets nothing, and one without any
      view of an unknown instance gets an empty snapshot. */
  lemma MessagesAnswer(mem: Memory, instance: nat, current: nat)
    ensures var r := TopologyMessages(mem, instance, current);
            && (r.Err? <==> current > Version(mem, instance))
            && (r.Err? ==> r.error == FutureTopologyVersion(Version(mem, instance), current))
            && (instance in mem.topologies && current == Version(mem, instance) ==> r == Ok([]))
            && (instance !in mem.topologies && current == 0 ==> r == Ok([SnapshotPart(instance, 0, 0, 1, [])]))
  {
    if instance !in mem.topologies {
      var entries := RouteList(map[]);
      assert entries == [];
      assert SnapshotMessages(instance, 0, map[]) == [SnapshotPart(instance, 0, 0, 1, [])];
    }
  }

  ghost predicate Rising(history: seq<Revision>) {
    && (forall k :: 0 <= k < |history| ==> history[k].previous < history[k].version)
    && (forall k, n :: 0 <= k && n == k + 1 < |history| ==> history[k].version == history[n].previous)
  }

  lemma {:induction false} RisesTo(history: seq<Revision>, i: nat, j: nat)
    requires Rising(history) && i < j < |history|
    ensures history[i].previous < history[j].previous
    decreases j
  {
    assert history[j - 1].version == history[j].previous;
    if i < j - 1 { RisesTo(history, i, j - 1); }
  }

  /** Following the kept revisions picks up exactly those from the client's version on. */
  lemma {:induction false} FollowsFrom(history: seq<Revision>, current: nat, k: nat, n: nat)
    requires Rising(history) && k < |history| && history[k].previous == current && n <= |history|
    ensures FollowHistory(history[..n], current) == if n <= k then (current, []) else (history[n - 1].version, history[k..n])
    decreases n
  {
    if n > 0 {
      FollowsFrom(history, current, k, n - 1);
      assert history[..n][..n - 1] == history[..n - 1];
      if n - 1 < k {
        RisesTo(history, n - 1, k);
      } else if n - 1 > k {
        assert history[n - 2].version == history[n - 1].previous;
        assert history[k..n] == history[k..n - 1] + [history[n - 1]];
      } else {
        assert history[k..n] == [] + [history[n - 1]];
      }
    }
  }

  lemma {:induction false} FollowsNone(history: seq<Revision>, current: nat)
    requires forall k :: 0 <= k < |history| ==> history[k].previous != current
    ensures FollowHistory(history, current) == (current, [])
    decreases |history|
  {
    if history != [] { FollowsNone(history[..|history| - 1], current); }
  }

  lemma {:induction false} UpdatesOnly(instance: nat, revisions: seq<Revision>)
    ensures forall m :: m in ConcatUpdates(instance, revisions) ==> m.UpdatePart? && m.instance == instance
    decreases |revisions|
  {
    if revisions != [] {
      UpdatesOnly(instance, revisions[..|revisions| - 1]);
      var last := UpdateMessages(instance, revisions[|revisions| - 1]);
      assert forall m :: m in last ==> m.UpdatePart? && m.instance == instance;
    }
  }

  lemma KeptIsRising(mem: Memory, store: StoreState, issued: Issued, instance: nat)
    requires LogOk(mem, store, issued) && instance in mem.topologies
    ensures Rising(History(mem, instance))
    ensures var history := History(mem, instance); history != [] ==> history[|history| - 1].version == Version(mem, instance)
  {
    var history, known := History(mem, instance), Known(issued, instance);
    assert TopologyOk(mem.topologies[instance], known, mem.historyLimit);
    forall k | 0 <= k < |history| ensures history[k].previous < history[k].version { assert RevisionOk(history[k], known); }
  }

  /** A client whose version is still in the history gets only what changed since. */
  lemma UpdatesWhenKept(mem: Memory, store: StoreState, issued: Issued, instance: nat, current: nat, k: nat)
    requires LogOk(mem, store, issued) && instance in mem.topologies && current < Version(mem, instance)
    requires k < |History(mem, instance)| && History(mem, instance)[k].previous == current
    ensures TopologyMessages(mem, instance, current) == Ok(ConcatUpdates(instance, History(mem, instance)[k..]))
    ensures forall m :: m in ConcatUpdates(instance, History(mem, instance)[k..]) ==> m.UpdatePart? && m.instance == instance
  {
    var history := History(mem, instance);
    KeptIsRising(mem, store, issued, instance);
    FollowsFrom(history, current, k, |history|);
    assert history[..|history|] == history && history[k..|history|] == history[k..];
    UpdatesOnly(instance, history[k..]);
  }

  /** An older one gets the whole routes. */
  lemma SnapshotWhenNotKept(mem: Memory, instance: nat, current: nat)
    requires instance in mem.topologies && current < Version(mem, instance)
    requires forall k :: 0 <= k < |History(mem, instance)| ==> History(mem, instance)[k].previous != current
    ensures TopologyMessages(mem, instance, current) == Ok(SnapshotMessages(instance, Version(mem, instance), Routes(mem, instance)))
  {
    FollowsNone(History(mem, instance), current);
  }

  /** ... in every reachable state, over failed writes and restarts. */
  lemma ReachableReplicationExact(limit: nat, actions: seq<Action>, bounds: Bounds, version: nat)
    requires limit > 0 && Run(Boot(limit), actions).mem.Some?
    requires version in Known(Run(Boot(limit), actions).issued, bounds.instance)
    requires AllInModel(bounds, Known(Run(Boot(limit), actions).issued, bounds.instance))
    ensures var sys := Run(Boot(limit), actions);
            var mem, held := sys.mem.value, Known(sys.issued, bounds.instance)[version];
            var messages := TopologyMessages(mem, bounds.instance, version);
            && messages.Ok?
            && ReceiveAll(bounds, Client(None, View(version, held)), messages.value)
               == Ok(Client(None, View(Version(mem, bounds.instance), RecomputedRoutes(mem.workers, bounds.instance))))
  {
    BootIsOk(limit);
    RunKeepsOk(Boot(limit), actions);
    var sys := Run(Boot(limit), actions);
    ReplicationExact(sys.mem.value, sys.store, sys.issued, bounds, version);
    RouteIndexIsRecomputed(sys.mem.value, bounds.instance);
  }
}
