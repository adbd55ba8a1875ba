/** The Frontend's assembly of multipart topology messages. */
module TopologyAssembler {
  import opened Topology
  import opened ControlParts

  datatype ProtocolError =
    | WrongInstance | BadPart | TooManyEntries | TooManyParts | Interleaved | RepeatedPart
    | OutOfBounds | RepeatedRoute | InvalidReplica | RepeatedWorker | InconsistentWorker | EmptyRoute
    | VersionBackwards | RoutesAtVersionZero | ConflictingSnapshot | NotJoined | EmptyUpdate

  /** The requested instance and the shape of its model. */
  datatype Bounds = Bounds(instance: nat, layers: nat, experts: nat)

  datatype Header = Snapshot(version: nat) | Update(previous: nat, version: nat)

  datatype Pending = Pending(header: Header, count: nat, parts: map<nat, seq<RouteEntry>>)

  /** A complete routing view. */
  datatype View = View(version: nat, routes: RouteMap)

  datatype Identity = Identity(workerId: string, startId: string)

  datatype Decoded = Decoded(routes: RouteMap, metadata: map<Identity, WorkerRoute>)

  function IdentityOf(r: WorkerRoute): Identity { Identity(r.workerId, r.startId) }

  predicate WireValid(r: WorkerRoute) {
    && r.workerId != "" && r.startId != "" && r.endpoint != "" && r.device != ""
    && r.maxActive > 0 && r.maxPending > 0 && r.maxBatchTokens > 0
    && (r.transport == Grpc || r.transport == Shm)
  }

  function Identities(replicas: seq<WorkerRoute>): set<Identity> {
    set i | 0 <= i < |replicas| :: IdentityOf(replicas[i])
  }

  /** Check the replicas of one route against the processes described so far. */
  function DecodeReplicas(replicas: seq<WorkerRoute>, metadata: map<Identity, WorkerRoute>)
    : Result<map<Identity, WorkerRoute>, ProtocolError>
  {
    if replicas == [] then Ok(metadata) else
    var front := replicas[..|replicas| - 1];
    var before := DecodeReplicas(front, metadata);
    if before.Err? then before else CheckReplica(front, before.value, replicas[|replicas| - 1])
  }

  function CheckReplica(front: seq<WorkerRoute>, metadata: map<Identity, WorkerRoute>, r: WorkerRoute)
    : Result<map<Identity, WorkerRoute>, ProtocolError>
  {
    var id := IdentityOf(r);
    if !WireValid(r) then Err(InvalidReplica)
    else if id in Identities(front) then Err(RepeatedWorker)
    else if id in metadata && metadata[id] != r then Err(InconsistentWorker)
    else Ok(metadata[id := r])
  }

  predicate InModel(bounds: Bounds, key: ExpertKey) {
    key.layer < bounds.layers && key.expert < bounds.experts
  }

  function DecodeEntry(bounds: Bounds, before: Decoded, entry: RouteEntry, allowEmpty: bool): Result<Decoded, ProtocolError> {
    if !InModel(bounds, entry.key) then Err(OutOfBounds)
    else if entry.key in before.routes then Err(RepeatedRoute)
    else
      var metadata := DecodeReplicas(entry.replicas, before.metadata);
      if metadata.Err? then Err(metadata.error)
      else if entry.replicas == [] && !allowEmpty then Err(EmptyRoute)
      else Ok(Decoded(before.routes[entry.key := entry.replicas], metadata.value))
  }

  function DecodeEntries(bounds: Bounds, entries: seq<RouteEntry>, allowEmpty: bool): Result<Decoded, ProtocolError> {
    if entries == [] then Ok(Decoded(map[], map[])) else
    var before := DecodeEntries(bounds, entries[..|entries| - 1], allowEmpty);
    if before.Err? then before else DecodeEntry(bounds, before.value, entries[|entries| - 1], allowEmpty)
  }

  /** The retained parts in index order. */
  function Joined(parts: map<nat, seq<RouteEntry>>, count: nat): seq<RouteEntry> {
    Flatten(seq(count, i requires 0 <= i < count => if i in parts then parts[i] else []))
  }

  /** A complete message against the installed view. */
  function Complete(bounds: Bounds, header: Header, entries: seq<RouteEntry>, installed: View): Result<View, ProtocolError> {
    match header
    case Snapshot(version) =>
      var decoded := DecodeEntries(bounds, entries, false);
      if decoded.Err? then Err(decoded.error)
      else if version < installed.version then Err(VersionBackwards)
      else if decoded.value.routes != map[] && version == 0 then Err(RoutesAtVersionZero)
      else if version == installed.version && decoded.value.routes != installed.routes then Err(ConflictingSnapshot)
      else Ok(View(version, decoded.value.routes))
    case Update(previous, version) =>
      if previous != installed.version || version <= previous then Err(NotJoined)
      else if entries == [] then Err(EmptyUpdate)
      else
        var decoded := DecodeEntries(bounds, entries, true);
        if decoded.Err? then Err(decoded.error)
        else Ok(View(version, ApplyEntries(installed.routes, entries)))
  }

  function MaxParts(bounds: Bounds): nat { PartCount(bounds.layers * bounds.experts) }

  function ConsumePart(bounds: Bounds, pending: Option<Pending>, header: Header, index: nat, count: nat,
                       entries: seq<RouteEntry>, installed: View): (Option<Pending>, Result<Option<View>, ProtocolError>)
  {
    if count == 0 || index >= count then (pending, Err(BadPart))
    else if |entries| > MAX_ENTRIES_PER_PART then (pending, Err(TooManyEntries))
    else if count > MaxParts(bounds) then (pending, Err(TooManyParts))
    else if pending.Some? && (pending.value.header != header || pending.value.count != count) then (pending, Err(Interleaved))
    else
      var parts := if pending.Some? then pending.value.parts else map[];
      if index in parts then (pending, Err(RepeatedPart)) else
      var grown := parts[index := entries];
      if |grown| != count then (Some(Pending(header, count, grown)), Ok(None)) else
      var view := Complete(bounds, header, Joined(grown, count), installed);
      (None, if view.Err? then Err(view.error) else Ok(Some(view.value)))
  }

  /** One message: a complete view, nothing yet, or a protocol error. */
  function Consume(bounds: Bounds, pending: Option<Pending>, message: Message, installed: View)
    : (Option<Pending>, Result<Option<View>, ProtocolError>)
  {
    if message.instance != bounds.instance then (pending, Err(WrongInstance)) else
    match message
    case SnapshotPart(_, version, index, count, routes) =>
      ConsumePart(bounds, pending, Snapshot(version), index, count, routes, installed)
    case UpdatePart(_, previous, version, index, count, changes) =>
      ConsumePart(bounds, pending, Update(previous, version), index, count, changes, installed)
  }

  // ---------------------------------------------------------------- the assembler object

  class TopologyMessageAssembler {
    const bounds: Bounds
    var pending: Option<Pending>

    /** Retained parts carry indexes of their message. */
    ghost predicate Valid() reads this {
      pending.Some? ==> forall i :: i in pending.value.parts ==> i < pending.value.count
    }

    constructor (bounds: Bounds)
      ensures Valid() && pending == None && this.bounds == bounds
    {
      this.bounds := bounds;
      pending := None;
    }

    method DiscardIncomplete()
      modifies this
      ensures Valid() && pending == None
    {
      pending := None;
    }

    /** Loop over the routes, keeping the decoded map and the described processes. */
    method DecodeRoutes(entries: seq<RouteEntry>, allowEmpty: bool) returns (r: Result<Decoded, ProtocolError>)
      ensures r == DecodeEntries(bounds, entries, allowEmpty)
    {
      var decoded: RouteMap := map[];
      var metadata: map<Identity, WorkerRoute> := map[];
      var n := 0;
      while n < |entries|
        invariant 0 <= n <= |entries|
        invariant DecodeEntries(bounds, entries[..n], allowEmpty) == Ok(Decoded(decoded, metadata))
      {
        var entry := entries[n];
        assert entries[..n + 1][..n] == entries[..n];
        if !InModel(bounds, entry.key) {
          StopsAt(bounds, entries, n, allowEmpty);
          return Err(OutOfBounds);
        }
        if entry.key in decoded {
          StopsAt(bounds, entries, n, allowEmpty);
          return Err(RepeatedRoute);
        }
        var checked := DecodeRouteReplicas(entry.replicas, metadata);
        if checked.Err? {
          StopsAt(bounds, entries, n, allowEmpty);
          return Err(checked.error);
        }
        if entry.replicas == [] && !allowEmpty {
          StopsAt(bounds, entries, n, allowEmpty);
          return Err(EmptyRoute);
        }
        decoded, metadata := decoded[entry.key := entry.replicas], checked.value;
        n := n + 1;
      }
      assert entries[..n] == entries;
      return Ok(Decoded(decoded, metadata));
    }

    method DecodeRouteReplicas(replicas: seq<WorkerRoute>, described: map<Identity, WorkerRoute>)
      returns (r: Result<map<Identity, WorkerRoute>, ProtocolError>)
      ensures r == DecodeReplicas(replicas, described)
    {
      var metadata := described;
      var identities: set<Identity> := {};
      var n := 0;
      while n < |replicas|
        invariant 0 <= n <= |replicas|
        invariant identities == Identities(replicas[..n])
        invariant DecodeReplicas(replicas[..n], described) == Ok(metadata)
      {
        var replica := replicas[n];
        var id := IdentityOf(replica);
        assert replicas[..n + 1][..n] == replicas[..n];
        if !WireValid(replica) {
          ReplicasStopAt(replicas, described, n);
          return Err(InvalidReplica);
        }
        if id in identities {
          ReplicasStopAt(replicas, described, n);
          return Err(RepeatedWorker);
        }
        identities := identities + {id};
        if id in metadata && metadata[id] != replica {
          ReplicasStopAt(replicas, described, n);
          return Err(InconsistentWorker);
        }
        metadata := metadata[id := replica];
        n := n + 1;
      }
      assert replicas[..n] == replicas;
      return Ok(metadata);
    }

    method ApplyUpdate(entries: seq<RouteEntry>, installed: RouteMap) returns (routes: RouteMap)
      ensures routes == ApplyEntries(installed, entries)
    {
      routes := installed;
      for n := 0 to |entries|
        invariant routes == ApplyEntries(installed, entries[..n])
      {
        assert entries[..n + 1][..n] == entries[..n];
        if entries[n].replicas != [] {
          routes := routes[entries[n].key := entries[n].replicas];
        } else {
          routes := routes - {entries[n].key};
        }
      }
      assert entries[..|entries|] == entries;
    }

    /** Retain a part, or finish its message against the installed view. */
    method ConsumeMessage(message: Message, installed: View) returns (r: Result<Option<View>, ProtocolError>)
      requires Valid()
      modifies this
      ensures Valid()
      ensures (pending, r) == Consume(bounds, old(pending), message, installed)
    {
      if message.instance != bounds.instance { return Err(WrongInstance); }
      var header := match message
        case SnapshotPart(_, version, _, _, _) => Snapshot(version)
        case UpdatePart(_, previous, version, _, _, _) => Update(previous, version);
      var entries := match message
        case SnapshotPart(_, _, _, _, routes) => routes
        case UpdatePart(_, _, _, _, _, changes) => changes;
      var index, count := message.index, message.count;
      if count == 0 || index >= count { return Err(BadPart); }
      if |entries| > MAX_ENTRIES_PER_PART { return Err(TooManyEntries); }
      if count > MaxParts(bounds) { return Err(TooManyParts); }
      var parts: map<nat, seq<RouteEntry>> := map[];
      if pending.Some? {
        if pending.value.header != header || pending.value.count != count { return Err(Interleaved); }
        parts := pending.value.parts;
      }
      if index in parts { return Err(RepeatedPart); }
      parts := parts[index := entries];
      if |parts| != count {
        pending := Some(Pending(header, count, parts));
        return Ok(None);
      }
      pending := None;
      assert forall i :: 0 <= i < count ==> i in parts by { CountedIndexes(parts.Keys, count); }
      var ordered := Flatten(seq(count, i requires 0 <= i < count => parts[i]));
      assert seq(count, i requires 0 <= i < count => parts[i])
          == seq(count, i requires 0 <= i < count => if i in parts then parts[i] else []);
      match header {
        case Snapshot(version) =>
          var decoded := DecodeRoutes(ordered, false);
          if decoded.Err? { return Err(decoded.error); }
          if version < installed.version { return Err(VersionBackwards); }
          if decoded.value.routes != map[] && version == 0 { return Err(RoutesAtVersionZero); }
          if version == installed.version && decoded.value.routes != installed.routes { return Err(ConflictingSnapshot); }
          return Ok(Some(View(version, decoded.value.routes)));
        case Update(previous, version) =>
          if previous != installed.version || version <= previous { return Err(NotJoined); }
          if ordered == [] { return Err(EmptyUpdate); }
          var decoded := DecodeRoutes(ordered, true);
          if decoded.Err? { return Err(decoded.error); }
          var routes := ApplyUpdate(ordered, installed.routes);
          return Ok(Some(View(version, routes)));
      }
    }
  }

  /** An error met at one entry is the answer for the whole list. */
  lemma {:induction false} StopsAt(bounds: Bounds, entries: seq<RouteEntry>, n: nat, allowEmpty: bool)
    requires n < |entries| && DecodeEntries(bounds, entries[..n], allowEmpty).Ok?
    requires DecodeEntry(bounds, DecodeEntries(bounds, entries[..n], allowEmpty).value, entries[n], allowEmpty).Err?
    ensures DecodeEntries(bounds, entries, allowEmpty)
            == DecodeEntry(bounds, DecodeEntries(bounds, entries[..n], allowEmpty).value, entries[n], allowEmpty)
    decreases |entries|
  {
    var front := entries[..|entries| - 1];
    if n < |front| {
      assert front[..n] == entries[..n];
      StopsAt(bounds, front, n, allowEmpty);
    }
  }

  lemma {:induction false} ReplicasStopAt(replicas: seq<WorkerRoute>, metadata: map<Identity, WorkerRoute>, n: nat)
    requires n < |replicas| && DecodeReplicas(replicas[..n], metadata).Ok?
    requires CheckReplica(replicas[..n], DecodeReplicas(replicas[..n], metadata).value, replicas[n]).Err?
    ensures DecodeReplicas(replicas, metadata) == CheckReplica(replicas[..n], DecodeReplicas(replicas[..n], metadata).value, replicas[n])
    decreases |replicas|
  {
    var front := replicas[..|replicas| - 1];
    if n < |front| {
      assert front[..n] == replicas[..n];
      ReplicasStopAt(front, metadata, n);
    }
  }
}
