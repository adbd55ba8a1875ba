/** The version log: which route map every issued topology version names, and how the kept
    revisions lead from one to the next. */
module ControllerLog {
  import opened Topology
  import opened ControllerState
  import opened ControllerRoutes

  /** Every (instance, version) the Controller ever showed, over all its restarts. */
  type Issued = map<nat, map<nat, RouteMap>>

  function IssuedAt(issued: Issued, instance: nat): map<nat, RouteMap> {
    if instance in issued then issued[instance] else map[]
  }

  /** The views a client may hold: version 0 is the empty view before any message. */
  function Known(issued: Issued, instance: nat): map<nat, RouteMap> {
    IssuedAt(issued, instance)[0 := map[]]
  }

  /** After a step, the current version of every instance has been issued. */
  function Observe(issued: Issued, mem: Memory): Issued {
    map i | i in issued.Keys + mem.topologies.Keys ::
      if i in mem.topologies then IssuedAt(issued, i)[mem.topologies[i].version := mem.topologies[i].routes]
      else IssuedAt(issued, i)
  }

  /** Earlier names keep their meaning. */
  ghost predicate Extends(later: Issued, earlier: Issued) {
    forall i :: i in earlier ==> i in later && NamesKept(later[i], earlier[i])
  }

  ghost predicate NamesKept(later: map<nat, RouteMap>, earlier: map<nat, RouteMap>) {
    forall v :: v in earlier ==> v in later && later[v] == earlier[v]
  }

  // ---------------------------------------------------------------- well-formed entries

  ghost predicate ValidRoute(r: WorkerRoute) {
    && r.workerId != "" && r.startId != "" && r.endpoint != "" && r.device != ""
    && r.maxActive > 0 && r.maxPending > 0 && r.maxBatchTokens > 0
    && (r.transport == Grpc || r.transport == Shm)
  }

  ghost predicate ValidReplicas(replicas: seq<WorkerRoute>) {
    && (forall r :: r in replicas ==> ValidRoute(r))
    && (forall i, j :: 0 <= i < j < |replicas| ==> replicas[i].workerId != replicas[j].workerId)
  }

  /** Every replica names a valid process, a list names a process once, and all lists describe a
      process in the same way. */
  ghost predicate WellFormed(entries: seq<RouteEntry>) {
    && (forall a :: 0 <= a < |entries| ==> ValidReplicas(entries[a].replicas))
    && (forall a, b, r, q ::
          (0 <= a < |entries| && 0 <= b < |entries| && r in entries[a].replicas && q in entries[b].replicas
           && r.workerId == q.workerId) ==> r == q)
  }

  lemma ReplicaIsRecord(workers: Workers, instance: nat, key: ExpertKey, r: WorkerRoute)
    requires Keyed(workers) && r in Replicas(workers, instance, key)
    ensures ValidRoute(r) && r.workerId in workers && r == RouteOf(workers[r.workerId]) && Serves(workers[r.workerId], instance, key)
  {
    var ids := ServingList(workers, instance, key);
    var replicas := Replicas(workers, instance, key);
    var n :| 0 <= n < |replicas| && replicas[n] == r;
    assert r == RouteOf(workers[ids[n]]);
  }

  lemma ReplicasAreRecords(workers: Workers, instance: nat, key: ExpertKey)
    requires Keyed(workers)
    ensures ValidReplicas(Replicas(workers, instance, key))
    ensures forall r :: r in Replicas(workers, instance, key) ==>
              r.workerId in workers && r == RouteOf(workers[r.workerId]) && Serves(workers[r.workerId], instance, key)
  {
    var ids := ServingList(workers, instance, key);
    var replicas := Replicas(workers, instance, key);
    forall r | r in replicas
      ensures ValidRoute(r) && r.workerId in workers && r == RouteOf(workers[r.workerId]) && Serves(workers[r.workerId], instance, key)
    {
      ReplicaIsRecord(workers, instance, key, r);
    }
    forall i, j | 0 <= i < j < |replicas| ensures replicas[i].workerId != replicas[j].workerId {
      assert replicas[i] == RouteOf(workers[ids[i]]) && replicas[j] == RouteOf(workers[ids[j]]);
    }
  }

  lemma ComputedEntriesWellFormed(workers: Workers, instance: nat, entries: seq<RouteEntry>)
    requires Keyed(workers)
    requires forall j :: 0 <= j < |entries| ==> entries[j].replicas == Replicas(workers, instance, entries[j].key)
    ensures WellFormed(entries)
  {
    forall a | 0 <= a < |entries|
      ensures ValidReplicas(entries[a].replicas)
      ensures forall r :: r in entries[a].replicas ==> r.workerId in workers && r == RouteOf(workers[r.workerId])
    {
      ReplicasAreRecords(workers, instance, entries[a].key);
    }
  }

  // ---------------------------------------------------------------- the log

  ghost predicate RevisionOk(r: Revision, known: map<nat, RouteMap>) {
    && r.previous in known && r.version in known && r.previous < r.version
    && r.changes != [] && DistinctKeys(r.changes) && WellFormed(r.changes)
    && ApplyEntries(known[r.previous], r.changes) == known[r.version]
    && (forall j :: 0 <= j < |r.changes| ==> r.changes[j].key in known[r.previous] || r.changes[j].key in known[r.version])
  }

  ghost predicate Chained(history: seq<Revision>, version: nat) {
    && (forall k, n :: 0 <= k && n == k + 1 < |history| ==> history[k].version == history[n].previous)
    && (history != [] ==> history[|history| - 1].version == version)
  }

  ghost predicate TopologyOk(t: InstanceTopology, known: map<nat, RouteMap>, limit: nat) {
    && t.version >= 1 && t.version in known && known[t.version] == t.routes
    && (forall v :: v in known ==> v <= t.version)
    && |t.history| <= limit
    && Chained(t.history, t.version)
    && (forall k :: 0 <= k < |t.history| ==> RevisionOk(t.history[k], known))
  }

  ghost predicate PositiveVersions(issued: Issued) {
    forall i :: i in issued ==> 0 !in issued[i]
  }

  ghost predicate LogOk(mem: Memory, store: StoreState, issued: Issued) {
    && mem.historyLimit > 0
    && (forall i :: i in mem.topologies ==>
          TopologyOk(mem.topologies[i], Known(issued, i), mem.historyLimit) && mem.topologies[i].version <= StoredVersion(store, i))
    && PositiveVersions(issued)
    && (forall i :: i in issued ==> i in mem.topologies)
  }

  lemma VersionIsKnown(mem: Memory, store: StoreState, issued: Issued, i: nat)
    requires LogOk(mem, store, issued)
    ensures Version(mem, i) in Known(issued, i) && Known(issued, i)[Version(mem, i)] == Routes(mem, i)
    ensures forall v :: v in Known(issued, i) ==> v <= Version(mem, i)
    ensures Version(mem, i) <= StoredVersion(store, i)
  {
    if i !in mem.topologies {
      assert i !in issued;
    }
  }

  /** The current version of every instance has been issued, with its current routes. */
  ghost predicate AllIssued(mem: Memory, issued: Issued) {
    forall i :: i in mem.topologies ==>
                  && i in issued && mem.topologies[i].version in issued[i]
                  && issued[i][mem.topologies[i].version] == mem.topologies[i].routes
  }

  lemma CurrentIsIssued(mem: Memory, store: StoreState, issued: Issued)
    requires LogOk(mem, store, issued)
    ensures AllIssued(mem, issued)
  {
    forall i | i in mem.topologies
      ensures i in issued && mem.topologies[i].version in issued[i] && issued[i][mem.topologies[i].version] == mem.topologies[i].routes
    {
      assert TopologyOk(mem.topologies[i], Known(issued, i), mem.historyLimit);
    }
  }

  lemma ObserveIssued(mem: Memory, issued: Issued)
    requires AllIssued(mem, issued)
    ensures Observe(issued, mem) == issued
  {
    forall i | i in mem.topologies
      ensures IssuedAt(issued, i)[mem.topologies[i].version := mem.topologies[i].routes] == issued[i]
    {
      assert i in issued;
    }
    assert Observe(issued, mem).Keys == issued.Keys;
  }

  /** Observing a state whose versions were all issued before adds nothing. */
  lemma ObserveAgain(mem: Memory, store: StoreState, issued: Issued)
    requires LogOk(mem, store, issued)
    ensures Observe(issued, mem) == issued
  {
    CurrentIsIssued(mem, store, issued);
    ObserveIssued(mem, issued);
  }

  /** Memory after one instance moved to topology `t`. */
  function WithTopology(mem: Memory, instance: nat, t: InstanceTopology): Memory {
    mem.(topologies := mem.topologies[instance := t])
  }

  /** Publishing one instance adds one name, and touches no other instance. */
  lemma ObserveOne(mem: Memory, issued: Issued, instance: nat, t: InstanceTopology)
    requires Observe(issued, mem) == issued
    ensures OneMoreName(issued, Observe(issued, WithTopology(mem, instance, t)), instance, t.version, t.routes)
  {
    var again := Observe(issued, mem);
    var next := Observe(issued, WithTopology(mem, instance, t));
    assert again.Keys == issued.Keys + mem.topologies.Keys;
    forall i | i in issued && i != instance ensures next[i] == issued[i] {
      assert next[i] == again[i];
    }
  }

  /** `next` is `issued` with one more name for `instance`. */
  ghost predicate OneMoreName(issued: Issued, next: Issued, instance: nat, version: nat, routes: RouteMap) {
    && next.Keys == issued.Keys + {instance}
    && (forall i :: i in issued && i != instance ==> next[i] == issued[i])
    && next[instance] == IssuedAt(issued, instance)[version := routes]
  }

  lemma KnownAfterOne(issued: Issued, next: Issued, instance: nat, version: nat, routes: RouteMap)
    requires version >= 1 && OneMoreName(issued, next, instance, version, routes)
    ensures forall i :: i != instance ==> Known(next, i) == Known(issued, i)
    ensures Known(next, instance) == Known(issued, instance)[version := routes]
  {
  }

  lemma NamesKeptAfterOne(issued: Issued, next: Issued, instance: nat, version: nat, routes: RouteMap)
    requires version >= 1 && version !in IssuedAt(issued, instance)
    requires OneMoreName(issued, next, instance, version, routes) && PositiveVersions(issued)
    ensures Extends(next, issued) && PositiveVersions(next)
  {
    forall i | i in issued ensures i in next && NamesKept(next[i], issued[i]) {
      assert i != instance ==> next[i] == issued[i];
    }
    forall i | i in next ensures 0 !in next[i] {
      assert i != instance ==> next[i] == issued[i];
    }
  }

  lemma RevisionOkGrows(r: Revision, known: map<nat, RouteMap>, version: nat, routes: RouteMap)
    requires RevisionOk(r, known) && version !in known
    ensures RevisionOk(r, known[version := routes])
  {
    var more := known[version := routes];
    assert more[r.previous] == known[r.previous] && more[r.version] == known[r.version];
  }

  lemma NewRevisionOk(changes: seq<RouteEntry>, known: map<nat, RouteMap>, previous: nat, version: nat)
    requires changes != [] && DistinctKeys(changes) && WellFormed(changes)
    requires previous in known && previous < version && version !in known
    requires forall j :: 0 <= j < |changes| ==> changes[j].replicas != ReplicasAt(known[previous], changes[j].key)
    ensures RevisionOk(Revision(previous, version, changes), known[version := ApplyEntries(known[previous], changes)])
  {
    var before := known[previous];
    var after := ApplyEntries(before, changes);
    var more := known[version := after];
    assert more[previous] == before && more[version] == after;
    forall j | 0 <= j < |changes| ensures changes[j].key in before || changes[j].key in after {
      ApplyEntriesAt(before, changes, changes[j].key);
    }
  }

  lemma PublishedWellFormed(mem: Memory, instance: nat, affected: set<ExpertKey>)
    requires Keyed(mem.workers)
    ensures WellFormed(Published(mem, instance, affected))
  {
    PublishedSound(mem, instance, affected);
    var changes := Published(mem, instance, affected);
    forall j | 0 <= j < |changes| ensures changes[j].replicas == Replicas(mem.workers, instance, changes[j].key) {
      assert ChangeSound(mem, instance, changes[j]);
    }
    ComputedEntriesWellFormed(mem.workers, instance, changes);
  }

  lemma PublishedRevisionOk(mem: Memory, instance: nat, affected: set<ExpertKey>, known: map<nat, RouteMap>,
                            previous: nat, version: nat)
    requires Keyed(mem.workers)
    requires Published(mem, instance, affected) != []
    requires previous in known && known[previous] == Routes(mem, instance) && previous < version && version !in known
    ensures var changes := Published(mem, instance, affected);
            RevisionOk(Revision(previous, version, changes), known[version := ApplyEntries(Routes(mem, instance), changes)])
  {
    var changes := Published(mem, instance, affected);
    PublishedWellFormed(mem, instance, affected);
    assert DistinctKeys(changes) && forall j :: 0 <= j < |changes| ==> ChangeSound(mem, instance, changes[j]) by {
      PublishedSound(mem, instance, affected);
    }
    NewRevisionOk(changes, known, previous, version);
  }

  lemma {:induction false} TrimKeepsChain(longer: seq<Revision>, version: nat, limit: nat)
    requires Chained(longer, version) && limit > 0
    ensures Chained(TrimHistory(longer, limit), version)
    ensures forall r :: r in TrimHistory(longer, limit) ==> r in longer
    decreases |longer|
  {
    if |longer| > limit {
      var tail := longer[1..];
      forall k, n | 0 <= k && n == k + 1 < |tail| ensures tail[k].version == tail[n].previous {
        assert tail[k] == longer[n] && tail[n] == longer[n + 1];
      }
      assert tail[|tail| - 1] == longer[|longer| - 1];
      TrimKeepsChain(tail, version, limit);
    }
  }

  lemma ExtendTopology(history: seq<Revision>, previous: nat, r: Revision, known: map<nat, RouteMap>, routes: RouteMap, limit: nat)
    requires limit > 0
    requires Chained(history, previous) && (forall k :: 0 <= k < |history| ==> RevisionOk(history[k], known))
    requires forall v :: v in known ==> v <= previous
    requires r.previous == previous && r.version > previous && RevisionOk(r, known[r.version := routes])
    ensures TopologyOk(InstanceTopology(r.version, routes, TrimHistory(history + [r], limit)), known[r.version := routes], limit)
  {
    var longer := history + [r];
    assert Chained(longer, r.version);
    TrimKeepsChain(longer, r.version, limit);
    var trimmed := TrimHistory(longer, limit);
    forall k | 0 <= k < |trimmed| ensures RevisionOk(trimmed[k], known[r.version := routes]) {
      assert trimmed[k] in trimmed;
      if trimmed[k] in history {
        var n :| 0 <= n < |history| && history[n] == trimmed[k];
        RevisionOkGrows(history[n], known, r.version, routes);
      } else {
        assert trimmed[k] == r;
      }
    }
  }

  lemma PublishTopology(mem: Memory, store: StoreState, issued: Issued, instance: nat, affected: set<ExpertKey>, reply: StoreReply)
    requires LogOk(mem, store, issued) && Keyed(mem.workers)
    ensures var p := Publish(mem, store, instance, affected, reply);
            p.reply == Ok(true) ==>
              && instance in p.mem.topologies
              && p.mem == WithTopology(mem, instance, p.mem.topologies[instance])
              && p.mem.topologies[instance].version > Version(mem, instance)
              && p.mem.topologies[instance].version <= StoredVersion(p.store, instance)
              && TopologyOk(p.mem.topologies[instance],
                            Known(issued, instance)[p.mem.topologies[instance].version := p.mem.topologies[instance].routes],
                            mem.historyLimit)
  {
    var p := Publish(mem, store, instance, affected, reply);
    if p.reply == Ok(true) {
      var known := Known(issued, instance);
      var changes := Published(mem, instance, affected);
      var previous := Version(mem, instance);
      var t := p.mem.topologies[instance];
      VersionIsKnown(mem, store, issued, instance);
      PublishedRevisionOk(mem, instance, affected, known, previous, t.version);
      ExtendTopology(History(mem, instance), previous, Revision(previous, t.version, changes), known, t.routes, mem.historyLimit);
    }
  }

  lemma StoredVersionsGrow(mem: Memory, store: StoreState, instance: nat, affected: set<ExpertKey>, reply: StoreReply)
    ensures forall i :: StoredVersion(store, i) <= StoredVersion(Publish(mem, store, instance, affected, reply).store, i)
  {
  }

  lemma LogWithLargerStore(mem: Memory, store: StoreState, larger: StoreState, issued: Issued)
    requires LogOk(mem, store, issued)
    requires forall i :: StoredVersion(store, i) <= StoredVersion(larger, i)
    ensures LogOk(mem, larger, issued)
  {
  }

  /** Going from `before` to `after` adds at most one name, for `instance`. */
  ghost predicate LogStep(issued: Issued, after: Memory, store: StoreState, instance: nat) {
    && LogOk(after, store, Observe(issued, after))
    && Extends(Observe(issued, after), issued)
    && (forall i :: i != instance ==> Known(Observe(issued, after), i) == Known(issued, i))
    && Known(Observe(issued, after), instance) == Known(issued, instance)[Version(after, instance) := Routes(after, instance)]
  }

  /** A version beyond the current one has never been issued. */
  lemma FreshName(mem: Memory, store: StoreState, issued: Issued, instance: nat, version: nat)
    requires LogOk(mem, store, issued) && Version(mem, instance) < version
    ensures version !in IssuedAt(issued, instance)
  {
    VersionIsKnown(mem, store, issued, instance);
    assert IssuedAt(issued, instance).Keys <= Known(issued, instance).Keys;
  }

  /** Every other instance is as it was. */
  lemma AddedTopology(mem: Memory, store: StoreState, issued: Issued, next: Issued, instance: nat, t: InstanceTopology, i: nat)
    requires LogOk(mem, store, issued) && t.version <= StoredVersion(store, instance)
    requires TopologyOk(t, Known(next, instance), mem.historyLimit)
    requires i != instance ==> i in mem.topologies && Known(next, i) == Known(issued, i)
    ensures var u := if i == instance then t else mem.topologies[i];
            TopologyOk(u, Known(next, i), mem.historyLimit) && u.version <= StoredVersion(store, i)
  {
    if i != instance { assert TopologyOk(mem.topologies[i], Known(issued, i), mem.historyLimit); }
  }

  lemma AddedLog(mem: Memory, store: StoreState, issued: Issued, next: Issued, instance: nat, t: InstanceTopology)
    requires LogOk(mem, store, issued) && t.version <= StoredVersion(store, instance)
    requires TopologyOk(t, Known(next, instance), mem.historyLimit) && PositiveVersions(next)
    requires next.Keys == issued.Keys + {instance} && forall i :: i != instance ==> Known(next, i) == Known(issued, i)
    ensures LogOk(WithTopology(mem, instance, t), store, next)
  {
    var after := WithTopology(mem, instance, t);
    forall i | i in after.topologies
      ensures TopologyOk(after.topologies[i], Known(next, i), after.historyLimit) && after.topologies[i].version <= StoredVersion(store, i)
    {
      AddedTopology(mem, store, issued, next, instance, t, i);
    }
  }

  /** Moving one instance to a fresh version adds exactly that name to the log. */
  lemma AddName(mem: Memory, store: StoreState, issued: Issued, instance: nat, t: InstanceTopology)
    requires LogOk(mem, store, issued)
    requires Version(mem, instance) < t.version <= StoredVersion(store, instance)
    requires TopologyOk(t, Known(issued, instance)[t.version := t.routes], mem.historyLimit)
    ensures LogStep(issued, WithTopology(mem, instance, t), store, instance)
  {
    var next := Observe(issued, WithTopology(mem, instance, t));
    ObserveAgain(mem, store, issued);
    ObserveOne(mem, issued, instance, t);
    KnownAfterOne(issued, next, instance, t.version, t.routes);
    FreshName(mem, store, issued, instance, t.version);
    NamesKeptAfterOne(issued, next, instance, t.version, t.routes);
    AddedLog(mem, store, issued, next, instance, t);
  }

  /** A publication that fails, or finds nothing to change, changes no name. */
  lemma PublishQuietly(mem: Memory, store: StoreState, issued: Issued, instance: nat, affected: set<ExpertKey>, reply: StoreReply)
    requires LogOk(mem, store, issued)
    ensures LogOk(mem, Publish(mem, store, instance, affected, reply).store, issued)
    ensures Publish(mem, store, instance, affected, reply).reply == Ok(false) ==> Observe(issued, mem) == issued
  {
    StoredVersionsGrow(mem, store, instance, affected, reply);
    LogWithLargerStore(mem, store, Publish(mem, store, instance, affected, reply).store, issued);
    ObserveAgain(mem, store, issued);
  }

  lemma ExtendsItself(issued: Issued)
    ensures Extends(issued, issued)
  {
  }

  lemma PutSame(known: map<nat, RouteMap>, version: nat, routes: RouteMap)
    requires version in known && known[version] == routes
    ensures known == known[version := routes]
  {
  }

  lemma NoNewName(mem: Memory, store: StoreState, issued: Issued, instance: nat)
    requires LogOk(mem, store, issued)
    ensures LogStep(issued, mem, store, instance)
  {
    ObserveAgain(mem, store, issued);
    VersionIsKnown(mem, store, issued, instance);
    ExtendsItself(issued);
    PutSame(Known(issued, instance), Version(mem, instance), Routes(mem, instance));
  }

  lemma PublishAddsName(mem: Memory, store: StoreState, issued: Issued, instance: nat, affected: set<ExpertKey>, reply: StoreReply)
    requires LogOk(mem, store, issued) && Keyed(mem.workers)
    requires Publish(mem, store, instance, affected, reply).reply == Ok(true)
    ensures var p := Publish(mem, store, instance, affected, reply);
            LogStep(issued, p.mem, p.store, instance)
  {
    var p := Publish(mem, store, instance, affected, reply);
    PublishQuietly(mem, store, issued, instance, affected, reply);
    PublishTopology(mem, store, issued, instance, affected, reply);
    AddName(mem, p.store, issued, instance, p.mem.topologies[instance]);
  }

  lemma PublishNoName(mem: Memory, store: StoreState, issued: Issued, instance: nat, affected: set<ExpertKey>, reply: StoreReply)
    requires LogOk(mem, store, issued)
    requires Publish(mem, store, instance, affected, reply).reply == Ok(false)
    ensures var p := Publish(mem, store, instance, affected, reply);
            LogStep(issued, p.mem, p.store, instance)
  {
    var p := Publish(mem, store, instance, affected, reply);
    PublishQuietly(mem, store, issued, instance, affected, reply);
    NoNewName(mem, p.store, issued, instance);
    assert p.mem == mem;
  }

  /** A successful publication adds at most one name, and it is fresh. */
  lemma PublishKeepsLog(mem: Memory, store: StoreState, issued: Issued, instance: nat, affected: set<ExpertKey>, reply: StoreReply)
    requires LogOk(mem, store, issued) && Keyed(mem.workers)
    ensures var p := Publish(mem, store, instance, affected, reply);
            p.reply.Ok? ==> LogStep(issued, p.mem, p.store, instance)
  {
    var p := Publish(mem, store, instance, affected, reply);
    if p.reply == Ok(true) {
      PublishAddsName(mem, store, issued, instance, affected, reply);
    } else if p.reply == Ok(false) {
      PublishNoName(mem, store, issued, instance, affected, reply);
    }
  }
}
