/** Expert routes as the Controller publishes them and the Frontend installs them. */
module Topology {
  import opened Ordering

  datatype Option<+T> = None | Some(value: T)

  datatype Result<+T, +E> = Ok(value: T) | Err(error: E)

  /** One routed expert of one model layer. */
  datatype ExpertKey = ExpertKey(layer: nat, expert: nat)

  predicate KeyLe(a: ExpertKey, b: ExpertKey) {
    a.layer < b.layer || (a.layer == b.layer && a.expert <= b.expert)
  }

  lemma KeyOrder()
    ensures TotalOrder(KeyLe)
  {
  }

  /** A set of experts, in expert order. */
  function SortedKeys(keys: set<ExpertKey>): (r: seq<ExpertKey>)
    ensures forall key :: key in r <==> key in keys
    ensures forall i :: 0 <= i < |r| ==> r[i] in keys
    ensures forall i, j :: 0 <= i < j < |r| ==> r[i] != r[j]
    ensures |r| == |keys|
  {
    KeyOrder();
    var r := SortSet(keys, KeyLe);
    assert forall i :: 0 <= i < |r| ==> r[i] in r;
    r
  }

  datatype Transport = UnspecifiedTransport | Grpc | Shm

  /** Connection and admission data of one Worker process. */
  datatype WorkerRoute = WorkerRoute(
    workerId: string, startId: string, endpoint: string, device: string,
    maxActive: nat, maxPending: nat, maxBatchTokens: nat, transport: Transport)

  /** One expert with its replicas.  A snapshot lists routed experts; in an update an empty
      replica list withdraws the route. */
  datatype RouteEntry = RouteEntry(key: ExpertKey, replicas: seq<WorkerRoute>)

  type RouteMap = map<ExpertKey, seq<WorkerRoute>>

  function ReplicasAt(routes: RouteMap, key: ExpertKey): seq<WorkerRoute> {
    if key in routes then routes[key] else []
  }

  ghost predicate NoEmptyRoute(routes: RouteMap) {
    forall key :: key in routes ==> routes[key] != []
  }

  /** No replica of any of `keys` is the process `(workerId, startId)`. */
  ghost predicate NotRoutedTo(routes: RouteMap, keys: set<ExpertKey>, workerId: string, startId: string) {
    forall key, r :: key in keys && r in ReplicasAt(routes, key) ==> r.workerId != workerId || r.startId != startId
  }

  ghost predicate NeverRoutedTo(routes: RouteMap, workerId: string, startId: string) {
    forall key, r :: r in ReplicasAt(routes, key) ==> r.workerId != workerId || r.startId != startId
  }

  function ApplyEntry(routes: RouteMap, entry: RouteEntry): RouteMap {
    if entry.replicas == [] then routes - {entry.key} else routes[entry.key := entry.replicas]
  }

  function ApplyEntries(routes: RouteMap, entries: seq<RouteEntry>): RouteMap {
    if entries == [] then routes
    else ApplyEntry(ApplyEntries(routes, entries[..|entries| - 1]), entries[|entries| - 1])
  }

  ghost predicate DistinctKeys(entries: seq<RouteEntry>) {
    forall i, j :: 0 <= i < j < |entries| ==> entries[i].key != entries[j].key
  }

  /** What a batch of changes does to one expert. */
  lemma {:induction false} ApplyEntriesAt(routes: RouteMap, entries: seq<RouteEntry>, key: ExpertKey)
    requires DistinctKeys(entries)
    ensures forall j :: 0 <= j < |entries| && entries[j].key == key ==>
                          ReplicasAt(ApplyEntries(routes, entries), key) == entries[j].replicas
    ensures (forall j :: 0 <= j < |entries| ==> entries[j].key != key) ==>
              ReplicasAt(ApplyEntries(routes, entries), key) == ReplicasAt(routes, key)
    decreases |entries|
  {
    if entries != [] {
      var front := entries[..|entries| - 1];
      ApplyEntriesAt(routes, front, key);
      assert forall j :: 0 <= j < |front| ==> front[j] == entries[j];
    }
  }

  lemma {:induction false} ApplyEntriesNoEmpty(routes: RouteMap, entries: seq<RouteEntry>)
    requires NoEmptyRoute(routes)
    ensures NoEmptyRoute(ApplyEntries(routes, entries))
    decreases |entries|
  {
    if entries != [] {
      ApplyEntriesNoEmpty(routes, entries[..|entries| - 1]);
    }
  }

  /** Route maps without empty lists are determined by the replicas of each expert. */
  lemma SameReplicasSameRoutes(a: RouteMap, b: RouteMap)
    requires NoEmptyRoute(a) && NoEmptyRoute(b)
    requires forall key :: ReplicasAt(a, key) == ReplicasAt(b, key)
    ensures a == b
  {
    forall key ensures key in a <==> key in b {
      assert ReplicasAt(a, key) == ReplicasAt(b, key);
    }
    forall key | key in a ensures a[key] == b[key] {
      assert ReplicasAt(a, key) == ReplicasAt(b, key);
    }
  }

  /** One message of the topology stream. */
  datatype Message =
    | SnapshotPart(instance: nat, version: nat, index: nat, count: nat, routes: seq<RouteEntry>)
    | UpdatePart(instance: nat, previous: nat, version: nat, index: nat, count: nat, changes: seq<RouteEntry>)
}
