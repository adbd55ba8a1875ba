/** The incrementally maintained route index against the index recomputed from every record. */
module ControllerRoutes {
  import opened Ordering
  import opened Topology
  import opened ControllerState

  type Workers = map<string, WorkerRecord>

  /** Records are stored under their own identifier and hold a valid registration. */
  ghost predicate Keyed(workers: Workers) {
    forall w :: w in workers ==> workers[w].registration.workerId == w && ValidRegistration(workers[w].registration)
  }

  ghost predicate NoEmptyRoutes(mem: Memory) {
    forall i :: NoEmptyRoute(Routes(mem, i))
  }

  /** Stored replicas equal recomputed replicas, except possibly for `affected` experts of `instance`. */
  ghost predicate SettledExcept(mem: Memory, instance: nat, affected: set<ExpertKey>) {
    forall i, key :: i != instance || key !in affected ==>
      ReplicasAt(Routes(mem, i), key) == Replicas(mem.workers, i, key)
  }

  ghost predicate RoutesExact(mem: Memory) {
    && NoEmptyRoutes(mem)
    && forall i, key :: ReplicasAt(Routes(mem, i), key) == Replicas(mem.workers, i, key)
  }

  /** The whole route map of an instance, computed from scratch. */
  ghost function RecomputedRoutes(workers: Workers, instance: nat): RouteMap {
    map key | key in (set w, k | w in workers && k in workers[w].targets :: k) &&
              Replicas(workers, instance, key) != [] :: Replicas(workers, instance, key)
  }

  lemma ReplicaMembers(workers: Workers, instance: nat, key: ExpertKey)
    ensures forall r :: r in Replicas(workers, instance, key) <==>
              exists w :: w in workers && Serves(workers[w], instance, key) && r == RouteOf(workers[w])
  {
    var ids := ServingList(workers, instance, key);
    var replicas := Replicas(workers, instance, key);
    forall r | r in replicas
      ensures exists w :: w in workers && Serves(workers[w], instance, key) && r == RouteOf(workers[w])
    {
      var n :| 0 <= n < |replicas| && replicas[n] == r;
      assert r == RouteOf(workers[ids[n]]);
    }
    forall w | w in workers && Serves(workers[w], instance, key) ensures RouteOf(workers[w]) in replicas {
      assert w in ids;
      var n :| 0 <= n < |ids| && ids[n] == w;
      assert replicas[n] == RouteOf(workers[w]);
    }
  }

  lemma RecomputedAt(workers: Workers, instance: nat, key: ExpertKey)
    ensures ReplicasAt(RecomputedRoutes(workers, instance), key) == Replicas(workers, instance, key)
  {
    var replicas := Replicas(workers, instance, key);
    if replicas != [] {
      ReplicaMembers(workers, instance, key);
      assert replicas[0] in replicas;
    }
  }

  /** Exact indexes are the recomputed maps, and they store no empty replica list. */
  lemma RouteIndexIsRecomputed(mem: Memory, instance: nat)
    requires RoutesExact(mem)
    ensures Routes(mem, instance) == RecomputedRoutes(mem.workers, instance)
    ensures NoEmptyRoute(Routes(mem, instance))
  {
    forall key ensures ReplicasAt(Routes(mem, instance), key) == ReplicasAt(RecomputedRoutes(mem.workers, instance), key) {
      RecomputedAt(mem.workers, instance, key);
    }
    SameReplicasSameRoutes(Routes(mem, instance), RecomputedRoutes(mem.workers, instance));
  }

  /** Replicas depend only on which Workers serve the expert and on their routes. */
  lemma SameContributionsSameReplicas(before: Workers, after: Workers, instance: nat, key: ExpertKey)
    requires forall w :: (w in before && Serves(before[w], instance, key)) <==> (w in after && Serves(after[w], instance, key))
    requires forall w :: w in before && Serves(before[w], instance, key) && w in after ==> RouteOf(before[w]) == RouteOf(after[w])
    ensures Replicas(before, instance, key) == Replicas(after, instance, key)
  {
    assert Serving(before, instance, key) == Serving(after, instance, key);
    var ids := ServingList(before, instance, key);
    assert ids == ServingList(after, instance, key);
    var x, y := RoutesFor(before, ids), RoutesFor(after, ids);
    assert forall n :: 0 <= n < |ids| ==> x[n] == y[n];
  }

  /** `worker` under `w` serves the same experts through the same route as before, except for
      `affected` experts of `instance`. */
  ghost predicate ServesSameExcept(workers: Workers, w: string, worker: WorkerRecord, instance: nat, affected: set<ExpertKey>) {
    forall i, key :: i != instance || key !in affected ==>
      && ((w in workers && Serves(workers[w], i, key)) <==> Serves(worker, i, key))
      && (Serves(worker, i, key) && w in workers ==> RouteOf(workers[w]) == RouteOf(worker))
  }

  /** Replacing one record can only disturb the experts that either version of it serves. */
  lemma OneRecordChanged(mem: Memory, next: Memory, w: string, worker: WorkerRecord, instance: nat, affected: set<ExpertKey>)
    requires RoutesExact(mem)
    requires next.workers == mem.workers[w := worker] && next.topologies == mem.topologies
    requires ServesSameExcept(mem.workers, w, worker, instance, affected)
    ensures SettledExcept(next, instance, affected) && NoEmptyRoutes(next)
  {
    assert forall i :: Routes(next, i) == Routes(mem, i);
    forall i, key | i != instance || key !in affected
      ensures ReplicasAt(Routes(next, i), key) == Replicas(next.workers, i, key)
    {
      SameContributionsSameReplicas(mem.workers, next.workers, i, key);
    }
  }

  lemma NothingChanged(mem: Memory, next: Memory, w: string, worker: WorkerRecord)
    requires RoutesExact(mem)
    requires next.workers == mem.workers[w := worker] && next.topologies == mem.topologies
    requires ServesSameExcept(mem.workers, w, worker, 0, {})
    ensures RoutesExact(next)
  {
    OneRecordChanged(mem, next, w, worker, 0, {});
    assert forall i, key :: ReplicasAt(Routes(next, i), key) == Replicas(next.workers, i, key);
  }

  ghost predicate ChangeSound(mem: Memory, instance: nat, c: RouteEntry) {
    c.replicas == Replicas(mem.workers, instance, c.key) && c.replicas != ReplicasAt(Routes(mem, instance), c.key)
  }

  ghost predicate IsChanged(mem: Memory, instance: nat, key: ExpertKey) {
    ReplicasAt(Routes(mem, instance), key) != Replicas(mem.workers, instance, key)
  }

  ghost predicate Mentions(entries: seq<RouteEntry>, key: ExpertKey) {
    exists j :: 0 <= j < |entries| && entries[j].key == key
  }

  lemma {:induction false} ChangesSound(mem: Memory, instance: nat, keys: seq<ExpertKey>)
    ensures forall j :: 0 <= j < |Changes(mem, instance, keys)| ==>
              ChangeSound(mem, instance, Changes(mem, instance, keys)[j]) && Changes(mem, instance, keys)[j].key in keys
    decreases |keys|
  {
    if keys != [] {
      ChangesSound(mem, instance, keys[..|keys| - 1]);
    }
  }

  lemma {:induction false} ChangesDistinct(mem: Memory, instance: nat, keys: seq<ExpertKey>)
    requires NoDuplicates(keys)
    ensures DistinctKeys(Changes(mem, instance, keys))
    decreases |keys|
  {
    if keys != [] {
      ChangesDistinct(mem, instance, keys[..|keys| - 1]);
      ChangesSound(mem, instance, keys[..|keys| - 1]);
    }
  }

  lemma {:induction false} ChangesComplete(mem: Memory, instance: nat, keys: seq<ExpertKey>, key: ExpertKey)
    requires key in keys && IsChanged(mem, instance, key)
    ensures Mentions(Changes(mem, instance, keys), key)
    decreases |keys|
  {
    var front := keys[..|keys| - 1];
    var before := Changes(mem, instance, front);
    var changes := Changes(mem, instance, keys);
    assert before <= changes;
    if key == keys[|keys| - 1] {
      assert changes[|changes| - 1].key == key;
    } else {
      ChangesComplete(mem, instance, front, key);
      var j :| 0 <= j < |before| && before[j].key == key;
      assert changes[j].key == key;
    }
  }

  /** A publication names exactly the affected experts whose replicas differ, each once. */
  lemma PublishedSound(mem: Memory, instance: nat, affected: set<ExpertKey>)
    ensures DistinctKeys(Published(mem, instance, affected))
    ensures forall j :: 0 <= j < |Published(mem, instance, affected)| ==>
              ChangeSound(mem, instance, Published(mem, instance, affected)[j])
    ensures forall key :: Mentions(Published(mem, instance, affected), key) <==>
              key in affected && IsChanged(mem, instance, key)
  {
    var keys := SortedKeys(affected);
    ChangesDistinct(mem, instance, keys);
    ChangesSound(mem, instance, keys);
    forall key | key in affected && IsChanged(mem, instance, key) ensures Mentions(Published(mem, instance, affected), key) {
      ChangesComplete(mem, instance, keys, key);
    }
  }

  lemma AppliedAt(mem: Memory, instance: nat, affected: set<ExpertKey>, key: ExpertKey)
    requires key !in affected ==> !IsChanged(mem, instance, key)
    ensures ReplicasAt(ApplyEntries(Routes(mem, instance), Published(mem, instance, affected)), key)
            == Replicas(mem.workers, instance, key)
  {
    var changes := Published(mem, instance, affected);
    PublishedSound(mem, instance, affected);
    ApplyEntriesAt(Routes(mem, instance), changes, key);
    if Mentions(changes, key) {
      var j :| 0 <= j < |changes| && changes[j].key == key;
      assert ChangeSound(mem, instance, changes[j]);
    } else {
      assert !IsChanged(mem, instance, key);
    }
  }

  /** What a successful publication changes. */
  lemma PublishShape(mem: Memory, store: StoreState, instance: nat, affected: set<ExpertKey>, reply: StoreReply)
    ensures var p := Publish(mem, store, instance, affected, reply);
            p.reply.Ok? ==>
              && p.mem == mem.(topologies := p.mem.topologies)
              && Routes(p.mem, instance) == ApplyEntries(Routes(mem, instance), Published(mem, instance, affected))
              && forall i :: i != instance ==> Routes(p.mem, i) == Routes(mem, i)
  {
    ChangesShape(mem, store, instance, Published(mem, instance, affected), reply);
  }

  lemma ChangesShape(mem: Memory, store: StoreState, instance: nat, changes: seq<RouteEntry>, reply: StoreReply)
    ensures var p := PublishChanges(mem, store, instance, changes, reply);
            p.reply.Ok? ==>
              && p.mem == mem.(topologies := p.mem.topologies)
              && Routes(p.mem, instance) == ApplyEntries(Routes(mem, instance), changes)
              && forall i :: i != instance ==> Routes(p.mem, i) == Routes(mem, i)
  {
  }

  /** A successful publication makes the index exact again. */
  lemma PublishMakesExact(mem: Memory, store: StoreState, instance: nat, affected: set<ExpertKey>, reply: StoreReply)
    requires SettledExcept(mem, instance, affected) && NoEmptyRoutes(mem)
    ensures var p := Publish(mem, store, instance, affected, reply);
            p.reply.Ok? ==> RoutesExact(p.mem)
  {
    var p := Publish(mem, store, instance, affected, reply);
    PublishShape(mem, store, instance, affected, reply);
    if p.reply.Ok? {
      forall i ensures NoEmptyRoute(Routes(p.mem, i)) {
        assert NoEmptyRoute(Routes(mem, i));
        if i == instance { ApplyEntriesNoEmpty(Routes(mem, i), Published(mem, instance, affected)); }
      }
      forall i, key ensures ReplicasAt(Routes(p.mem, i), key) == Replicas(p.mem.workers, i, key) {
        if i == instance {
          AppliedAt(mem, instance, affected, key);
        }
      }
    }
  }
}
