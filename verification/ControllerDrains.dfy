/** Drain records: what an unfinished drain promises about every route map a client may hold. */
module ControllerDrains {
  import opened Topology
  import opened ControllerState
  import opened ControllerRoutes
  import opened ControllerLog

  /** From the drain's minimum version on, no issued map routes its experts to this process. */
  ghost predicate DrainHidden(d: Drain, r: Registration, known: map<nat, RouteMap>) {
    forall v :: v in known && v >= d.minVersion ==> NotRoutedTo(known[v], d.experts, r.workerId, r.startId)
  }

  ghost predicate WorkerHidden(d: Drain, r: Registration, known: map<nat, RouteMap>) {
    forall v :: v in known && v >= d.minVersion ==> NeverRoutedTo(known[v], r.workerId, r.startId)
  }

  ghost predicate AtMostOneOpen(drains: seq<Drain>) {
    forall i, j :: 0 <= i < j < |drains| ==> !IsOpenExpertDrain(drains[i]) || !IsOpenExpertDrain(drains[j])
  }

  /** The shape of one drain against its record. */
  ghost predicate DrainShape(d: Drain, worker: WorkerRecord) {
    && (IsOpenExpertDrain(d) ==> d.generation == worker.generation && d.experts !! worker.targets.Keys)
    && (d.stopAll ==> !worker.included)
  }

  ghost predicate DrainOk(d: Drain, worker: WorkerRecord, known: map<nat, RouteMap>) {
    && DrainShape(d, worker)
    && (IsOpenExpertDrain(d) ==> DrainHidden(d, worker.registration, known))
    && (d.stopAll ==> WorkerHidden(d, worker.registration, known))
  }

  ghost predicate WorkerDrainsOk(worker: WorkerRecord, known: map<nat, RouteMap>) {
    && AtMostOneOpen(worker.drains)
    && forall i :: 0 <= i < |worker.drains| ==> DrainOk(worker.drains[i], worker, known)
  }

  ghost predicate DrainsOk(workers: Workers, issued: Issued) {
    forall w :: w in workers ==> WorkerDrainsOk(workers[w], Known(issued, workers[w].registration.instance))
  }

  /** Exact routes send to a process only what its record serves. */
  lemma ExactRoutesServe(mem: Memory, w: string, key: ExpertKey, r: WorkerRoute)
    requires RoutesExact(mem) && Keyed(mem.workers) && w in mem.workers
    requires r in ReplicasAt(Routes(mem, mem.workers[w].registration.instance), key)
    requires r.workerId == w
    ensures Serves(mem.workers[w], mem.workers[w].registration.instance, key)
  {
    var instance := mem.workers[w].registration.instance;
    assert ReplicasAt(Routes(mem, instance), key) == Replicas(mem.workers, instance, key);
    ReplicasAreRecords(mem.workers, instance, key);
  }

  lemma ShapeHides(mem: Memory, w: string, d: Drain)
    requires RoutesExact(mem) && Keyed(mem.workers) && w in mem.workers
    requires DrainShape(d, mem.workers[w])
    ensures var r := mem.workers[w].registration;
            && (IsOpenExpertDrain(d) ==> NotRoutedTo(Routes(mem, r.instance), d.experts, r.workerId, r.startId))
            && (d.stopAll ==> NeverRoutedTo(Routes(mem, r.instance), r.workerId, r.startId))
  {
    var worker := mem.workers[w];
    var routes := Routes(mem, worker.registration.instance);
    forall key, r | r in ReplicasAt(routes, key) && r.workerId == w
      ensures worker.included && key in worker.targets
    {
      ExactRoutesServe(mem, w, key, r);
    }
  }

  lemma DrainStaysHidden(mem: Memory, w: string, d: Drain, known: map<nat, RouteMap>, version: nat)
    requires RoutesExact(mem) && Keyed(mem.workers) && w in mem.workers
    requires DrainOk(d, mem.workers[w], known)
    ensures DrainOk(d, mem.workers[w], known[version := Routes(mem, mem.workers[w].registration.instance)])
  {
    ShapeHides(mem, w, d);
  }

  /** Names added from an exact index keep the promises of every drain. */
  lemma DrainsSurvivePublish(after: Memory, store: StoreState, issued: Issued, instance: nat, w: string)
    requires RoutesExact(after) && Keyed(after.workers) && w in after.workers
    requires WorkerDrainsOk(after.workers[w], Known(issued, after.workers[w].registration.instance))
    requires LogStep(issued, after, store, instance)
    ensures WorkerDrainsOk(after.workers[w], Known(Observe(issued, after), after.workers[w].registration.instance))
  {
    var worker := after.workers[w];
    var known := Known(issued, worker.registration.instance);
    if worker.registration.instance == instance {
      forall i | 0 <= i < |worker.drains|
        ensures DrainOk(worker.drains[i], worker, known[Version(after, instance) := Routes(after, instance)])
      {
        DrainStaysHidden(after, w, worker.drains[i], known, Version(after, instance));
      }
    }
  }

  /** A drain issued at the current version of an exact index hides what it names. */
  lemma FreshDrainOk(mem: Memory, w: string, d: Drain, known: map<nat, RouteMap>)
    requires RoutesExact(mem) && Keyed(mem.workers) && w in mem.workers
    requires DrainShape(d, mem.workers[w])
    requires Newest(mem, mem.workers[w].registration.instance, known)
    requires d.minVersion == Version(mem, mem.workers[w].registration.instance)
    ensures DrainOk(d, mem.workers[w], known)
  {
    ShapeHides(mem, w, d);
    var top := Version(mem, mem.workers[w].registration.instance);
    forall v | v in known && v >= d.minVersion ensures v == top {
    }
  }

  /** The current map of `instance` is the newest one a client may hold. */
  ghost predicate Newest(mem: Memory, instance: nat, known: map<nat, RouteMap>) {
    && Version(mem, instance) in known && known[Version(mem, instance)] == Routes(mem, instance)
    && forall v :: v in known ==> v <= Version(mem, instance)
  }

  /** Records that agree on what drains mention keep them. */
  lemma SameDrainsOk(before: WorkerRecord, after: WorkerRecord, known: map<nat, RouteMap>)
    requires WorkerDrainsOk(before, known)
    requires after.registration == before.registration && after.drains == before.drains && after.included == before.included
    requires after.generation == before.generation && after.targets == before.targets
    ensures WorkerDrainsOk(after, known)
  {
    assert forall i :: 0 <= i < |after.drains| ==> DrainOk(before.drains[i], before, known);
  }

  lemma ClosedDrainsOk(before: WorkerRecord, after: WorkerRecord, known: map<nat, RouteMap>)
    requires forall i :: 0 <= i < |before.drains| && before.drains[i].stopAll ==> DrainOk(before.drains[i], before, known)
    requires after.registration == before.registration && after.included == before.included
    requires after.drains == CloseExpertDrains(before.drains)
    ensures WorkerDrainsOk(after, known)
    ensures forall i :: 0 <= i < |after.drains| ==> !IsOpenExpertDrain(after.drains[i])
  {
    forall i | 0 <= i < |after.drains| ensures DrainOk(after.drains[i], after, known) {
      if before.drains[i].stopAll { assert DrainOk(before.drains[i], before, known); }
    }
  }

  lemma AppendDrainOk(before: WorkerRecord, after: WorkerRecord, d: Drain, known: map<nat, RouteMap>)
    requires WorkerDrainsOk(before, known)
    requires after == before.(drains := before.drains + [d])
    requires IsOpenExpertDrain(d) ==> forall i :: 0 <= i < |before.drains| ==> !IsOpenExpertDrain(before.drains[i])
    requires DrainOk(d, before, known)
    ensures WorkerDrainsOk(after, known)
  {
    forall i | 0 <= i < |after.drains| ensures DrainOk(after.drains[i], after, known) {
      if i < |before.drains| { assert DrainOk(before.drains[i], before, known); }
    }
  }

  lemma FinishedDrainOk(before: WorkerRecord, after: WorkerRecord, n: nat, known: map<nat, RouteMap>)
    requires WorkerDrainsOk(before, known) && n < |before.drains|
    requires after.registration == before.registration && after.included == before.included
    requires after.generation == before.generation && after.targets == before.targets
    requires after.drains == before.drains[n := before.drains[n].(completed := true)]
    ensures WorkerDrainsOk(after, known)
  {
    forall i | 0 <= i < |after.drains| ensures DrainOk(after.drains[i], after, known) {
      assert DrainOk(before.drains[i], before, known);
    }
  }
}
