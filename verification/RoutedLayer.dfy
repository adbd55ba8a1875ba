/** One routed layer with one retry: dispatch, rebuild what failed, dispatch that again, and sum. */
module RoutedLayer {
  import opened Ordering
  import opened Topology
  import opened RoutedBatch
  import opened Selection
  import opened Grouping
  import opened Dispatch

  // ---------------------------------------------------------------- what is left over

  /** The assignments some failed plan held, at their places; every other slot is empty. */
  function UnfinishedRows(source: seq<Row>, failed: seq<Plan>): (rows: seq<Row>)
    ensures |rows| == |source|
    ensures forall t :: 0 <= t < |source| ==> |rows[t]| == |source[t]|
    ensures forall t, s :: 0 <= t < |source| && 0 <= s < |source[t]| ==>
                             rows[t][s] == if PlanHits(failed, t, s) > 0 then source[t][s] else EmptySlot
  {
    seq(|source|, t requires 0 <= t < |source| =>
          seq(|source[t]|, s requires 0 <= s < |source[t]| =>
                if PlanHits(failed, t, s) > 0 then source[t][s] else EmptySlot))
  }

  function Members(ids: seq<nat>): set<nat> { set e | e in ids }

  function FailedExperts(failures: seq<Failure>): set<nat> {
    if failures == [] then {}
    else FailedExperts(failures[..|failures| - 1]) + Members(failures[|failures| - 1].plan.batch.distinct)
  }

  /** The processes that failed a plan naming `e`. */
  function FailedBy(failures: seq<Failure>, e: nat): set<Identity> {
    if failures == [] then {}
    else FailedBy(failures[..|failures| - 1], e)
         + if e in failures[|failures| - 1].plan.batch.distinct then {failures[|failures| - 1].plan.target.identity} else {}
  }

  function Unfinished(batch: LayerBatch, failures: seq<Failure>): LayerBatch {
    LayerBatch(batch.instance, batch.layer, UnfinishedRows(batch.rows, PlansOf(failures)), SortedIds(FailedExperts(failures)))
  }

  ghost predicate FailedMap(failed: map<nat, set<Identity>>, failures: seq<Failure>) {
    forall e: nat :: (e in failed <==> e in FailedExperts(failures)) && (e in failed ==> failed[e] == FailedBy(failures, e))
                     && (e !in failed ==> FailedBy(failures, e) == {})
  }

  /** Cells after the first `n` rows of one more failed plan. */
  ghost predicate Refilled(cells: seq<Row>, source: seq<Row>, failed: seq<Plan>, tokens: seq<nat>, rows: seq<Row>, n: nat)
    requires n <= |tokens| && n <= |rows|
  {
    && |cells| == |source|
    && (forall t :: 0 <= t < |source| ==> |cells[t]| == |source[t]|)
    && forall t, s :: 0 <= t < |source| && 0 <= s < |source[t]| ==>
                        cells[t][s] == if PlanHits(failed, t, s) + HitsUpTo(tokens, rows, n, t, s) > 0 then source[t][s] else EmptySlot
  }

  function MergeRow(row: Row, existing: Row): (merged: Row)
    requires |row| == |existing|
    ensures |merged| == |row|
    ensures forall s :: 0 <= s < |row| ==> merged[s] == if row[s].expert >= 0 then row[s] else existing[s]
  {
    seq(|row|, s requires 0 <= s < |row| => if row[s].expert >= 0 then row[s] else existing[s])
  }

  lemma RefillRow(cells: seq<Row>, source: seq<Row>, failed: seq<Plan>, tokens: seq<nat>, rows: seq<Row>, n: nat)
    requires RowsFaithful(tokens, rows, source) && n < |rows| && Refilled(cells, source, failed, tokens, rows, n)
    ensures Refilled(cells[tokens[n] := MergeRow(rows[n], cells[tokens[n]])], source, failed, tokens, rows, n + 1)
  {
  }

  lemma RefilledPlan(cells: seq<Row>, source: seq<Row>, failed: seq<Plan>, p: Plan)
    requires Refilled(cells, source, failed, TokensOf(p.batch), p.batch.rows, RowCount(p.batch))
    ensures Refilled(cells, source, failed + [p], [], [], 0)
  {
    forall t: nat, s: nat ensures PlanHits(failed + [p], t, s) == PlanHits(failed, t, s) + BatchHits(p.batch, t, s) {
      HitsWithOneMore(failed, p, t, s);
    }
  }

  /** Write the assignments of one failed plan back over the rebuilt matrix. */
  method RefillPlan(cells: array<Row>, ghost source: seq<Row>, ghost failed: seq<Plan>, p: Plan)
    requires Faithful(p.batch, source) && Refilled(cells[..], source, failed, [], [], 0)
    modifies cells
    ensures Refilled(cells[..], source, failed + [p], [], [], 0)
  {
    var tokens, rows := TokensOf(p.batch), p.batch.rows;
    for n := 0 to |rows|
      invariant Refilled(cells[..], source, failed, tokens, rows, n)
    {
      RefillRow(cells[..], source, failed, tokens, rows, n);
      ghost var before := cells[..];
      cells[tokens[n]] := MergeRow(rows[n], cells[tokens[n]]);
      assert cells[..] == before[tokens[n] := MergeRow(rows[n], before[tokens[n]])];
    }
    RefilledPlan(cells[..], source, failed, p);
  }

  method RefillAll(source: seq<Row>, failures: seq<Failure>) returns (rows: seq<Row>)
    requires PlansFaithful(PlansOf(failures), source)
    ensures rows == UnfinishedRows(source, PlansOf(failures))
  {
    var cells := new Row[|source|](t requires 0 <= t < |source| => seq(|source[t]|, _ => EmptySlot));
    var failed := PlansOf(failures);
    for n := 0 to |failures|
      invariant Refilled(cells[..], source, failed[..n], [], [], 0)
    {
      assert failed[..n + 1] == failed[..n] + [failed[n]];
      RefillPlan(cells, source, failed[..n], failures[n].plan);
    }
    assert failed[..|failures|] == failed;
    rows := cells[..];
    RefilledIsUnfinished(rows, source, failed);
  }

  lemma RefilledIsUnfinished(rows: seq<Row>, source: seq<Row>, failed: seq<Plan>)
    requires Refilled(rows, source, failed, [], [], 0)
    ensures rows == UnfinishedRows(source, failed)
  {
    var other := UnfinishedRows(source, failed);
    forall t | 0 <= t < |source| ensures rows[t] == other[t] {
      assert forall s :: 0 <= s < |source[t]| ==> rows[t][s] == other[t][s];
    }
  }

  /** Add one process to the failed processes of each listed expert. */
  method NoteFailed(failed: map<nat, set<Identity>>, distinct: seq<nat>, identity: Identity) returns (r: map<nat, set<Identity>>)
    ensures forall e :: e in r <==> e in failed || e in distinct
    ensures forall e :: e in r ==> r[e] == (if e in failed then failed[e] else {}) + if e in distinct then {identity} else {}
  {
    r := failed;
    for n := 0 to |distinct|
      invariant forall e :: e in r <==> e in failed || e in distinct[..n]
      invariant forall e :: e in r ==> r[e] == (if e in failed then failed[e] else {}) + if e in distinct[..n] then {identity} else {}
    {
      assert distinct[..n + 1] == distinct[..n] + [distinct[n]];
      var e := distinct[n];
      r := r[e := (if e in r then r[e] else {}) + {identity}];
    }
    assert distinct[..|distinct|] == distinct;
  }

  method CollectFailed(failures: seq<Failure>) returns (failed: map<nat, set<Identity>>)
    ensures FailedMap(failed, failures)
  {
    failed := map[];
    for n := 0 to |failures|
      invariant FailedMap(failed, failures[..n])
    {
      assert failures[..n + 1][..n] == failures[..n];
      failed := NoteFailed(failed, failures[n].plan.batch.distinct, failures[n].plan.target.identity);
    }
    assert failures[..|failures|] == failures;
  }

  method UnfinishedBatch(batch: LayerBatch, failures: seq<Failure>) returns (unfinished: LayerBatch, failed: map<nat, set<Identity>>)
    requires PlansFaithful(PlansOf(failures), batch.rows)
    ensures unfinished == Unfinished(batch, failures) && FailedMap(failed, failures)
  {
    var rows := RefillAll(batch.rows, failures);
    failed := CollectFailed(failures);
    assert failed.Keys == FailedExperts(failures);
    unfinished := LayerBatch(batch.instance, batch.layer, rows, SortedIds(failed.Keys));
  }

  // ---------------------------------------------------------------- the rebuilt batch is exact

  lemma {:induction false} HitHasRow(tokens: seq<nat>, rows: seq<Row>, n: nat, t: nat, s: nat) returns (r: nat)
    requires n <= |tokens| && n <= |rows| && HitsUpTo(tokens, rows, n, t, s) > 0
    ensures r < n && tokens[r] == t && Assigned(rows[r], s)
  {
    if tokens[n - 1] == t && Assigned(rows[n - 1], s) {
      r := n - 1;
    } else {
      r := HitHasRow(tokens, rows, n - 1, t, s);
    }
  }

  lemma {:induction false} HitHasPlan(plans: seq<Plan>, t: nat, s: nat) returns (i: nat, r: nat)
    requires PlanHits(plans, t, s) > 0
    ensures i < |plans| && r < RowCount(plans[i].batch)
    ensures TokensOf(plans[i].batch)[r] == t && Assigned(plans[i].batch.rows[r], s)
    decreases |plans|
  {
    i := |plans| - 1;
    if BatchHits(plans[i].batch, t, s) > 0 {
      r := HitHasRow(TokensOf(plans[i].batch), plans[i].batch.rows, RowCount(plans[i].batch), t, s);
    } else {
      i, r := HitHasPlan(plans[..i], t, s);
    }
  }

  lemma {:induction false} RowIsHit(tokens: seq<nat>, rows: seq<Row>, n: nat, r: nat, s: nat)
    requires r < n <= |tokens| && n <= |rows| && Assigned(rows[r], s)
    ensures HitsUpTo(tokens, rows, n, tokens[r], s) > 0
  {
    if r < n - 1 { RowIsHit(tokens, rows, n - 1, r, s); }
  }

  lemma {:induction false} PlanIsHit(plans: seq<Plan>, i: nat, r: nat, s: nat)
    requires i < |plans| && r < RowCount(plans[i].batch) && Assigned(plans[i].batch.rows[r], s)
    ensures PlanHits(plans, TokensOf(plans[i].batch)[r], s) > 0
    decreases |plans|
  {
    if i == |plans| - 1 {
      RowIsHit(TokensOf(plans[i].batch), plans[i].batch.rows, RowCount(plans[i].batch), r, s);
    } else {
      PlanIsHit(plans[..|plans| - 1], i, r, s);
    }
  }

  lemma {:induction false} FailedExpertsAre(failures: seq<Failure>, e: nat)
    ensures e in FailedExperts(failures) <==> exists i :: 0 <= i < |failures| && e in failures[i].plan.batch.distinct
    decreases |failures|
  {
    if failures != [] {
      var front := failures[..|failures| - 1];
      FailedExpertsAre(front, e);
      if i :| 0 <= i < |failures| && e in failures[i].plan.batch.distinct {
        if i < |front| { assert front[i] == failures[i]; }
      }
    }
  }

  ghost predicate FailuresExact(failures: seq<Failure>, source: seq<Row>) {
    forall i :: 0 <= i < |failures| ==>
                  && Faithful(failures[i].plan.batch, source)
                  && ExactExperts(failures[i].plan.batch.rows, failures[i].plan.batch.distinct)
  }

  /** An unfinished slot names an expert of a failed plan ... */
  lemma UnfinishedIsFailed(source: seq<Row>, failures: seq<Failure>, t: nat, s: nat)
    requires FailuresExact(failures, source) && t < |source| && s < |source[t]| && PlanHits(PlansOf(failures), t, s) > 0
    ensures source[t][s].expert >= 0 && source[t][s].expert in FailedExperts(failures)
  {
    var i, r := HitHasPlan(PlansOf(failures), t, s);
    var b := failures[i].plan.batch;
    assert Faithful(b, source);
    assert b.rows[r][s] == source[t][s];
    assert Names(b.rows, source[t][s].expert);
    FailedExpertsAre(failures, source[t][s].expert);
  }

  /** ... and every expert of a failed plan has an unfinished slot. */
  lemma FailedIsUnfinished(source: seq<Row>, failures: seq<Failure>, e: nat)
    requires FailuresExact(failures, source) && e in FailedExperts(failures)
    ensures Names(UnfinishedRows(source, PlansOf(failures)), e)
  {
    FailedExpertsAre(failures, e);
    var i :| 0 <= i < |failures| && e in failures[i].plan.batch.distinct;
    var b := failures[i].plan.batch;
    assert Names(b.rows, e);
    var r, s :| 0 <= r < |b.rows| && 0 <= s < |b.rows[r]| && b.rows[r][s].expert == e;
    assert Faithful(b, source);
    PlanIsHit(PlansOf(failures), i, r, s);
    var t := TokensOf(b)[r];
    assert UnfinishedRows(source, PlansOf(failures))[t][s] == source[t][s];
  }

  function SortedIds(ids: set<nat>): (r: seq<nat>)
    ensures StrictlyIncreasing(r) && forall e: nat :: e in r <==> e in ids
  {
    NatOrder();
    SortSet(ids, NatLe)
  }

  lemma NamedIsFailed(source: seq<Row>, failures: seq<Failure>, e: nat)
    requires FailuresExact(failures, source) && Names(UnfinishedRows(source, PlansOf(failures)), e)
    ensures e in FailedExperts(failures)
  {
    var rows: seq<Row> := UnfinishedRows(source, PlansOf(failures));
    var t, s :| 0 <= t < |rows| && 0 <= s < |rows[t]| && rows[t][s].expert == e;
    assert rows[t][s] != EmptySlot;
    assert PlanHits(PlansOf(failures), t, s) > 0;
    UnfinishedIsFailed(source, failures, t, s);
  }

  lemma UnfinishedIsExact(batch: LayerBatch, failures: seq<Failure>)
    requires FailuresExact(failures, batch.rows)
    ensures ExactExperts(Unfinished(batch, failures).rows, Unfinished(batch, failures).distinct)
  {
    var rows, ids := UnfinishedRows(batch.rows, PlansOf(failures)), SortedIds(FailedExperts(failures));
    forall e: nat ensures e in ids <==> Names(rows, e) {
      if e in ids { FailedIsUnfinished(batch.rows, failures, e); }
      if Names(rows, e) { NamedIsFailed(batch.rows, failures, e); }
    }
  }

  // ---------------------------------------------------------------- the retry completes the sum

  /** The successes of the first attempt and the plans of the retry hold every assignment once. */
  lemma {:induction false} RetryCompletes(source: seq<Row>, plans: seq<Plan>, answers: Answers, retry: seq<Plan>)
    requires Partition(plans, source)
    requires Partition(retry, UnfinishedRows(source, PlansOf(Failures(plans, answers, |plans|))))
    ensures Partition(Succeeded(plans, answers, |plans|) + retry, source)
  {
    var won, lost := Succeeded(plans, answers, |plans|), PlansOf(Failures(plans, answers, |plans|));
    SubsetsKeep(plans, answers, |plans|, (p: Plan) => Faithful(p.batch, source));
    RetryIsFaithful(source, lost, retry);
    forall t, s | 0 <= t < |source| && 0 <= s
      ensures PlanHits(won + retry, t, s) == if Assigned(source[t], s) then 1 else 0
    {
      PlanHitsConcat(won, retry, t, s);
      DispatchSplits(plans, answers, |plans|, t, s);
      assert plans[..|plans|] == plans;
      RetryHits(source, lost, retry, t, s);
    }
  }

  lemma RetryIsFaithful(source: seq<Row>, lost: seq<Plan>, retry: seq<Plan>)
    requires Partition(retry, UnfinishedRows(source, lost))
    ensures PlansFaithful(retry, source)
  {
    var rows := UnfinishedRows(source, lost);
    forall i | 0 <= i < |retry| ensures Faithful(retry[i].batch, source) {
      assert Faithful(retry[i].batch, rows);
    }
  }

  lemma {:induction false} RetryHits(source: seq<Row>, lost: seq<Plan>, retry: seq<Plan>, t: nat, s: nat)
    requires Partition(retry, UnfinishedRows(source, lost)) && t < |source|
    requires PlanHits(lost, t, s) <= if Assigned(source[t], s) then 1 else 0
    ensures PlanHits(retry, t, s) == PlanHits(lost, t, s)
  {
    assert PlanHits(retry, t, s) == if Assigned(UnfinishedRows(source, lost)[t], s) then 1 else 0;
  }

  /** Exactly-once, over exact arithmetic: accumulated successes plus retried partials are the plain sum. */
  lemma {:induction false} RetrySums(f: (nat, nat) -> real, source: seq<Row>, plans: seq<Plan>, answers: Answers, retry: seq<Plan>, t: nat)
    requires Partition(plans, source) && t < |source|
    requires Partition(retry, UnfinishedRows(source, PlansOf(Failures(plans, answers, |plans|))))
    ensures PlanSum(f, Succeeded(plans, answers, |plans|), t) + PlanSum(f, retry, t) == PlainSum(f, source, t)
  {
    RetryCompletes(source, plans, answers, retry);
    PlanSumConcat(f, Succeeded(plans, answers, |plans|), retry, t);
    PartitionSums(f, Succeeded(plans, answers, |plans|) + retry, source, t);
  }

  // ---------------------------------------------------------------- execution

  /** One dispatch attempt: how its tasks interleave and what each Worker answers. */
  datatype Attempt = Attempt(order: nat -> seq<nat>, answers: Answers)

  ghost predicate ValidAttempt(a: Attempt) {
    forall n: nat :: IsOrder(a.order(n), n)
  }

  /** What the clock says each time the deadline is checked. */
  datatype Clock = Clock(expiredAtStart: bool, expiredInRefresh: bool, noTimeToWait: bool, expiredInWait: bool)

  const Expired := TransportError(DeadlineExceeded, false, None, [])

  const AvoidNone := Avoid({}, map[], false)

  function FirstFatal(failures: seq<Failure>): Option<TransportError> {
    if failures == [] then None
    else if !failures[0].error.retryable then Some(failures[0].error)
    else FirstFatal(failures[1..])
  }

  /** The highest version any failed Worker asked for. */
  function RequiredVersion(failures: seq<Failure>): Option<nat> {
    if failures == [] then None else
    var before, last := RequiredVersion(failures[..|failures| - 1]), failures[|failures| - 1].error.minVersion;
    if last.None? then before
    else if before.None? || before.value < last.value then last
    else before
  }

  predicate TooOld(failures: seq<Failure>, version: nat) {
    RequiredVersion(failures).Some? && version < RequiredVersion(failures).value
  }

  predicate UsesFailedProcess(plan: Plan, failures: seq<Failure>) {
    exists e :: e in plan.batch.distinct && plan.target.identity in FailedBy(failures, e)
  }

  predicate ReusesProcess(plans: seq<Plan>, failures: seq<Failure>) {
    exists i :: 0 <= i < |plans| && UsesFailedProcess(plans[i], failures)
  }

  ghost predicate AvoidsFailed(avoid: Avoid, failures: seq<Failure>) {
    avoid.all == {} && avoid.fallback && FailedMap(avoid.byExpert, failures)
  }

  /** Why the retry ends in an error, if it does. */
  ghost function RetryError(batch: LayerBatch, failures: seq<Failure>, avoid: Avoid, refreshed: Result<TopologySnapshot, TransportError>,
                            second: Attempt, clock: Clock, retry: seq<Plan>): Option<TransportError>
    requires failures != []
  {
    if refreshed.Err? then Some(refreshed.error)
    else if clock.expiredInRefresh then Some(Expired)
    else if TooOld(failures, refreshed.value.version) then
      Some(TransportError(Unavailable, true, RequiredVersion(failures), SortedIds(FailedExperts(failures))))
    else if GroupRefusal(Unfinished(batch, failures), refreshed.value, avoid).Some? then
      GroupRefusal(Unfinished(batch, failures), refreshed.value, avoid)
    else RetryEnd(failures, second, clock, retry)
  }

  /** Why a planned retry ends in an error: no time to wait for a failed process, or it failed again. */
  function RetryEnd(failures: seq<Failure>, second: Attempt, clock: Clock, retry: seq<Plan>): Option<TransportError>
    requires failures != []
  {
    if ReusesProcess(retry, failures) && clock.noTimeToWait then Some(failures[|failures| - 1].error)
    else if ReusesProcess(retry, failures) && clock.expiredInWait then Some(Expired)
    else LastError(Failures(retry, second.answers, |retry|))
  }

  function LastError(failures: seq<Failure>): Option<TransportError> {
    if failures == [] then None else Some(failures[|failures| - 1].error)
  }

  /** The retry covers exactly what failed, and goes back to a process that failed an expert only
      when the refreshed route of that expert has no other process. */
  ghost predicate RetryOk(batch: LayerBatch, failures: seq<Failure>, topology: TopologySnapshot, retry: seq<Plan>) {
    && Partition(retry, Unfinished(batch, failures).rows)
    && forall i, e :: 0 <= i < |retry| && e in retry[i].batch.distinct ==>
         && retry[i].target in RouteOf(topology, batch.layer, e)
         && (retry[i].target.identity in FailedBy(failures, e) ==>
               forall c :: c in RouteOf(topology, batch.layer, e) ==> c.identity in FailedBy(failures, e))
  }

  lemma PickAvoids(topology: TopologySnapshot, layer: nat, avoid: Avoid, failures: seq<Failure>, e: nat, c: Connection)
    requires AvoidsFailed(avoid, failures) && c in Candidates(topology, layer, avoid, e)
    ensures c in RouteOf(topology, layer, e)
    ensures c.identity in FailedBy(failures, e) ==>
              forall d :: d in RouteOf(topology, layer, e) ==> d.identity in FailedBy(failures, e)
  {
    assert ExcludedFor(avoid, e) == FailedBy(failures, e);
  }

  lemma GroupingIsRetry(batch: LayerBatch, failures: seq<Failure>, topology: TopologySnapshot, avoid: Avoid,
                        retry: seq<Plan>, picks: map<nat, Connection>)
    requires AvoidsFailed(avoid, failures) && GroupingOk(retry, picks, Unfinished(batch, failures), topology, avoid)
    ensures RetryOk(batch, failures, topology, retry)
  {
    forall i, e | 0 <= i < |retry| && e in retry[i].batch.distinct
      ensures retry[i].target in RouteOf(topology, batch.layer, e)
      ensures retry[i].target.identity in FailedBy(failures, e) ==>
                forall c :: c in RouteOf(topology, batch.layer, e) ==> c.identity in FailedBy(failures, e)
    {
      assert GroupedPlan(retry[i], Unfinished(batch, failures), topology.version, picks);
      PickAvoids(topology, batch.layer, avoid, failures, e, picks[e]);
    }
  }

  lemma {:induction false} SumOfWhole(f: (nat, nat) -> real, tokens: seq<nat>, rows: seq<Row>, n: nat, t: nat)
    requires n <= |tokens| == |rows| && t < |rows| && forall i :: 0 <= i < |rows| ==> tokens[i] == i
    ensures SumUpTo(f, tokens, rows, n, t) == if t < n then PlainSum(f, rows, t) else 0.0
  {
    if n > 0 { SumOfWhole(f, tokens, rows, n - 1, t); }
  }

  lemma FaithfulWithin(plans: seq<Plan>, source: seq<Row>)
    requires PlansFaithful(plans, source)
    ensures TokensWithin(plans, |source|)
  {
    forall i | 0 <= i < |plans| ensures RowsWithin(plans[i].batch, |source|) { assert Faithful(plans[i].batch, source); }
  }

  lemma OnePlanFailed(f: (nat, nat) -> real, p: Plan, answers: Answers)
    requires answers(0).Some?
    ensures Failures([p], answers, 1) == [Failure(p, answers(0).value)]
    ensures forall t: nat :: PlanSum(f, Succeeded([p], answers, 1), t) == 0.0
  {
    assert Failures([p], answers, 0) == [] && Succeeded([p], answers, 0) == [];
  }

  lemma OnePlanSucceeded(f: (nat, nat) -> real, p: Plan, answers: Answers)
    requires answers(0).None?
    ensures Failures([p], answers, 1) == []
    ensures forall t: nat :: PlanSum(f, Succeeded([p], answers, 1), t) == BatchSum(f, p.batch, t)
  {
    assert Failures([p], answers, 0) == [] && Succeeded([p], answers, 0) == [];
    assert Succeeded([p], answers, 1) == [p];
    assert [p][..0] == [];
  }

  /** A complete plan needs no scatter: the Worker's rows are the result. */
  method DispatchCompletePlan(p: Plan, f: (nat, nat) -> real, answers: Answers, width: nat)
    returns (acc: array<real>, failures: seq<Failure>)
    requires p.batch.tokens.None? && |p.batch.rows| == width
    ensures fresh(acc) && acc.Length == width && failures == Failures([p], answers, 1)
    ensures forall t :: 0 <= t < width ==> acc[t] == PlanSum(f, Succeeded([p], answers, 1), t)
  {
    match answers(0) {
      case Some(error) =>
        OnePlanFailed(f, p, answers);
        acc := new real[width](_ => 0.0);
        failures := [Failure(p, error)];
      case None =>
        OnePlanSucceeded(f, p, answers);
        var rows := p.batch.rows;
        acc := new real[width](t requires 0 <= t < |rows| => PlainSum(f, rows, t));
        failures := [];
        forall t | 0 <= t < width ensures acc[t] == BatchSum(f, p.batch, t) { SumOfWhole(f, TokensOf(p.batch), rows, width, t); }
    }
  }

  method FirstAttempt(batch: LayerBatch, plans: seq<Plan>, f: (nat, nat) -> real, first: Attempt)
    returns (acc: array<real>, failures: seq<Failure>)
    requires ValidAttempt(first) && PlansFaithful(plans, batch.rows)
    requires |plans| == 1 && plans[0].batch.tokens.None? ==> |plans[0].batch.rows| == |batch.rows|
    ensures fresh(acc) && acc.Length == |batch.rows| && failures == Failures(plans, first.answers, |plans|)
    ensures forall t :: 0 <= t < |batch.rows| ==> acc[t] == PlanSum(f, Succeeded(plans, first.answers, |plans|), t)
  {
    FaithfulWithin(plans, batch.rows);
    if |plans| == 1 && plans[0].batch.tokens.None? {
      assert plans == [plans[0]];
      acc, failures := DispatchCompletePlan(plans[0], f, first.answers, |batch.rows|);
    } else {
      acc := new real[|batch.rows|](_ => 0.0);
      failures := DispatchOnce(plans, f, first.order(|plans|), first.answers, acc);
    }
  }

  // ---------------------------------------------------------------- errors, on the answers themselves

  /** The answer to plan `i` is an error. */
  ghost predicate Fails(answers: Answers, n: nat, i: nat) { i < n && answers(i).Some? }

  /** Plan `i` is the first one, in plan order, that failed for good. */
  ghost predicate FailsFirst(answers: Answers, n: nat, i: nat) {
    && Fails(answers, n, i) && !answers(i).value.retryable
    && forall j: nat :: j < i && Fails(answers, n, j) ==> answers(j).value.retryable
  }

  ghost predicate FailsLast(answers: Answers, n: nat, i: nat) {
    Fails(answers, n, i) && forall j: nat :: i < j < n ==> answers(j).None?
  }

  ghost predicate AllAnswer(answers: Answers, n: nat) { forall i: nat :: i < n ==> answers(i).None? }

  ghost predicate AllRetryable(answers: Answers, n: nat) {
    forall i: nat :: Fails(answers, n, i) ==> answers(i).value.retryable
  }

  /** Some failed Worker asks for version `v` ... */
  ghost predicate AsksFor(answers: Answers, n: nat, v: nat) {
    exists i: nat :: Fails(answers, n, i) && answers(i).value.minVersion == Some(v)
  }

  /** ... and none for a later one. */
  ghost predicate AsksAtMost(answers: Answers, n: nat, v: nat) {
    forall i: nat :: Fails(answers, n, i) && answers(i).value.minVersion.Some? ==> answers(i).value.minVersion.value <= v
  }

  ghost predicate AsksNothing(answers: Answers, n: nat) {
    forall i: nat :: Fails(answers, n, i) ==> answers(i).value.minVersion.None?
  }

  /** The highest version asked for; there is none exactly when none is asked for. */
  ghost predicate IsRequired(answers: Answers, n: nat, required: Option<nat>) {
    match required
    case None => AsksNothing(answers, n)
    case Some(v) => AsksFor(answers, n, v) && AsksAtMost(answers, n, v)
  }

  lemma FailsEarlier(answers: Answers, n: nat, i: nat)
    ensures Fails(answers, n + 1, i) <==> Fails(answers, n, i) || (i == n && answers(n).Some?)
  {
  }

  lemma AsksStill(answers: Answers, n: nat, v: nat)
    requires AsksFor(answers, n, v)
    ensures AsksFor(answers, n + 1, v)
  {
    var i: nat :| Fails(answers, n, i) && answers(i).value.minVersion == Some(v);
    assert Fails(answers, n + 1, i);
  }

  lemma RequiredStep(answers: Answers, n: nat, before: Option<nat>)
    requires IsRequired(answers, n, before)
    ensures var last := if answers(n).Some? then answers(n).value.minVersion else None;
            IsRequired(answers, n + 1, if last.None? then before else if before.None? || before.value < last.value then last else before)
  {
    forall i: nat ensures Fails(answers, n + 1, i) <==> Fails(answers, n, i) || (i == n && answers(n).Some?) { FailsEarlier(answers, n, i); }
    if before.Some? { AsksStill(answers, n, before.value); }
    if answers(n).Some? { assert Fails(answers, n + 1, n); }
  }

  /** The required version is the highest one that the failed Workers ask for. */
  lemma {:induction false} RequiredIsHighest(plans: seq<Plan>, answers: Answers, n: nat)
    requires n <= |plans|
    ensures IsRequired(answers, n, RequiredVersion(Failures(plans, answers, n)))
  {
    if n > 0 {
      RequiredIsHighest(plans, answers, n - 1);
      var before, all := Failures(plans, answers, n - 1), Failures(plans, answers, n);
      RequiredStep(answers, n - 1, RequiredVersion(before));
      if answers(n - 1).Some? { assert all[..|all| - 1] == before; } else { assert all == before; }
    }
  }

  lemma {:induction false} FatalAppend(failures: seq<Failure>, x: Failure)
    ensures FirstFatal(failures + [x])
            == if FirstFatal(failures).Some? then FirstFatal(failures) else if !x.error.retryable then Some(x.error) else None
    decreases |failures|
  {
    if failures != [] {
      assert (failures + [x])[1..] == failures[1..] + [x];
      FatalAppend(failures[1..], x);
    } else {
      assert (failures + [x])[1..] == [];
    }
  }

  lemma {:induction false} NoneFatal(plans: seq<Plan>, answers: Answers, n: nat)
    requires n <= |plans| && AllRetryable(answers, n)
    ensures FirstFatal(Failures(plans, answers, n)).None?
  {
    if n > 0 {
      forall i: nat | Fails(answers, n - 1, i) ensures answers(i).value.retryable { assert Fails(answers, n, i); }
      NoneFatal(plans, answers, n - 1);
      var before := Failures(plans, answers, n - 1);
      if answers(n - 1).Some? {
        assert Fails(answers, n, n - 1);
        FatalAppend(before, Failure(plans[n - 1], answers(n - 1).value));
      } else {
        assert before + [] == before;
      }
    }
  }

  /** A failure for good ends the layer, and it is the first one in plan order. */
  lemma {:induction false} FatalIsFirst(plans: seq<Plan>, answers: Answers, n: nat, i: nat)
    requires n <= |plans| && FailsFirst(answers, n, i)
    ensures FirstFatal(Failures(plans, answers, n)) == Some(answers(i).value)
  {
    var before := Failures(plans, answers, n - 1);
    if i == n - 1 {
      forall j: nat | Fails(answers, n - 1, j) ensures answers(j).value.retryable { assert Fails(answers, n, j); }
      NoneFatal(plans, answers, n - 1);
      FatalAppend(before, Failure(plans[i], answers(i).value));
    } else {
      assert FailsFirst(answers, n - 1, i) by {
        forall j: nat | j < i && Fails(answers, n - 1, j) ensures answers(j).value.retryable { assert Fails(answers, n, j); }
      }
      FatalIsFirst(plans, answers, n - 1, i);
      if answers(n - 1).Some? { FatalAppend(before, Failure(plans[n - 1], answers(n - 1).value)); } else { assert before + [] == before; }
    }
  }

  /** Some failure for good is the first one. */
  lemma {:induction false} HasFirst(answers: Answers, n: nat) returns (i: nat)
    requires !AllRetryable(answers, n)
    ensures FailsFirst(answers, n, i)
  {
    if AllRetryable(answers, n - 1) {
      forall j: nat | j < n - 1 && Fails(answers, n, j) ensures answers(j).value.retryable { assert Fails(answers, n - 1, j); }
      i := n - 1;
    } else {
      i := HasFirst(answers, n - 1);
      forall j: nat | j < i && Fails(answers, n, j) ensures answers(j).value.retryable { assert Fails(answers, n - 1, j); }
    }
  }

  lemma {:induction false} NoFailures(plans: seq<Plan>, answers: Answers, n: nat)
    requires n <= |plans|
    ensures Failures(plans, answers, n) == [] <==> AllAnswer(answers, n)
  {
    if n > 0 { NoFailures(plans, answers, n - 1); }
  }

  /** The error of an attempt is that of its last failed plan. */
  lemma {:induction false} LastIsLast(plans: seq<Plan>, answers: Answers, n: nat, i: nat)
    requires n <= |plans| && FailsLast(answers, n, i)
    ensures LastError(Failures(plans, answers, n)) == Some(answers(i).value)
  {
    if i < n - 1 {
      assert answers(n - 1).None?;
      LastIsLast(plans, answers, n - 1, i);
      assert Failures(plans, answers, n) == Failures(plans, answers, n - 1);
    }
  }

  /** Plan `i` failed and names expert `e`. */
  ghost predicate FailsExpert(plans: seq<Plan>, answers: Answers, e: nat, i: nat) {
    Fails(answers, |plans|, i) && e in plans[i].batch.distinct
  }

  lemma {:induction false} FailuresAre(plans: seq<Plan>, answers: Answers, n: nat, x: Failure)
    requires n <= |plans|
    ensures x in Failures(plans, answers, n) <==> exists i: nat :: Fails(answers, n, i) && x == Failure(plans[i], answers(i).value)
  {
    if n > 0 {
      FailuresAre(plans, answers, n - 1, x);
      if x in Failures(plans, answers, n - 1) {
        var i: nat :| Fails(answers, n - 1, i) && x == Failure(plans[i], answers(i).value);
        assert Fails(answers, n, i);
      }
      if i: nat :| Fails(answers, n, i) && x == Failure(plans[i], answers(i).value) {
        if i < n - 1 { assert Fails(answers, n - 1, i); }
      }
      if answers(n - 1).Some? { assert Fails(answers, n, n - 1); }
    }
  }

  /** The experts of the failed plans. */
  lemma FailedExpertsFailed(plans: seq<Plan>, answers: Answers, e: nat)
    ensures e in FailedExperts(Failures(plans, answers, |plans|)) <==> exists i: nat :: FailsExpert(plans, answers, e, i)
  {
    var failures := Failures(plans, answers, |plans|);
    FailedExpertsAre(failures, e);
    if k :| 0 <= k < |failures| && e in failures[k].plan.batch.distinct {
      FailuresAre(plans, answers, |plans|, failures[k]);
      var i: nat :| Fails(answers, |plans|, i) && failures[k] == Failure(plans[i], answers(i).value);
      assert FailsExpert(plans, answers, e, i);
    }
    if i: nat :| FailsExpert(plans, answers, e, i) {
      FailuresAre(plans, answers, |plans|, Failure(plans[i], answers(i).value));
      var k :| 0 <= k < |failures| && failures[k] == Failure(plans[i], answers(i).value);
      assert e in failures[k].plan.batch.distinct;
    }
  }

  lemma {:induction false} FailedByAre(failures: seq<Failure>, e: nat, id: Identity)
    ensures id in FailedBy(failures, e) <==>
              exists k :: 0 <= k < |failures| && e in failures[k].plan.batch.distinct && failures[k].plan.target.identity == id
    decreases |failures|
  {
    if failures != [] {
      var front := failures[..|failures| - 1];
      FailedByAre(front, e, id);
      if k :| 0 <= k < |failures| && e in failures[k].plan.batch.distinct && failures[k].plan.target.identity == id {
        if k < |front| { assert front[k] == failures[k]; }
      }
      if k :| 0 <= k < |front| && e in front[k].plan.batch.distinct && front[k].plan.target.identity == id {
        assert failures[k] == front[k];
      }
    }
  }

  /** The processes that failed an expert. */
  lemma FailedByFailed(plans: seq<Plan>, answers: Answers, e: nat, id: Identity)
    ensures id in FailedBy(Failures(plans, answers, |plans|), e) <==>
              exists i: nat :: FailsExpert(plans, answers, e, i) && plans[i].target.identity == id
  {
    var failures := Failures(plans, answers, |plans|);
    FailedByAre(failures, e, id);
    if k :| 0 <= k < |failures| && e in failures[k].plan.batch.distinct && failures[k].plan.target.identity == id {
      FailuresAre(plans, answers, |plans|, failures[k]);
      var i: nat :| Fails(answers, |plans|, i) && failures[k] == Failure(plans[i], answers(i).value);
      assert FailsExpert(plans, answers, e, i);
    }
    if i: nat :| FailsExpert(plans, answers, e, i) && plans[i].target.identity == id {
      FailuresAre(plans, answers, |plans|, Failure(plans[i], answers(i).value));
      var k :| 0 <= k < |failures| && failures[k] == Failure(plans[i], answers(i).value);
      assert e in failures[k].plan.batch.distinct;
    }
  }

  /** A retry plan goes back to a process that failed one of its experts. */
  ghost predicate GoesBack(plans: seq<Plan>, answers: Answers, retry: seq<Plan>) {
    exists k: nat, e: nat, i: nat :: k < |retry| && e in retry[k].batch.distinct && FailsExpert(plans, answers, e, i)
                                     && plans[i].target.identity == retry[k].target.identity
  }

  lemma ReusesIsGoingBack(plans: seq<Plan>, answers: Answers, retry: seq<Plan>)
    ensures ReusesProcess(retry, Failures(plans, answers, |plans|)) <==> GoesBack(plans, answers, retry)
  {
    var failures := Failures(plans, answers, |plans|);
    if k :| 0 <= k < |retry| && UsesFailedProcess(retry[k], failures) {
      var e :| e in retry[k].batch.distinct && retry[k].target.identity in FailedBy(failures, e);
      FailedByFailed(plans, answers, e, retry[k].target.identity);
      var i: nat :| FailsExpert(plans, answers, e, i) && plans[i].target.identity == retry[k].target.identity;
      assert GoesBack(plans, answers, retry);
    }
    if k: nat, e: nat, i: nat :| k < |retry| && e in retry[k].batch.distinct && FailsExpert(plans, answers, e, i)
                                 && plans[i].target.identity == retry[k].target.identity {
      FailedByFailed(plans, answers, e, retry[k].target.identity);
      assert UsesFailedProcess(retry[k], failures);
    }
  }

  // ---------------------------------------------------------------- what ends a layer

  /** The refreshed snapshot is older than a failed Worker asks for: the error names the highest version
      asked for and the experts of the failed plans. */
  ghost predicate AsksForNewer(e: TransportError, plans: seq<Plan>, answers: Answers) {
    && e.code == Unavailable && e.retryable && e.minVersion.Some?
    && AsksFor(answers, |plans|, e.minVersion.value) && AsksAtMost(answers, |plans|, e.minVersion.value)
    && NamesFailed(e.unavailable, plans, answers)
  }

  ghost predicate NamesFailed(ids: seq<nat>, plans: seq<Plan>, answers: Answers) {
    StrictlyIncreasing(ids) && forall x: nat :: x in ids <==> exists i: nat :: FailsExpert(plans, answers, x, i)
  }

  lemma FailedAreNamed(plans: seq<Plan>, answers: Answers)
    ensures NamesFailed(SortedIds(FailedExperts(Failures(plans, answers, |plans|))), plans, answers)
  {
    var failed := FailedExperts(Failures(plans, answers, |plans|));
    forall x: nat ensures x in SortedIds(failed) <==> exists i: nat :: FailsExpert(plans, answers, x, i) {
      FailedExpertsFailed(plans, answers, x);
      assert x in SortedIds(failed) <==> x in failed;
    }
  }

  /** How a dispatched retry ends. */
  ghost predicate RetryEnds(plans: seq<Plan>, first: Attempt, second: Attempt, clock: Clock, retry: seq<Plan>, error: Option<TransportError>) {
    var back := GoesBack(plans, first.answers, retry);
    && (back && clock.noTimeToWait ==> forall i: nat :: FailsLast(first.answers, |plans|, i) ==> error == Some(first.answers(i).value))
    && (back && !clock.noTimeToWait && clock.expiredInWait ==> error == Some(Expired))
    && (!(back && (clock.noTimeToWait || clock.expiredInWait)) ==>
          && (AllAnswer(second.answers, |retry|) ==> error == None)
          && forall i: nat :: FailsLast(second.answers, |retry|, i) ==> error == Some(second.answers(i).value))
  }

  /** How grouped plans end: on what the Workers answered, the refresh brought and the clock said. */
  ghost predicate PlansEnd(batch: LayerBatch, first: Attempt, avoid: Avoid, refreshed: Result<TopologySnapshot, TransportError>,
                           second: Attempt, clock: Clock, plans: seq<Plan>, retry: seq<Plan>, error: Option<TransportError>)
  {
    var answers, n := first.answers, |plans|;
    && (AllAnswer(answers, n) ==> error == None)
    && (forall i: nat :: FailsFirst(answers, n, i) ==> error == Some(answers(i).value))
    && (!AllAnswer(answers, n) && AllRetryable(answers, n) ==>
          && (refreshed.Err? ==> error == Some(refreshed.error))
          && (refreshed.Ok? && clock.expiredInRefresh ==> error == Some(Expired))
          && (refreshed.Ok? && !clock.expiredInRefresh && !AsksAtMost(answers, n, refreshed.value.version) ==>
                error.Some? && AsksForNewer(error.value, plans, answers))
          && (refreshed.Ok? && !clock.expiredInRefresh && AsksAtMost(answers, n, refreshed.value.version) ==>
                var refusal := GroupRefusal(Unfinished(batch, Failures(plans, answers, n)), refreshed.value, avoid);
                if refusal.Some? then error == refusal else RetryEnds(plans, first, second, clock, retry, error)))
  }

  lemma TooOldAsks(plans: seq<Plan>, answers: Answers, version: nat)
    ensures TooOld(Failures(plans, answers, |plans|), version) <==> !AsksAtMost(answers, |plans|, version)
  {
    RequiredIsHighest(plans, answers, |plans|);
  }

  lemma TooOldEnds(plans: seq<Plan>, answers: Answers, version: nat)
    requires TooOld(Failures(plans, answers, |plans|), version)
    ensures var failures := Failures(plans, answers, |plans|);
            AsksForNewer(TransportError(Unavailable, true, RequiredVersion(failures), SortedIds(FailedExperts(failures))), plans, answers)
  {
    RequiredIsHighest(plans, answers, |plans|);
    FailedAreNamed(plans, answers);
  }

  lemma RetryEndEnds(plans: seq<Plan>, first: Attempt, second: Attempt, clock: Clock, retry: seq<Plan>)
    requires Failures(plans, first.answers, |plans|) != []
    ensures RetryEnds(plans, first, second, clock, retry, RetryEnd(Failures(plans, first.answers, |plans|), second, clock, retry))
  {
    var failures := Failures(plans, first.answers, |plans|);
    ReusesIsGoingBack(plans, first.answers, retry);
    NoFailures(retry, second.answers, |retry|);
    forall i: nat | FailsLast(first.answers, |plans|, i) ensures LastError(failures) == Some(first.answers(i).value) {
      LastIsLast(plans, first.answers, |plans|, i);
    }
    forall i: nat | FailsLast(second.answers, |retry|, i)
      ensures LastError(Failures(retry, second.answers, |retry|)) == Some(second.answers(i).value)
    {
      LastIsLast(retry, second.answers, |retry|, i);
    }
  }

  /** The specified error is the one the answers call for. */
  lemma PlansErrorEnds(batch: LayerBatch, first: Attempt, avoid: Avoid, refreshed: Result<TopologySnapshot, TransportError>,
                       second: Attempt, clock: Clock, plans: seq<Plan>, retry: seq<Plan>)
    ensures PlansEnd(batch, first, avoid, refreshed, second, clock, plans, retry,
                     PlansError(batch, first, avoid, refreshed, second, clock, plans, retry))
  {
    var failures := Failures(plans, first.answers, |plans|);
    NoFailures(plans, first.answers, |plans|);
    forall i: nat | FailsFirst(first.answers, |plans|, i) ensures FirstFatal(failures) == Some(first.answers(i).value) {
      FatalIsFirst(plans, first.answers, |plans|, i);
    }
    if AllRetryable(first.answers, |plans|) { NoneFatal(plans, first.answers, |plans|); }
    if failures != [] {
      RetryEndEnds(plans, first, second, clock, retry);
      if refreshed.Ok? {
        TooOldAsks(plans, first.answers, refreshed.value.version);
        if TooOld(failures, refreshed.value.version) { TooOldEnds(plans, first.answers, refreshed.value.version); }
      }
    }
  }

  /** The state between the two attempts: every success is accumulated, every failure can be retried. */
  ghost predicate HalfDone(batch: LayerBatch, plans: seq<Plan>, answers: Answers, failures: seq<Failure>, f: (nat, nat) -> real, acc: seq<real>) {
    && Partition(plans, batch.rows) && failures == Failures(plans, answers, |plans|)
    && FailuresExact(failures, batch.rows) && |acc| == |batch.rows|
    && forall t :: 0 <= t < |batch.rows| ==> acc[t] == PlanSum(f, Succeeded(plans, answers, |plans|), t)
  }

  ghost predicate IsPlainSum(result: seq<real>, batch: LayerBatch, f: (nat, nat) -> real) {
    |result| == |batch.rows| && forall t :: 0 <= t < |result| ==> result[t] == PlainSum(f, batch.rows, t)
  }

  /** Group what failed against the refreshed snapshot, away from the processes that failed it. */
  method PlanRetry(batch: LayerBatch, failures: seq<Failure>, topology: TopologySnapshot, selector: RoundRobinSelector)
    returns (r: Result<seq<Plan>, TransportError>, ghost avoid: Avoid)
    requires FailuresExact(failures, batch.rows) && ValidSnapshot(topology)
    modifies selector
    ensures AvoidsFailed(avoid, failures)
    ensures r.Err? <==> GroupRefusal(Unfinished(batch, failures), topology, avoid).Some?
    ensures r.Err? ==> Some(r.error) == GroupRefusal(Unfinished(batch, failures), topology, avoid)
    ensures r.Ok? ==> RetryOk(batch, failures, topology, r.value)
  {
    var unfinished, failed := UnfinishedBatch(batch, failures);
    UnfinishedIsExact(batch, failures);
    avoid := Avoid({}, failed, true);
    ghost var picks;
    r, picks := GroupWorkerBatches(unfinished, topology, selector, Avoid({}, failed, true), false);
    if r.Ok? { GroupingIsRetry(batch, failures, topology, avoid, r.value, picks); }
  }

  /** Dispatch the retry plans; when none fails, the accumulator holds the plain sum. */
  method DispatchRetry(batch: LayerBatch, ghost plans: seq<Plan>, ghost answers: Answers, failures: seq<Failure>,
                       retry: seq<Plan>, f: (nat, nat) -> real, second: Attempt, acc: array<real>)
    returns (error: Option<TransportError>)
    requires ValidAttempt(second) && HalfDone(batch, plans, answers, failures, f, acc[..])
    requires Partition(retry, Unfinished(batch, failures).rows)
    modifies acc
    ensures error == LastError(Failures(retry, second.answers, |retry|))
    ensures error.None? ==> IsPlainSum(acc[..], batch, f)
  {
    ghost var before := acc[..];
    assert TokensWithin(retry, acc.Length) by {
      RetryIsFaithful(batch.rows, PlansOf(failures), retry);
      FaithfulWithin(retry, batch.rows);
    }
    var again := DispatchOnce(retry, f, second.order(|retry|), second.answers, acc);
    if again != [] { return Some(again[|again| - 1].error); }
    ghost var after := acc[..];
    assert forall t :: 0 <= t < |after| ==> after[t] == before[t] + PlanSum(f, Succeeded(retry, second.answers, |retry|), t);
    RetryIsWhole(batch, plans, answers, failures, retry, f, second, before, after);
    return None;
  }

  /** A retry that answers in full adds what was missing. */
  lemma RetryIsWhole(batch: LayerBatch, plans: seq<Plan>, answers: Answers, failures: seq<Failure>, retry: seq<Plan>,
                     f: (nat, nat) -> real, second: Attempt, before: seq<real>, after: seq<real>)
    requires HalfDone(batch, plans, answers, failures, f, before) && |after| == |before|
    requires Partition(retry, Unfinished(batch, failures).rows) && Failures(retry, second.answers, |retry|) == []
    requires forall t :: 0 <= t < |after| ==> after[t] == before[t] + PlanSum(f, Succeeded(retry, second.answers, |retry|), t)
    ensures IsPlainSum(after, batch, f)
  {
    AllSucceeded(retry, second.answers, |retry|);
    assert retry[..|retry|] == retry;
    forall t | 0 <= t < |after| ensures after[t] == PlainSum(f, batch.rows, t) {
      RetrySums(f, batch.rows, plans, answers, retry, t);
    }
  }

  /** Wait where a failed process is used again, then dispatch. */
  method FinishRetry(batch: LayerBatch, ghost plans: seq<Plan>, ghost answers: Answers, failures: seq<Failure>,
                     retry: seq<Plan>, f: (nat, nat) -> real, second: Attempt, clock: Clock, acc: array<real>)
    returns (error: Option<TransportError>)
    requires failures != [] && ValidAttempt(second) && HalfDone(batch, plans, answers, failures, f, acc[..])
    requires Partition(retry, Unfinished(batch, failures).rows)
    modifies acc
    ensures error == RetryEnd(failures, second, clock, retry)
    ensures error.None? ==> IsPlainSum(acc[..], batch, f)
  {
    if ReusesProcess(retry, failures) {
      if clock.noTimeToWait { return Some(failures[|failures| - 1].error); }
      if clock.expiredInWait { return Some(Expired); }
    }
    error := DispatchRetry(batch, plans, answers, failures, retry, f, second, acc);
  }

  lemma {:induction false} AllSucceeded(plans: seq<Plan>, answers: Answers, n: nat)
    requires n <= |plans| && Failures(plans, answers, n) == []
    ensures Succeeded(plans, answers, n) == plans[..n]
  {
    if n > 0 { AllSucceeded(plans, answers, n - 1); }
  }

  method RetryLayer(batch: LayerBatch, ghost plans: seq<Plan>, ghost answers: Answers, failures: seq<Failure>,
                    refreshed: Result<TopologySnapshot, TransportError>, selector: RoundRobinSelector,
                    f: (nat, nat) -> real, second: Attempt, clock: Clock, acc: array<real>)
    returns (error: Option<TransportError>, ghost retry: seq<Plan>, ghost avoid: Avoid)
    requires failures != [] && ValidAttempt(second) && HalfDone(batch, plans, answers, failures, f, acc[..])
    requires refreshed.Ok? ==> ValidSnapshot(refreshed.value)
    modifies selector, acc
    ensures error == RetryError(batch, failures, avoid, refreshed, second, clock, retry)
    ensures error.None? ==> IsPlainSum(acc[..], batch, f)
    ensures retry != [] ==> refreshed.Ok? && AvoidsFailed(avoid, failures) && RetryOk(batch, failures, refreshed.value, retry)
  {
    retry, avoid := [], AvoidNone;
    if refreshed.Err? { return Some(refreshed.error), retry, avoid; }
    if clock.expiredInRefresh { return Some(Expired), retry, avoid; }
    if TooOld(failures, refreshed.value.version) {
      error := Some(TransportError(Unavailable, true, RequiredVersion(failures), SortedIds(FailedExperts(failures))));
      return;
    }
    var grouped;
    grouped, avoid := PlanRetry(batch, failures, refreshed.value, selector);
    if grouped.Err? { return Some(grouped.error), retry, avoid; }
    retry := grouped.value;
    error := FinishRetry(batch, plans, answers, failures, grouped.value, f, second, clock, acc);
  }

  /** The failed plans of a grouping can be rebuilt. */
  lemma GroupedFailures(batch: LayerBatch, plans: seq<Plan>, version: nat, picks: map<nat, Connection>, answers: Answers)
    requires Partition(plans, batch.rows) && AllGrouped(plans, batch, version, picks)
    ensures FailuresExact(Failures(plans, answers, |plans|), batch.rows)
  {
    SubsetsKeep(plans, answers, |plans|, (p: Plan) => Faithful(p.batch, batch.rows) && ExactExperts(p.batch.rows, p.batch.distinct));
  }

  /** Why grouped plans end in an error, if they do. */
  ghost function PlansError(batch: LayerBatch, first: Attempt, avoid: Avoid, refreshed: Result<TopologySnapshot, TransportError>,
                            second: Attempt, clock: Clock, plans: seq<Plan>, retry: seq<Plan>): Option<TransportError>
  {
    var failures := Failures(plans, first.answers, |plans|);
    if failures == [] then None
    else if FirstFatal(failures).Some? then FirstFatal(failures)
    else RetryError(batch, failures, avoid, refreshed, second, clock, retry)
  }

  /** Why one layer ends in an error, if it does. */
  ghost function LayerError(batch: LayerBatch, snapshot: TopologySnapshot, first: Attempt, avoid: Avoid,
                            refreshed: Result<TopologySnapshot, TransportError>, second: Attempt, clock: Clock,
                            plans: seq<Plan>, retry: seq<Plan>): Option<TransportError>
  {
    if clock.expiredAtStart then Some(Expired)
    else if GroupRefusal(batch, snapshot, AvoidNone).Some? then GroupRefusal(batch, snapshot, AvoidNone)
    else PlansError(batch, first, avoid, refreshed, second, clock, plans, retry)
  }

  /** Both attempts over the plans of one grouping. */
  method RunPlans(batch: LayerBatch, plans: seq<Plan>, ghost version: nat, ghost picks: map<nat, Connection>, selector: RoundRobinSelector,
                  f: (nat, nat) -> real, first: Attempt, refreshed: Result<TopologySnapshot, TransportError>, second: Attempt, clock: Clock)
    returns (error: Option<TransportError>, result: seq<real>, ghost retry: seq<Plan>, ghost avoid: Avoid)
    requires Partition(plans, batch.rows) && AllGrouped(plans, batch, version, picks)
    requires ValidAttempt(first) && ValidAttempt(second) && (refreshed.Ok? ==> ValidSnapshot(refreshed.value))
    modifies selector
    ensures error == PlansError(batch, first, avoid, refreshed, second, clock, plans, retry)
    ensures error.None? ==> IsPlainSum(result, batch, f)
    ensures retry != [] ==> refreshed.Ok? && RetryOk(batch, Failures(plans, first.answers, |plans|), refreshed.value, retry)
  {
    retry, avoid, result := [], AvoidNone, [];
    if |plans| == 1 { assert GroupedPlan(plans[0], batch, version, picks); }
    var acc, failures := FirstAttempt(batch, plans, f, first);
    if failures == [] {
      AllSum(batch, plans, first.answers, f);
      return None, acc[..], retry, avoid;
    }
    var fatal := FirstFatal(failures);
    if fatal.Some? { return fatal, result, retry, avoid; }
    GroupedFailures(batch, plans, version, picks, first.answers);
    error, retry, avoid := RetryLayer(batch, plans, first.answers, failures, refreshed, selector, f, second, clock, acc);
    result := acc[..];
  }

  function ErrorOf<T>(r: Result<T, TransportError>): Option<TransportError> { if r.Err? then Some(r.error) else None }

  /** Whatever replicas are chosen, tasks interleave and Workers answer: a returned layer is the plain
      weighted sum of every assignment, and an error is one the attempts really met. */
  method ExecuteRoutedLayer(batch: LayerBatch, snapshot: TopologySnapshot, selector: RoundRobinSelector, f: (nat, nat) -> real,
                            first: Attempt, refreshed: Result<TopologySnapshot, TransportError>, second: Attempt, clock: Clock)
    returns (r: Result<seq<real>, TransportError>, ghost plans: seq<Plan>, ghost retry: seq<Plan>, ghost avoid: Avoid)
    requires ExactExperts(batch.rows, batch.distinct) && ValidAttempt(first) && ValidAttempt(second)
    requires ValidSnapshot(snapshot) && (refreshed.Ok? ==> ValidSnapshot(refreshed.value))
    modifies selector
    ensures r.Ok? ==> IsPlainSum(r.value, batch, f)
    ensures r.Err? <==> LayerError(batch, snapshot, first, avoid, refreshed, second, clock, plans, retry).Some?
    ensures r.Err? ==> Some(r.error) == LayerError(batch, snapshot, first, avoid, refreshed, second, clock, plans, retry)
    ensures clock.expiredAtStart ==> r == Err(Expired)
    ensures !clock.expiredAtStart && GroupRefusal(batch, snapshot, AvoidNone).None? ==>
              PlansEnd(batch, first, avoid, refreshed, second, clock, plans, retry, ErrorOf(r))
    ensures plans != [] ==> Partition(plans, batch.rows)
    ensures retry != [] ==> refreshed.Ok? && RetryOk(batch, Failures(plans, first.answers, |plans|), refreshed.value, retry)
  {
    plans, retry, avoid := [], [], AvoidNone;
    if clock.expiredAtStart { return Err(Expired), plans, retry, avoid; }
    var grouped; ghost var picks;
    grouped, picks := GroupWorkerBatches(batch, snapshot, selector, AvoidNone, true);
    if grouped.Err? { return Err(grouped.error), plans, retry, avoid; }
    plans := grouped.value;
    if grouped.value == [] {
      ZeroSum(batch, f);
      PlansErrorEnds(batch, first, avoid, refreshed, second, clock, plans, retry);
      r := Ok(seq(|batch.rows|, _ => 0.0));
      return;
    }
    var error, result;
    error, result, retry, avoid := RunPlans(batch, grouped.value, snapshot.version, picks, selector, f, first, refreshed, second, clock);
    PlansErrorEnds(batch, first, avoid, refreshed, second, clock, plans, retry);
    r := if error.Some? then Err(error.value) else Ok(result);
  }

  lemma ZeroSum(batch: LayerBatch, f: (nat, nat) -> real)
    requires Partition([], batch.rows)
    ensures forall t :: 0 <= t < |batch.rows| ==> PlainSum(f, batch.rows, t) == 0.0
  {
    forall t | 0 <= t < |batch.rows| ensures PlainSum(f, batch.rows, t) == 0.0 { PartitionSums(f, [], batch.rows, t); }
  }

  lemma AllSum(batch: LayerBatch, plans: seq<Plan>, answers: Answers, f: (nat, nat) -> real)
    requires Partition(plans, batch.rows) && Failures(plans, answers, |plans|) == []
    ensures forall t :: 0 <= t < |batch.rows| ==> PlanSum(f, Succeeded(plans, answers, |plans|), t) == PlainSum(f, batch.rows, t)
  {
    AllSucceeded(plans, answers, |plans|);
    assert plans[..|plans|] == plans;
    forall t | 0 <= t < |batch.rows| ensures PlanSum(f, plans, t) == PlainSum(f, batch.rows, t) { PartitionSums(f, plans, batch.rows, t); }
  }
}
