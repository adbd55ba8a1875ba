/** Resolve assignments to replicas, group them by Worker, and split physical batches. */
module Grouping {
  import opened Ordering
  import opened Topology
  import opened RoutedBatch
  import opened ExpertLists
  import opened Selection

  datatype TopologySnapshot = TopologySnapshot(instance: nat, version: nat, routes: map<ExpertKey, seq<Connection>>)

  ghost predicate NoProcessTwice(replicas: seq<Connection>) {
    forall i, j :: 0 <= i < j < |replicas| ==> replicas[i].identity != replicas[j].identity
  }

  /** What constructing a snapshot enforces. */
  ghost predicate ValidSnapshot(topology: TopologySnapshot) {
    && (forall key :: key in topology.routes ==> NoProcessTwice(topology.routes[key]))
    && (forall key :: key in topology.routes ==> topology.routes[key] != [])
    && (forall key, c :: key in topology.routes && c in topology.routes[key] ==> c.maxBatchTokens > 0)
    && (forall key, c, other, d ::
          (key in topology.routes && c in topology.routes[key] && other in topology.routes && d in topology.routes[other])
          ==> (c.identity == d.identity ==> c == d))
  }

  // ---------------------------------------------------------------- splitting

  /** One plan of `b` for `target`: within the row limit and with its exact expert list. */
  ghost predicate PieceOf(plan: Plan, target: Connection, b: WorkerBatch) {
    && plan.target == target
    && plan.batch.instance == b.instance && plan.batch.layer == b.layer && plan.batch.version == b.version
    && 0 < |plan.batch.rows| <= target.maxBatchTokens
    && ExactExperts(plan.batch.rows, plan.batch.distinct)
    && (forall e :: e in plan.batch.distinct ==> e in b.distinct)
    && StrictlyIncreasing(TokensOf(plan.batch))
    && (plan.batch.tokens.None? ==> plan.batch == b)
  }

  /** Every row keeps its token and every assignment its place: nothing is lost or repeated. */
  ghost predicate SameHits(plans: seq<Plan>, tokens: seq<nat>, rows: seq<Row>, n: nat) {
    && n <= |tokens| == |rows|
    && forall t: nat, s: nat :: PlanHits(plans, t, s) == HitsUpTo(tokens, rows, n, t, s)
  }

  function Slice(b: WorkerBatch, tokens: seq<nat>, start: nat, stop: nat, distinct: seq<nat>): WorkerBatch
    requires start <= stop <= |tokens| == |b.rows|
  {
    WorkerBatch(b.instance, b.layer, b.version, Some(tokens[start..stop]), b.rows[start..stop], distinct)
  }

  lemma AppendSlice(plans: seq<Plan>, target: Connection, b: WorkerBatch, tokens: seq<nat>, start: nat, stop: nat, distinct: seq<nat>)
    requires start <= stop <= |tokens| == |b.rows| && SameHits(plans, tokens, b.rows, start)
    ensures SameHits(plans + [Plan(target, Slice(b, tokens, start, stop, distinct))], tokens, b.rows, stop)
  {
    var piece := Plan(target, Slice(b, tokens, start, stop, distinct));
    forall t: nat, s: nat ensures PlanHits(plans + [piece], t, s) == HitsUpTo(tokens, b.rows, stop, t, s) {
      HitsOfStretch(tokens, b.rows, start, tokens[start..stop], b.rows[start..stop], stop - start, t, s);
      assert start + (stop - start) == stop;
      assert (plans + [piece])[..|plans|] == plans;
    }
  }

  lemma SliceNames(rows: seq<Row>, distinct: seq<nat>, start: nat, stop: nat, part: seq<nat>)
    requires start <= stop <= |rows| && ExactExperts(rows, distinct) && ExactExperts(rows[start..stop], part)
    ensures forall e :: e in part ==> e in distinct
  {
    forall e | e in part ensures e in distinct {
      var r, s :| 0 <= r < stop - start && 0 <= s < |rows[start..stop][r]| && rows[start..stop][r][s].expert == e;
      assert rows[start + r][s].expert == e;
      assert Names(rows, e);
    }
  }

  method SplitBatch(target: Connection, b: WorkerBatch, ghost source: seq<Row>) returns (plans: seq<Plan>)
    requires target.maxBatchTokens > 0 && b.rows != [] && ExactExperts(b.rows, b.distinct)
    requires Faithful(b, source) && StrictlyIncreasing(TokensOf(b))
    ensures SplitSoFar(plans, target, b, TokensOf(b), source, |b.rows|)
  {
    if |b.rows| <= target.maxBatchTokens {
      plans := [Plan(target, b)];
      assert plans[..0] == [];
      assert PieceOf(plans[0], target, b);
      return;
    }
    plans := SplitRows(target, b, TokensOf(b), source);
  }

  /** The first `n` rows are split, each piece on its own terms. */
  ghost predicate SplitSoFar(plans: seq<Plan>, target: Connection, b: WorkerBatch, tokens: seq<nat>, source: seq<Row>, n: nat) {
    && PlansFaithful(plans, source) && SameHits(plans, tokens, b.rows, n)
    && forall i :: 0 <= i < |plans| ==> PieceOf(plans[i], target, b)
  }

  lemma SliceIsPiece(target: Connection, b: WorkerBatch, tokens: seq<nat>, source: seq<Row>, start: nat, stop: nat, distinct: seq<nat>)
    requires start < stop <= |tokens| == |b.rows| && stop - start <= target.maxBatchTokens
    requires RowsFaithful(tokens, b.rows, source) && StrictlyIncreasing(tokens)
    requires ExactExperts(b.rows, b.distinct) && ExactExperts(b.rows[start..stop], distinct)
    ensures PieceOf(Plan(target, Slice(b, tokens, start, stop, distinct)), target, b)
    ensures Faithful(Slice(b, tokens, start, stop, distinct), source)
  {
    SliceNames(b.rows, b.distinct, start, stop, distinct);
  }

  lemma SplitStep(plans: seq<Plan>, target: Connection, b: WorkerBatch, tokens: seq<nat>, source: seq<Row>,
                  start: nat, stop: nat, distinct: seq<nat>)
    requires start < stop <= |tokens| == |b.rows| && stop - start <= target.maxBatchTokens
    requires RowsFaithful(tokens, b.rows, source) && StrictlyIncreasing(tokens)
    requires ExactExperts(b.rows, b.distinct) && ExactExperts(b.rows[start..stop], distinct)
    requires SplitSoFar(plans, target, b, tokens, source, start)
    ensures SplitSoFar(plans + [Plan(target, Slice(b, tokens, start, stop, distinct))], target, b, tokens, source, stop)
  {
    SliceIsPiece(target, b, tokens, source, start, stop, distinct);
    AppendSlice(plans, target, b, tokens, start, stop, distinct);
  }

  lemma ChunkIsSlice(rows: seq<Row>, size: nat, c: nat, lists: seq<seq<nat>>)
    requires size > 0 && |lists| == ChunkCount(|rows|, size) && c * size < |rows|
    requires forall c :: 0 <= c < |lists| ==> c * size <= |rows| && ExactExperts(Chunk(rows, size, c), lists[c])
    ensures c < |lists| && ExactExperts(rows[c * size..ChunkStop(|rows|, size, c)], lists[c])
  {
    ChunkOfRow(c * size, size, c);
    RowHasChunk(c * size, |rows|, size);
    assert Chunk(rows, size, c) == rows[c * size..ChunkStop(|rows|, size, c)];
  }

  method SplitRows(target: Connection, b: WorkerBatch, tokens: seq<nat>, ghost source: seq<Row>) returns (plans: seq<Plan>)
    requires target.maxBatchTokens > 0 && ExactExperts(b.rows, b.distinct)
    requires RowsFaithful(tokens, b.rows, source) && StrictlyIncreasing(tokens)
    ensures SplitSoFar(plans, target, b, tokens, source, |b.rows|)
  {
    var size := target.maxBatchTokens;
    var lists := DistinctExpertsByChunk(b.rows, size, b.distinct);
    plans := [];
    var start, c := 0, 0;
    while start < |b.rows|
      invariant start <= |b.rows| && (start == c * size || start == |b.rows|)
      invariant SplitSoFar(plans, target, b, tokens, source, start)
    {
      var stop := if start + size <= |b.rows| then start + size else |b.rows|;
      ChunkIsSlice(b.rows, size, c, lists);
      SplitStep(plans, target, b, tokens, source, start, stop, lists[c]);
      plans := plans + [Plan(target, Slice(b, tokens, start, stop, lists[c]))];
      assert (c + 1) * size == c * size + size;
      start, c := stop, c + 1;
    }
  }

  // ---------------------------------------------------------------- replica choice

  /** Process starts to avoid, for every expert and for single experts. */
  datatype Avoid = Avoid(all: set<Identity>, byExpert: map<nat, set<Identity>>, fallback: bool)

  function ExcludedFor(avoid: Avoid, e: nat): set<Identity> {
    avoid.all + if e in avoid.byExpert then avoid.byExpert[e] else {}
  }

  function RouteOf(topology: TopologySnapshot, layer: nat, e: nat): seq<Connection> {
    if ExpertKey(layer, e) in topology.routes then topology.routes[ExpertKey(layer, e)] else []
  }

  function Candidates(topology: TopologySnapshot, layer: nat, avoid: Avoid, e: nat): seq<Connection> {
    Eligible(RouteOf(topology, layer, e), ExcludedFor(avoid, e), avoid.fallback)
  }

  function Missing(topology: TopologySnapshot, layer: nat, ids: seq<nat>): seq<nat> {
    if ids == [] then []
    else (if ExpertKey(layer, ids[0]) in topology.routes then [] else [ids[0]]) + Missing(topology, layer, ids[1..])
  }

  /** The first expert of which every replica is excluded. */
  function FirstBlocked(topology: TopologySnapshot, layer: nat, avoid: Avoid, ids: seq<nat>): (r: Option<nat>)
    ensures r.None? ==> forall e :: e in ids ==> Candidates(topology, layer, avoid, e) != []
    ensures r.Some? ==> r.value in ids && Candidates(topology, layer, avoid, r.value) == []
  {
    if ids == [] then None
    else if Candidates(topology, layer, avoid, ids[0]) == [] then Some(ids[0])
    else FirstBlocked(topology, layer, avoid, ids[1..])
  }

  /** The error of a grouping attempt: wrong instance, unrouted experts, or an expert with no eligible replica. */
  function GroupRefusal(batch: LayerBatch, topology: TopologySnapshot, avoid: Avoid): Option<TransportError> {
    if batch.instance != topology.instance then Some(TransportError(InvalidRequest, false, None, [])) else
    var missing := Missing(topology, batch.layer, batch.distinct);
    if missing != [] then Some(UnavailableError(missing)) else
    var blocked := FirstBlocked(topology, batch.layer, avoid, batch.distinct);
    if blocked.Some? then Some(UnavailableError([blocked.value])) else None
  }

  /** `missing` lists, in order, the experts of `ids` without a route. */
  ghost predicate MissingOf(missing: seq<nat>, topology: TopologySnapshot, layer: nat, ids: seq<nat>) {
    && (forall e :: e in missing <==> e in ids && ExpertKey(layer, e) !in topology.routes)
    && (StrictlyIncreasing(ids) ==> StrictlyIncreasing(missing))
  }

  lemma {:induction false} MissingIs(topology: TopologySnapshot, layer: nat, ids: seq<nat>)
    ensures MissingOf(Missing(topology, layer, ids), topology, layer, ids)
    decreases |ids|
  {
    if ids != [] {
      var rest, tail := ids[1..], Missing(topology, layer, ids[1..]);
      assert ids == [ids[0]] + rest;
      MissingIs(topology, layer, rest);
      if StrictlyIncreasing(ids) {
        assert StrictlyIncreasing(rest);
        forall i | 0 <= i < |tail| ensures ids[0] < tail[i] {
          assert tail[i] in tail;
          var k :| 0 <= k < |rest| && rest[k] == tail[i];
          assert ids[k + 1] == rest[k];
        }
      }
    }
  }

  /** Every replica of the expert is to be avoided, and there is no falling back. */
  ghost predicate Blocked(topology: TopologySnapshot, layer: nat, avoid: Avoid, e: nat) {
    && (forall c :: c in RouteOf(topology, layer, e) ==> c.identity in avoid.all || (e in avoid.byExpert && c.identity in avoid.byExpert[e]))
    && (avoid.fallback ==> RouteOf(topology, layer, e) == [])
  }

  lemma BlockedIs(topology: TopologySnapshot, layer: nat, avoid: Avoid, e: nat)
    ensures Candidates(topology, layer, avoid, e) == [] <==> Blocked(topology, layer, avoid, e)
  {
  }

  lemma {:induction false} FirstBlockedIs(topology: TopologySnapshot, layer: nat, avoid: Avoid, ids: seq<nat>) returns (i: nat)
    requires FirstBlocked(topology, layer, avoid, ids).Some?
    ensures i < |ids| && FirstBlocked(topology, layer, avoid, ids) == Some(ids[i]) && Blocked(topology, layer, avoid, ids[i])
    ensures forall j :: 0 <= j < i ==> !Blocked(topology, layer, avoid, ids[j])
    decreases |ids|
  {
    BlockedIs(topology, layer, avoid, ids[0]);
    if Candidates(topology, layer, avoid, ids[0]) == [] {
      i := 0;
    } else {
      var k := FirstBlockedIs(topology, layer, avoid, ids[1..]);
      i := k + 1;
    }
  }

  /** Why a batch cannot be grouped: it is for another instance; or the error lists exactly the experts
      without a route; or it names the first expert all of whose replicas are to be avoided. */
  ghost predicate RefusedFor(batch: LayerBatch, topology: TopologySnapshot, avoid: Avoid, refusal: Option<TransportError>) {
    if batch.instance != topology.instance then refusal == Some(TransportError(InvalidRequest, false, None, []))
    else if exists e :: e in batch.distinct && ExpertKey(batch.layer, e) !in topology.routes then
      && refusal.Some? && refusal.value == TransportError(Unavailable, true, None, refusal.value.unavailable)
      && MissingOf(refusal.value.unavailable, topology, batch.layer, batch.distinct)
    else if exists e :: e in batch.distinct && Blocked(topology, batch.layer, avoid, e) then
      exists i :: 0 <= i < |batch.distinct| && refusal == Some(TransportError(Unavailable, true, None, [batch.distinct[i]]))
                  && Blocked(topology, batch.layer, avoid, batch.distinct[i])
                  && forall j :: 0 <= j < i ==> !Blocked(topology, batch.layer, avoid, batch.distinct[j])
    else refusal == None
  }

  lemma RefusalIs(batch: LayerBatch, topology: TopologySnapshot, avoid: Avoid)
    ensures RefusedFor(batch, topology, avoid, GroupRefusal(batch, topology, avoid))
  {
    var missing := Missing(topology, batch.layer, batch.distinct);
    MissingIs(topology, batch.layer, batch.distinct);
    if missing != [] { assert missing[0] in missing; }
    var blocked := FirstBlocked(topology, batch.layer, avoid, batch.distinct);
    if blocked.Some? {
      var i := FirstBlockedIs(topology, batch.layer, avoid, batch.distinct);
      assert batch.distinct[i] in batch.distinct;
    } else {
      forall e | e in batch.distinct ensures !Blocked(topology, batch.layer, avoid, e) { BlockedIs(topology, batch.layer, avoid, e); }
    }
  }

  datatype Choice = Choice(picks: map<nat, Connection>, targets: map<Identity, Connection>, experts: map<Identity, seq<nat>>)

  ghost predicate PicksOk(picks: map<nat, Connection>, topology: TopologySnapshot, layer: nat, avoid: Avoid) {
    forall e :: e in picks ==> picks[e] in Candidates(topology, layer, avoid, e)
  }

  /** Exactly the first `n` of `ids` are picked. */
  ghost predicate PickedUpTo(picks: map<nat, Connection>, ids: seq<nat>, n: nat)
    requires n <= |ids|
  {
    && (forall i :: 0 <= i < n ==> ids[i] in picks)
    && (forall e :: e in picks ==> exists i :: 0 <= i < n && ids[i] == e)
  }

  /** The sorted experts picked for one process. */
  ghost predicate ListOf(list: seq<nat>, picks: map<nat, Connection>, id: Identity) {
    StrictlyIncreasing(list) && forall e: nat :: e in list <==> e in picks && picks[e].identity == id
  }

  /** The per-Worker dictionaries agree with the picks. */
  ghost predicate ChoiceOk(choice: Choice) {
    && choice.experts.Keys == choice.targets.Keys
    && (forall e :: e in choice.picks ==>
          choice.picks[e].identity in choice.targets && choice.targets[choice.picks[e].identity] == choice.picks[e])
    && (forall id :: id in choice.targets ==> choice.targets[id].identity == id && choice.experts[id] != [])
    && (forall id :: id in choice.experts ==> ListOf(choice.experts[id], choice.picks, id))
  }

  function ExpertsAt(choice: Choice, id: Identity): seq<nat> {
    if id in choice.experts then choice.experts[id] else []
  }

  function AddPick(choice: Choice, e: nat, target: Connection): Choice {
    Choice(choice.picks[e := target], choice.targets[target.identity := target],
           choice.experts[target.identity := ExpertsAt(choice, target.identity) + [e]])
  }

  lemma ListOfGrows(list: seq<nat>, picks: map<nat, Connection>, e: nat, target: Connection)
    requires ListOf(list, picks, target.identity) && forall g :: g in picks ==> g < e
    ensures ListOf(list + [e], picks[e := target], target.identity)
  {
    forall i | 0 <= i < |list| ensures list[i] < e { assert list[i] in list; }
  }

  lemma ListOfOther(list: seq<nat>, picks: map<nat, Connection>, e: nat, target: Connection, id: Identity)
    requires ListOf(list, picks, id) && target.identity != id && e !in picks
    ensures ListOf(list, picks[e := target], id)
  {
  }

  lemma NoneListed(choice: Choice, id: Identity)
    requires ChoiceOk(choice)
    ensures ListOf(ExpertsAt(choice, id), choice.picks, id)
  {
  }

  lemma AddPickOk(choice: Choice, e: nat, target: Connection)
    requires ChoiceOk(choice) && forall g :: g in choice.picks ==> g < e
    requires target.identity in choice.targets ==> choice.targets[target.identity] == target
    ensures ChoiceOk(AddPick(choice, e, target))
  {
    var next := AddPick(choice, e, target);
    forall id | id in next.experts ensures ListOf(next.experts[id], next.picks, id) {
      if id == target.identity {
        NoneListed(choice, id);
        ListOfGrows(ExpertsAt(choice, id), choice.picks, e, target);
      } else {
        ListOfOther(choice.experts[id], choice.picks, e, target, id);
      }
    }
  }

  /** Routes of one snapshot give one connection per process. */
  lemma SameProcess(topology: TopologySnapshot, layer: nat, e: nat, c: Connection, g: nat, d: Connection)
    requires ValidSnapshot(topology) && c in RouteOf(topology, layer, e) && d in RouteOf(topology, layer, g)
    requires c.identity == d.identity
    ensures c == d
  {
  }

  lemma CandidateIsReplica(topology: TopologySnapshot, layer: nat, avoid: Avoid, e: nat, c: Connection)
    requires c in Candidates(topology, layer, avoid, e)
    ensures c in RouteOf(topology, layer, e)
  {
  }

  /** Every Worker in the dictionaries was picked for some expert. */
  lemma SomeExpert(choice: Choice, id: Identity) returns (e: nat)
    requires ChoiceOk(choice) && id in choice.targets
    ensures e in choice.picks && choice.picks[e] == choice.targets[id]
  {
    var list := choice.experts[id];
    assert ListOf(list, choice.picks, id);
    e := list[0];
    assert e in list;
  }

  /** So an earlier pick of the same process is the same connection. */
  lemma PickIsConsistent(choice: Choice, topology: TopologySnapshot, layer: nat, avoid: Avoid, e: nat, target: Connection)
    requires ValidSnapshot(topology) && ChoiceOk(choice) && PicksOk(choice.picks, topology, layer, avoid)
    requires target in Candidates(topology, layer, avoid, e)
    ensures target.identity in choice.targets ==> choice.targets[target.identity] == target
  {
    if target.identity in choice.targets {
      var g := SomeExpert(choice, target.identity);
      CandidateIsReplica(topology, layer, avoid, g, choice.picks[g]);
      CandidateIsReplica(topology, layer, avoid, e, target);
      SameProcess(topology, layer, g, choice.picks[g], e, target);
    }
  }

  lemma PickedOneMore(picks: map<nat, Connection>, ids: seq<nat>, n: nat, target: Connection)
    requires n < |ids| && PickedUpTo(picks, ids, n)
    ensures PickedUpTo(picks[ids[n] := target], ids, n + 1)
  {
    var next := picks[ids[n] := target];
    forall e | e in next ensures exists i :: 0 <= i < n + 1 && ids[i] == e {
      if e in picks {
        var i :| 0 <= i < n && ids[i] == e;
      }
    }
  }

  lemma PickStep(choice: Choice, topology: TopologySnapshot, layer: nat, avoid: Avoid, ids: seq<nat>, n: nat, target: Connection)
    requires n < |ids| && StrictlyIncreasing(ids) && ValidSnapshot(topology)
    requires ChoiceOk(choice) && PicksOk(choice.picks, topology, layer, avoid) && PickedUpTo(choice.picks, ids, n)
    requires target in Candidates(topology, layer, avoid, ids[n])
    ensures ChoiceOk(AddPick(choice, ids[n], target))
    ensures PicksOk(choice.picks[ids[n] := target], topology, layer, avoid) && PickedUpTo(choice.picks[ids[n] := target], ids, n + 1)
  {
    PickIsConsistent(choice, topology, layer, avoid, ids[n], target);
    AddPickOk(choice, ids[n], target);
    PickedOneMore(choice.picks, ids, n, target);
  }

  method ChooseTargets(batch: LayerBatch, topology: TopologySnapshot, selector: RoundRobinSelector, avoid: Avoid)
    returns (r: Result<Choice, TransportError>)
    requires ValidSnapshot(topology) && StrictlyIncreasing(batch.distinct)
    modifies selector
    ensures var blocked := FirstBlocked(topology, batch.layer, avoid, batch.distinct);
            && (r.Ok? <==> blocked.None?)
            && (r.Err? ==> r.error == UnavailableError([blocked.value]))
    ensures r.Ok? ==> ChoiceOk(r.value) && PicksOk(r.value.picks, topology, batch.layer, avoid)
    ensures r.Ok? ==> PickedUpTo(r.value.picks, batch.distinct, |batch.distinct|)
  {
    var ids := batch.distinct;
    var choice := Choice(map[], map[], map[]);
    for n := 0 to |ids|
      invariant ChoiceOk(choice) && PicksOk(choice.picks, topology, batch.layer, avoid) && PickedUpTo(choice.picks, ids, n)
      invariant FirstBlocked(topology, batch.layer, avoid, ids) == FirstBlocked(topology, batch.layer, avoid, ids[n..])
    {
      var replicas, excluded := RouteOf(topology, batch.layer, ids[n]), ExcludedFor(avoid, ids[n]);
      var target := selector.Select(batch.instance, batch.layer, ids[n], replicas, excluded, avoid.fallback);
      assert ids[n..][1..] == ids[n + 1..];
      if target.Err? { return Err(target.error); }
      PickStep(choice, topology, batch.layer, avoid, ids, n, target.value);
      choice := AddPick(choice, ids[n], target.value);
    }
    return Ok(choice);
  }

  // ---------------------------------------------------------------- rows of one target

  predicate IdentityLe(a: Identity, b: Identity) {
    if a.workerId == b.workerId then StringLe(a.startId, b.startId) else StringLe(a.workerId, b.workerId)
  }

  lemma IdentityOrder()
    ensures TotalOrder(IdentityLe)
  {
    StringOrder();
  }

  /** Expert number to position of its target; -1 where no expert was picked. */
  ghost predicate TableOk(table: seq<int>, picks: map<nat, Connection>, targets: seq<Connection>) {
    forall e :: e in picks ==> e < |table| && 0 <= table[e] < |targets| && targets[table[e]] == picks[e]
  }

  predicate OwnedBy(row: Row, table: seq<int>, k: nat, s: nat) {
    Assigned(row, s) && row[s].expert < |table| && table[row[s].expert] == k
  }

  function MaskRow(row: Row, table: seq<int>, k: nat): (masked: Row)
    ensures |masked| == |row|
    ensures forall s :: 0 <= s < |row| ==> masked[s] == if OwnedBy(row, table, k, s) then row[s] else EmptySlot
  {
    seq(|row|, s requires 0 <= s < |row| => if OwnedBy(row, table, k, s) then row[s] else EmptySlot)
  }

  /** The rows that hold an assignment for target `k`, with every other slot emptied. */
  ghost predicate SelectedRows(tokens: seq<nat>, rows: seq<Row>, source: seq<Row>, n: nat, table: seq<int>, k: nat) {
    && RowsFaithful(tokens, rows, source) && StrictlyIncreasing(tokens)
    && (forall i :: 0 <= i < |tokens| ==> tokens[i] < n && rows[i] == MaskRow(source[tokens[i]], table, k))
    && (forall t: nat :: t in tokens <==> t < n && t < |source| && exists s :: 0 <= s < |source[t]| && OwnedBy(source[t], table, k, s))
    && (forall t: nat, s: nat ::
          HitsUpTo(tokens, rows, |rows|, t, s) == if t < n && t < |source| && OwnedBy(source[t], table, k, s) then 1 else 0)
  }

  lemma SelectSkip(tokens: seq<nat>, rows: seq<Row>, source: seq<Row>, n: nat, table: seq<int>, k: nat)
    requires n < |source| && SelectedRows(tokens, rows, source, n, table, k)
    requires !exists s :: 0 <= s < |source[n]| && OwnedBy(source[n], table, k, s)
    ensures SelectedRows(tokens, rows, source, n + 1, table, k)
  {
  }

  lemma SelectAppend(tokens: seq<nat>, rows: seq<Row>, source: seq<Row>, n: nat, table: seq<int>, k: nat)
    requires n < |source| && SelectedRows(tokens, rows, source, n, table, k)
    requires exists s :: 0 <= s < |source[n]| && OwnedBy(source[n], table, k, s)
    ensures SelectedRows(tokens + [n], rows + [MaskRow(source[n], table, k)], source, n + 1, table, k)
  {
    var masked := MaskRow(source[n], table, k);
    forall t: nat, s: nat
      ensures HitsUpTo(tokens + [n], rows + [masked], |rows| + 1, t, s)
              == if t < n + 1 && t < |source| && OwnedBy(source[t], table, k, s) then 1 else 0
    {
      HitsOfAppend(tokens, rows, n, masked, t, s);
    }
  }

  method SelectRows(source: seq<Row>, table: seq<int>, k: nat) returns (tokens: seq<nat>, rows: seq<Row>)
    ensures SelectedRows(tokens, rows, source, |source|, table, k)
  {
    tokens, rows := [], [];
    for n := 0 to |source|
      invariant SelectedRows(tokens, rows, source, n, table, k)
    {
      if exists s :: 0 <= s < |source[n]| && OwnedBy(source[n], table, k, s) {
        SelectAppend(tokens, rows, source, n, table, k);
        tokens, rows := tokens + [n], rows + [MaskRow(source[n], table, k)];
      } else {
        SelectSkip(tokens, rows, source, n, table, k);
      }
    }
  }

  // ---------------------------------------------------------------- grouping

  function PositionOf(ids: seq<Identity>, id: Identity): (i: nat)
    requires id in ids
    ensures i < |ids| && ids[i] == id
  {
    if ids[0] == id then 0 else 1 + PositionOf(ids[1..], id)
  }

  /** The selected connections in identity order. */
  ghost predicate TargetsOk(targets: seq<Connection>, choice: Choice) {
    && (forall i, j :: 0 <= i < j < |targets| ==> targets[i].identity != targets[j].identity)
    && (forall i :: 0 <= i < |targets| ==> targets[i].identity in choice.targets && choice.targets[targets[i].identity] == targets[i])
  }

  /** Positions of the picked targets, indexed by expert number. */
  method FillTable(picks: map<nat, Connection>, ids: seq<nat>, order: seq<Identity>) returns (table: seq<int>)
    requires ids != [] && StrictlyIncreasing(ids) && forall i :: 0 <= i < |ids| ==> ids[i] in picks && picks[ids[i]].identity in order
    ensures |table| == ids[|ids| - 1] + 1
    ensures forall i :: 0 <= i < |ids| ==> ids[i] < |table| && 0 <= table[ids[i]] < |order| && order[table[ids[i]]] == picks[ids[i]].identity
  {
    var values := new int[ids[|ids| - 1] + 1](_ => -1);
    for n := 0 to |ids|
      invariant forall i :: 0 <= i < n ==>
                              && ids[i] < values.Length && 0 <= values[ids[i]] < |order|
                              && order[values[ids[i]]] == picks[ids[i]].identity
    {
      values[ids[n]] := PositionOf(order, picks[ids[n]].identity);
    }
    table := values[..];
  }

  function SortedIdentities(targets: map<Identity, Connection>): (order: seq<Identity>)
    ensures forall id :: id in order <==> id in targets
    ensures forall i :: 0 <= i < |order| ==> order[i] in targets
    ensures forall i, j :: 0 <= i < j < |order| ==> order[i] != order[j]
  {
    IdentityOrder();
    var order := SortSet(targets.Keys, IdentityLe);
    assert forall i :: 0 <= i < |order| ==> order[i] in order;
    order
  }

  function SortedTargets(targets: map<Identity, Connection>): (sorted: seq<Connection>)
    ensures |sorted| == |SortedIdentities(targets)|
    ensures forall i :: 0 <= i < |sorted| ==>
                          SortedIdentities(targets)[i] in targets && sorted[i] == targets[SortedIdentities(targets)[i]]
  {
    var order := SortedIdentities(targets);
    seq(|order|, i requires 0 <= i < |order| => targets[order[i]])
  }

  lemma SortedTargetsOk(choice: Choice)
    requires ChoiceOk(choice)
    ensures TargetsOk(SortedTargets(choice.targets), choice)
  {
  }

  method TargetTable(choice: Choice, ids: seq<nat>) returns (targets: seq<Connection>, table: seq<int>)
    requires ChoiceOk(choice) && ids != [] && StrictlyIncreasing(ids) && PickedUpTo(choice.picks, ids, |ids|)
    ensures TargetsOk(targets, choice) && TableOk(table, choice.picks, targets)
  {
    var order := SortedIdentities(choice.targets);
    targets := SortedTargets(choice.targets);
    SortedTargetsOk(choice);
    table := FillTable(choice.picks, ids, order);
    TableFits(choice, ids, order, targets, table);
  }

  lemma TableFits(choice: Choice, ids: seq<nat>, order: seq<Identity>, targets: seq<Connection>, table: seq<int>)
    requires ChoiceOk(choice) && PickedUpTo(choice.picks, ids, |ids|)
    requires |targets| == |order| && forall i :: 0 <= i < |order| ==> order[i] in choice.targets && targets[i] == choice.targets[order[i]]
    requires forall i :: 0 <= i < |ids| ==>
                           ids[i] < |table| && 0 <= table[ids[i]] < |order| && order[table[ids[i]]] == choice.picks[ids[i]].identity
    ensures TableOk(table, choice.picks, targets)
  {
    forall e | e in choice.picks
      ensures e < |table| && 0 <= table[e] < |targets| && targets[table[e]] == choice.picks[e]
    {
      var i :| 0 <= i < |ids| && ids[i] == e;
    }
  }

  /** What the rest of the system relies on about one plan of a grouping. */
  ghost predicate GroupedPlan(plan: Plan, batch: LayerBatch, version: nat, picks: map<nat, Connection>) {
    && plan.batch.instance == batch.instance && plan.batch.layer == batch.layer && plan.batch.version == version
    && 0 < |plan.batch.rows| <= plan.target.maxBatchTokens
    && ExactExperts(plan.batch.rows, plan.batch.distinct)
    && StrictlyIncreasing(TokensOf(plan.batch))
    && (forall e :: e in plan.batch.distinct ==> e in picks && picks[e] == plan.target)
    && (plan.batch.tokens.None? ==> plan.batch.rows == batch.rows)
  }

  ghost predicate AllGrouped(plans: seq<Plan>, batch: LayerBatch, version: nat, picks: map<nat, Connection>) {
    forall i :: 0 <= i < |plans| ==> GroupedPlan(plans[i], batch, version, picks)
  }

  ghost predicate Before(row: Row, table: seq<int>, k: nat, s: nat) {
    Assigned(row, s) && row[s].expert < |table| && 0 <= table[row[s].expert] < k
  }

  /** The plans hold exactly the assignments of the first `k` targets. */
  ghost predicate CoveredUpTo(plans: seq<Plan>, source: seq<Row>, table: seq<int>, k: nat) {
    && PlansFaithful(plans, source)
    && forall t: nat, s: nat :: t < |source| ==> PlanHits(plans, t, s) == if Before(source[t], table, k, s) then 1 else 0
  }

  lemma SelectedHits(tokens: seq<nat>, rows: seq<Row>, source: seq<Row>, table: seq<int>, k: nat, t: nat, s: nat)
    requires SelectedRows(tokens, rows, source, |source|, table, k) && t < |source|
    ensures HitsUpTo(tokens, rows, |rows|, t, s) == if OwnedBy(source[t], table, k, s) then 1 else 0
  {
  }

  lemma CoverTarget(plans: seq<Plan>, more: seq<Plan>, source: seq<Row>, table: seq<int>, k: nat, tokens: seq<nat>, rows: seq<Row>)
    requires CoveredUpTo(plans, source, table, k) && PlansFaithful(more, source)
    requires SelectedRows(tokens, rows, source, |source|, table, k) && SameHits(more, tokens, rows, |rows|)
    ensures CoveredUpTo(plans + more, source, table, k + 1)
  {
    forall t: nat, s: nat | t < |source| ensures PlanHits(more, t, s) == if OwnedBy(source[t], table, k, s) then 1 else 0 {
      SelectedHits(tokens, rows, source, table, k, t, s);
    }
    CoverMore(plans, more, source, table, k);
  }

  lemma CoverMore(plans: seq<Plan>, more: seq<Plan>, source: seq<Row>, table: seq<int>, k: nat)
    requires CoveredUpTo(plans, source, table, k) && PlansFaithful(more, source)
    requires forall t: nat, s: nat :: t < |source| ==> PlanHits(more, t, s) == if OwnedBy(source[t], table, k, s) then 1 else 0
    ensures CoveredUpTo(plans + more, source, table, k + 1)
  {
    forall t: nat, s: nat | t < |source|
      ensures PlanHits(plans + more, t, s) == if Before(source[t], table, k + 1, s) then 1 else 0
    {
      PlanHitsConcat(plans, more, t, s);
      assert PlanHits(more, t, s) == if OwnedBy(source[t], table, k, s) then 1 else 0;
    }
  }

  /** The experts picked for a target are exactly those its selected rows name. */
  lemma SelectedExact(tokens: seq<nat>, rows: seq<Row>, batch: LayerBatch, table: seq<int>, k: nat, choice: Choice, targets: seq<Connection>)
    requires ChoiceOk(choice) && TargetsOk(targets, choice) && TableOk(table, choice.picks, targets) && k < |targets|
    requires ExactExperts(batch.rows, batch.distinct) && PickedUpTo(choice.picks, batch.distinct, |batch.distinct|)
    requires SelectedRows(tokens, rows, batch.rows, |batch.rows|, table, k)
    ensures targets[k].identity in choice.experts && ExactExperts(rows, choice.experts[targets[k].identity])
  {
    var list := choice.experts[targets[k].identity];
    assert ListOf(list, choice.picks, targets[k].identity);
    forall e: nat ensures e in list <==> Names(rows, e) {
      if e in list {
        ListedIsSelected(tokens, rows, batch, table, k, e);
      }
      if Names(rows, e) {
        var i, s :| 0 <= i < |rows| && 0 <= s < |rows[i]| && rows[i][s].expert == e;
        SelectedIsPicked(tokens, rows, batch, table, k, i, s);
        var n :| 0 <= n < |batch.distinct| && batch.distinct[n] == e;
        assert e in choice.picks;
      }
    }
  }

  lemma ListedIsSelected(tokens: seq<nat>, rows: seq<Row>, batch: LayerBatch, table: seq<int>, k: nat, e: nat)
    requires ExactExperts(batch.rows, batch.distinct) && e in batch.distinct && e < |table| && table[e] == k
    requires SelectedRows(tokens, rows, batch.rows, |batch.rows|, table, k)
    ensures Names(rows, e)
  {
    assert Names(batch.rows, e);
    var t, s :| 0 <= t < |batch.rows| && 0 <= s < |batch.rows[t]| && batch.rows[t][s].expert == e;
    assert OwnedBy(batch.rows[t], table, k, s);
    assert t in tokens;
    var i :| 0 <= i < |tokens| && tokens[i] == t;
    assert rows[i] == MaskRow(batch.rows[t], table, k);
    assert rows[i][s].expert == e;
  }

  lemma SelectedIsPicked(tokens: seq<nat>, rows: seq<Row>, batch: LayerBatch, table: seq<int>, k: nat, i: nat, s: nat)
    requires ExactExperts(batch.rows, batch.distinct) && SelectedRows(tokens, rows, batch.rows, |batch.rows|, table, k)
    requires i < |rows| && s < |rows[i]| && rows[i][s].expert >= 0
    ensures rows[i][s].expert in batch.distinct && rows[i][s].expert < |table| && table[rows[i][s].expert] == k
  {
    assert rows[i] == MaskRow(batch.rows[tokens[i]], table, k);
    assert batch.rows[tokens[i]][s].expert == rows[i][s].expert;
    assert Names(batch.rows, rows[i][s].expert);
  }

  lemma PiecesAreGrouped(pieces: seq<Plan>, target: Connection, b: WorkerBatch, batch: LayerBatch, version: nat, picks: map<nat, Connection>)
    requires forall i :: 0 <= i < |pieces| ==> PieceOf(pieces[i], target, b)
    requires b.instance == batch.instance && b.layer == batch.layer && b.version == version
    requires b.tokens.None? ==> b.rows == batch.rows
    requires forall e :: e in b.distinct ==> e in picks && picks[e] == target
    ensures AllGrouped(pieces, batch, version, picks)
    ensures b.tokens.Some? ==> forall i :: 0 <= i < |pieces| ==> pieces[i].batch.tokens.Some?
  {
    forall i | 0 <= i < |pieces| ensures GroupedPlan(pieces[i], batch, version, picks) {
      assert PieceOf(pieces[i], target, b);
    }
  }

  lemma TargetIsPositive(topology: TopologySnapshot, layer: nat, avoid: Avoid, choice: Choice, id: Identity)
    requires ValidSnapshot(topology) && ChoiceOk(choice) && PicksOk(choice.picks, topology, layer, avoid) && id in choice.targets
    ensures choice.targets[id].maxBatchTokens > 0
  {
    var e := SomeExpert(choice, id);
    CandidateIsReplica(topology, layer, avoid, e, choice.picks[e]);
  }

  /** The rows of one target, cut to its row limit. */
  method PlanTarget(batch: LayerBatch, version: nat, choice: Choice, target: Connection, tokens: seq<nat>, rows: seq<Row>)
    returns (plans: seq<Plan>)
    requires ChoiceOk(choice) && target.identity in choice.targets && choice.targets[target.identity] == target
    requires target.maxBatchTokens > 0 && rows != [] && ExactExperts(rows, choice.experts[target.identity])
    requires RowsFaithful(tokens, rows, batch.rows) && StrictlyIncreasing(tokens)
    ensures PlansFaithful(plans, batch.rows) && SameHits(plans, tokens, rows, |rows|)
    ensures AllGrouped(plans, batch, version, choice.picks)
    ensures forall i :: 0 <= i < |plans| ==> plans[i].batch.tokens.Some?
  {
    var list := choice.experts[target.identity];
    assert ListOf(list, choice.picks, target.identity);
    var logical := WorkerBatch(batch.instance, batch.layer, version, Some(tokens), rows, list);
    plans := SplitBatch(target, logical, batch.rows);
    PiecesAreGrouped(plans, target, logical, batch, version, choice.picks);
  }

  /** Several targets: every target gets the rows and slots that are its own. */
  method GroupByTarget(batch: LayerBatch, topology: TopologySnapshot, ghost avoid: Avoid, choice: Choice) returns (plans: seq<Plan>)
    requires ValidSnapshot(topology) && PicksOk(choice.picks, topology, batch.layer, avoid)
    requires ChoiceOk(choice) && PickedUpTo(choice.picks, batch.distinct, |batch.distinct|)
    requires ExactExperts(batch.rows, batch.distinct) && batch.distinct != []
    ensures Partition(plans, batch.rows) && AllGrouped(plans, batch, topology.version, choice.picks)
    ensures forall i :: 0 <= i < |plans| ==> plans[i].batch.tokens.Some?
  {
    var targets, table := TargetTable(choice, batch.distinct);
    plans := [];
    for k := 0 to |targets|
      invariant CoveredUpTo(plans, batch.rows, table, k)
      invariant AllGrouped(plans, batch, topology.version, choice.picks)
      invariant forall i :: 0 <= i < |plans| ==> plans[i].batch.tokens.Some?
    {
      var tokens, rows := SelectRows(batch.rows, table, k);
      var more := [];
      if rows != [] {
        SelectedExact(tokens, rows, batch, table, k, choice, targets);
        TargetIsPositive(topology, batch.layer, avoid, choice, targets[k].identity);
        more := PlanTarget(batch, topology.version, choice, targets[k], tokens, rows);
      }
      CoverTarget(plans, more, batch.rows, table, k, tokens, rows);
      plans := plans + more;
    }
    AllCovered(plans, batch, table, choice, targets);
  }

  lemma AllCovered(plans: seq<Plan>, batch: LayerBatch, table: seq<int>, choice: Choice, targets: seq<Connection>)
    requires CoveredUpTo(plans, batch.rows, table, |targets|) && TableOk(table, choice.picks, targets)
    requires ExactExperts(batch.rows, batch.distinct) && PickedUpTo(choice.picks, batch.distinct, |batch.distinct|)
    ensures Partition(plans, batch.rows)
  {
    forall t, s | 0 <= t < |batch.rows| && 0 <= s
      ensures PlanHits(plans, t, s) == if Assigned(batch.rows[t], s) then 1 else 0
    {
      if Assigned(batch.rows[t], s) {
        var e: nat := batch.rows[t][s].expert;
        assert Names(batch.rows, e);
        var n :| 0 <= n < |batch.distinct| && batch.distinct[n] == e;
        assert e in choice.picks;
        assert Before(batch.rows[t], table, |targets|, s);
      }
    }
  }

  /** One target for everything: the complete matrix goes to it unchanged. */
  method GroupWhole(batch: LayerBatch, version: nat, picks: map<nat, Connection>, target: Connection) returns (plans: seq<Plan>)
    requires target.maxBatchTokens > 0 && batch.rows != [] && ExactExperts(batch.rows, batch.distinct)
    requires forall e :: e in batch.distinct ==> e in picks && picks[e] == target
    ensures Partition(plans, batch.rows) && AllGrouped(plans, batch, version, picks)
  {
    var logical := WorkerBatch(batch.instance, batch.layer, version, None, batch.rows, batch.distinct);
    plans := SplitBatch(target, logical, batch.rows);
    PiecesAreGrouped(plans, target, logical, batch, version, picks);
    WholeIsPartition(plans, logical);
  }

  lemma OneTarget(choice: Choice, ids: seq<nat>, target: Connection)
    requires ChoiceOk(choice) && PickedUpTo(choice.picks, ids, |ids|) && choice.targets == map[target.identity := target]
    ensures forall e :: e in ids ==> e in choice.picks && choice.picks[e] == target
  {
    forall e | e in ids ensures e in choice.picks && choice.picks[e] == target {
      var i :| 0 <= i < |ids| && ids[i] == e;
    }
  }

  lemma WholeIsPartition(plans: seq<Plan>, whole: WorkerBatch)
    requires whole.tokens.None? && PlansFaithful(plans, whole.rows) && SameHits(plans, TokensOf(whole), whole.rows, |whole.rows|)
    ensures Partition(plans, whole.rows)
  {
    forall t, s | 0 <= t < |whole.rows| && 0 <= s
      ensures PlanHits(plans, t, s) == if Assigned(whole.rows[t], s) then 1 else 0
    {
      HitsOfWhole(TokensOf(whole), whole.rows, |whole.rows|, t, s);
    }
  }

  /** Everything one grouping attempt promises. */
  ghost predicate GroupingOk(plans: seq<Plan>, picks: map<nat, Connection>, batch: LayerBatch, topology: TopologySnapshot, avoid: Avoid) {
    && Partition(plans, batch.rows) && AllGrouped(plans, batch, topology.version, picks)
    && PicksOk(picks, topology, batch.layer, avoid)
  }

  method GroupWorkerBatches(batch: LayerBatch, topology: TopologySnapshot, selector: RoundRobinSelector, avoid: Avoid, reuse: bool)
    returns (r: Result<seq<Plan>, TransportError>, ghost picks: map<nat, Connection>)
    requires ExactExperts(batch.rows, batch.distinct) && ValidSnapshot(topology)
    modifies selector
    ensures r.Err? <==> GroupRefusal(batch, topology, avoid).Some?
    ensures r.Err? ==> Some(r.error) == GroupRefusal(batch, topology, avoid)
    ensures RefusedFor(batch, topology, avoid, if r.Err? then Some(r.error) else None)
    ensures r.Ok? ==> GroupingOk(r.value, picks, batch, topology, avoid)
    ensures r.Ok? && !reuse ==> forall i :: 0 <= i < |r.value| ==> r.value[i].batch.tokens.Some?
  {
    picks := map[];
    RefusalIs(batch, topology, avoid);
    if batch.instance != topology.instance { return Err(TransportError(InvalidRequest, false, None, [])), picks; }
    if batch.distinct == [] {
      NothingToGroup(batch);
      return Ok([]), picks;
    }
    var missing := Missing(topology, batch.layer, batch.distinct);
    if missing != [] { return Err(UnavailableError(missing)), picks; }
    var chosen := ChooseTargets(batch, topology, selector, avoid);
    if chosen.Err? { return Err(chosen.error), picks; }
    picks := chosen.value.picks;
    var plans := GroupChosen(batch, topology, avoid, chosen.value, reuse);
    return Ok(plans), picks;
  }

  method GroupChosen(batch: LayerBatch, topology: TopologySnapshot, ghost avoid: Avoid, choice: Choice, reuse: bool) returns (plans: seq<Plan>)
    requires ValidSnapshot(topology) && PicksOk(choice.picks, topology, batch.layer, avoid)
    requires ChoiceOk(choice) && PickedUpTo(choice.picks, batch.distinct, |batch.distinct|)
    requires ExactExperts(batch.rows, batch.distinct) && batch.distinct != []
    ensures Partition(plans, batch.rows) && AllGrouped(plans, batch, topology.version, choice.picks)
    ensures !reuse ==> forall i :: 0 <= i < |plans| ==> plans[i].batch.tokens.Some?
  {
    if reuse && |choice.targets| == 1 {
      var id :| id in choice.targets.Keys;
      OnlyIdentity(choice.targets, id);
      NamedRows(batch);
      TargetIsPositive(topology, batch.layer, avoid, choice, id);
      OneTarget(choice, batch.distinct, choice.targets[id]);
      plans := GroupWhole(batch, topology.version, choice.picks, choice.targets[id]);
    } else {
      plans := GroupByTarget(batch, topology, avoid, choice);
    }
  }

  lemma NamedRows(batch: LayerBatch)
    requires ExactExperts(batch.rows, batch.distinct) && batch.distinct != []
    ensures batch.rows != []
  {
    assert batch.distinct[0] in batch.distinct;
    assert Names(batch.rows, batch.distinct[0]);
  }

  lemma OnlyIdentity(targets: map<Identity, Connection>, id: Identity)
    requires |targets| == 1 && id in targets
    ensures targets == map[id := targets[id]]
  {
    assert |targets.Keys - {id}| == 0;
    assert targets.Keys == {id};
  }

  lemma NothingToGroup(batch: LayerBatch)
    requires ExactExperts(batch.rows, batch.distinct) && batch.distinct == []
    ensures Partition([], batch.rows)
  {
    forall t, s | 0 <= t < |batch.rows| && 0 <= s ensures !Assigned(batch.rows[t], s) {
      if Assigned(batch.rows[t], s) { assert Names(batch.rows, batch.rows[t][s].expert); }
    }
  }
}
