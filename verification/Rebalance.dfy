/** Proportional placement of a model's experts over the active Workers. */
module Rebalance {
  import opened Arithmetic
  import opened Ordering
  import opened Topology

  datatype Node = Node(hostname: string, id: int, instance: Option<nat>, capacity: nat)

  datatype PlanError = BadInstance | NoExperts | NoWorkers | CapacityOverflow | NotEnoughCapacity(total: nat, required: nat)

  const MAX_U64: nat := 0xFFFF_FFFF_FFFF_FFFF

  // ---------------------------------------------------------------- eligible Workers in order

  predicate Eligible(node: Node, instance: nat) { node.instance == Some(instance) && node.capacity > 0 }

  function Filtered(nodes: seq<Node>, instance: nat): (r: seq<Node>)
    ensures forall n :: n in r <==> n in nodes && Eligible(n, instance)
    ensures forall i :: 0 <= i < |r| ==> Eligible(r[i], instance)
  {
    if nodes == [] then []
    else
      var rest := Filtered(nodes[1..], instance);
      if Eligible(nodes[0], instance) then [nodes[0]] + rest else rest
  }

  /** By host name, then by id. */
  predicate NodeLe(a: Node, b: Node) {
    if a.hostname == b.hostname then a.id <= b.id else StringLe(a.hostname, b.hostname)
  }

  lemma NodeLeTotal(a: Node, b: Node)
    ensures NodeLe(a, b) || NodeLe(b, a)
  {
    StringOrder();
  }

  lemma NodeLeTransitive(a: Node, b: Node, c: Node)
    requires NodeLe(a, b) && NodeLe(b, c)
    ensures NodeLe(a, c)
  {
    StringOrder();
  }

  /** Stable insertion: equal nodes keep their order. */
  function Insert(sorted: seq<Node>, node: Node): (r: seq<Node>)
    ensures forall n :: n in r <==> n in sorted || n == node
    ensures |r| == |sorted| + 1
  {
    if sorted == [] || !NodeLe(sorted[0], node) then [node] + sorted
    else
      assert sorted == [sorted[0]] + sorted[1..];
      [sorted[0]] + Insert(sorted[1..], node)
  }

  function Sorted(nodes: seq<Node>): (r: seq<Node>)
    ensures forall n :: n in r <==> n in nodes
    ensures |r| == |nodes|
  {
    if nodes == [] then []
    else
      assert nodes == nodes[..|nodes| - 1] + [nodes[|nodes| - 1]];
      Insert(Sorted(nodes[..|nodes| - 1]), nodes[|nodes| - 1])
  }

  ghost predicate IsSorted(nodes: seq<Node>) {
    forall i, j :: 0 <= i < j < |nodes| ==> NodeLe(nodes[i], nodes[j])
  }

  lemma {:induction false} InsertSorts(sorted: seq<Node>, node: Node)
    requires IsSorted(sorted)
    ensures IsSorted(Insert(sorted, node))
    decreases |sorted|
  {
    if sorted == [] {
    } else if !NodeLe(sorted[0], node) {
      NodeLeTotal(sorted[0], node);
      forall i | 0 <= i < |sorted| ensures NodeLe(node, sorted[i]) {
        if i > 0 { NodeLeTransitive(node, sorted[0], sorted[i]); }
      }
    } else {
      InsertSorts(sorted[1..], node);
      var rest := Insert(sorted[1..], node);
      forall i | 0 <= i < |rest| ensures NodeLe(sorted[0], rest[i]) {
        assert rest[i] in rest;
        if rest[i] != node {
          var j :| 0 <= j < |sorted[1..]| && sorted[1..][j] == rest[i];
          assert sorted[j + 1] == rest[i];
        }
      }
    }
  }

  lemma {:induction false} SortedIsSorted(nodes: seq<Node>)
    ensures IsSorted(Sorted(nodes))
    decreases |nodes|
  {
    if nodes != [] {
      SortedIsSorted(nodes[..|nodes| - 1]);
      InsertSorts(Sorted(nodes[..|nodes| - 1]), nodes[|nodes| - 1]);
    }
  }

  /** Node ids are database keys. */
  ghost predicate DistinctIds(nodes: seq<Node>) {
    forall i, j :: 0 <= i < j < |nodes| ==> nodes[i].id != nodes[j].id
  }

  // ---------------------------------------------------------------- choosing the next Worker

  function Capacities(workers: seq<Node>): (r: seq<nat>)
    ensures |r| == |workers| && forall i :: 0 <= i < |workers| ==> r[i] == workers[i].capacity
  {
    seq(|workers|, i requires 0 <= i < |workers| => workers[i].capacity)
  }

  /** Worker `a` is fuller than Worker `b`, relative to capacity. */
  predicate Fuller(loads: seq<nat>, caps: seq<nat>, a: nat, b: nat)
    requires a < |loads| == |caps| && b < |loads|
  {
    loads[a] * caps[b] > loads[b] * caps[a]
  }

  predicate Open(loads: seq<nat>, caps: seq<nat>, i: nat)
    requires i < |loads| == |caps|
  {
    loads[i] < caps[i]
  }

  /** The least full open Worker among the first `k`; the earliest on a tie. */
  function Best(loads: seq<nat>, caps: seq<nat>, k: nat): (r: Option<nat>)
    requires k <= |loads| == |caps|
    ensures r.Some? ==> r.value < k && Open(loads, caps, r.value)
    ensures r.None? <==> forall i :: 0 <= i < k ==> !Open(loads, caps, i)
  {
    if k == 0 then None else
    var before := Best(loads, caps, k - 1);
    if !Open(loads, caps, k - 1) then before
    else if before.None? || Fuller(loads, caps, before.value, k - 1) then Some(k - 1)
    else before
  }

  lemma Cancel(x: nat, y: nat, m: nat)
    requires m > 0 && x * m <= y * m
    ensures x <= y
  {
    if y < x { MulOrder(y, x, m); }
  }

  /** If `a` is at most as full as `b` and `b` at most as full as `c`, then `a` is at most as full as `c`. */
  lemma RatioTransitive(la: nat, ca: nat, lb: nat, cb: nat, lc: nat, cc: nat)
    requires cb > 0 && la * cb <= lb * ca && lb * cc <= lc * cb
    ensures la * cc <= lc * ca
  {
    var x, y := la * cc, lc * ca;
    assert (la * cb) * cc <= (lb * ca) * cc;
    assert (lb * cc) * ca <= (lc * cb) * ca;
    assert x * cb == (la * cb) * cc;
    assert y * cb == (lc * cb) * ca;
    assert (lb * ca) * cc == (lb * cc) * ca;
    Cancel(x, y, cb);
  }

  lemma {:induction false} BestIsLeast(loads: seq<nat>, caps: seq<nat>, k: nat)
    requires k <= |loads| == |caps| && Best(loads, caps, k).Some?
    requires forall i :: 0 <= i < |caps| ==> caps[i] > 0
    ensures forall i :: 0 <= i < k && Open(loads, caps, i) ==> !Fuller(loads, caps, Best(loads, caps, k).value, i)
  {
    var before := Best(loads, caps, k - 1);
    var best := Best(loads, caps, k).value;
    if before.Some? {
      BestIsLeast(loads, caps, k - 1);
      forall i | 0 <= i < k && Open(loads, caps, i) ensures !Fuller(loads, caps, best, i) {
        if best == k - 1 && i < k - 1 {
          RatioTransitive(loads[best], caps[best], loads[before.value], caps[before.value], loads[i], caps[i]);
        }
      }
    }
  }

  // ---------------------------------------------------------------- the plan

  function Sum(s: seq<nat>): nat {
    if s == [] then 0 else Sum(s[..|s| - 1]) + s[|s| - 1]
  }

  /** Loads and chosen Workers after `n` experts; `None` if some expert finds no open Worker. */
  function Loads(caps: seq<nat>, n: nat): (r: Option<(seq<nat>, seq<nat>)>)
    ensures r.Some? ==> |r.value.0| == |caps| && |r.value.1| == n && forall k :: 0 <= k < n ==> r.value.1[k] < |caps|
  {
    if n == 0 then Some((seq(|caps|, _ => 0), [])) else
    var before := Loads(caps, n - 1);
    if before.None? then None else
    var (loads, chosen) := before.value;
    var best := Best(loads, caps, |caps|);
    if best.None? then None
    else Some((loads[best.value := loads[best.value] + 1], chosen + [best.value]))
  }

  /** One expert less and Worker `i` would be no fuller than Worker `j`. */
  predicate WithinOne(li: int, ci: int, lj: int, cj: int) { (li - 1) * cj <= lj * ci }

  /** No Worker is ahead of another by more than one expert, in proportion to capacity. */
  ghost predicate Balanced(loads: seq<nat>, caps: seq<nat>) {
    && |loads| == |caps|
    && (forall i :: 0 <= i < |loads| ==> loads[i] <= caps[i])
    && (forall i, j :: 0 <= i < |loads| && 0 <= j < |loads| ==> WithinOne(loads[i], caps[i], loads[j], caps[j]))
  }

  /** Against the Worker that just got its expert everyone else was open and no less full, or full. */
  lemma ChosenIsWithin(li: nat, ci: nat, lj: nat, cj: nat)
    requires li < ci && lj <= cj && (lj < cj ==> li * cj <= lj * ci)
    ensures WithinOne(li + 1, ci, lj, cj)
  {
    if lj == cj {
      MulOrder(li, ci, cj);
      assert (li + 1 - 1) * cj == li * cj && lj * ci == ci * cj;
    }
  }

  lemma OtherIsWithin(li: nat, ci: nat, lj: nat, cj: nat)
    requires WithinOne(li, ci, lj, cj)
    ensures WithinOne(li, ci, lj + 1, cj)
  {
    assert (lj + 1) * ci == lj * ci + ci;
  }

  lemma StepBalanced(loads: seq<nat>, caps: seq<nat>)
    requires Balanced(loads, caps) && (forall i :: 0 <= i < |caps| ==> caps[i] > 0) && Best(loads, caps, |caps|).Some?
    ensures var best := Best(loads, caps, |caps|).value; Balanced(loads[best := loads[best] + 1], caps)
  {
    var best := Best(loads, caps, |caps|).value;
    var next := loads[best := loads[best] + 1];
    BestIsLeast(loads, caps, |caps|);
    forall i, j | 0 <= i < |next| && 0 <= j < |next| ensures WithinOne(next[i], caps[i], next[j], caps[j]) {
      StepWithin(loads, caps, best, i, j);
    }
  }

  lemma StepWithin(loads: seq<nat>, caps: seq<nat>, best: nat, i: nat, j: nat)
    requires Balanced(loads, caps) && best < |loads| && Open(loads, caps, best) && i < |loads| && j < |loads|
    requires forall k :: 0 <= k < |caps| && Open(loads, caps, k) ==> !Fuller(loads, caps, best, k)
    ensures var next := loads[best := loads[best] + 1]; WithinOne(next[i], caps[i], next[j], caps[j])
  {
    assert WithinOne(loads[i], caps[i], loads[j], caps[j]);
    if i == best {
      if j == best {
        OtherIsWithin(loads[i], caps[i], loads[i], caps[i]);
        assert loads[best] * caps[best] <= (loads[best] + 1) * caps[best];
      } else {
        assert Open(loads, caps, j) ==> !Fuller(loads, caps, best, j);
        ChosenIsWithin(loads[i], caps[i], loads[j], caps[j]);
      }
    } else if j == best {
      OtherIsWithin(loads[i], caps[i], loads[j], caps[j]);
    }
  }

  lemma {:induction false} SumUpdate(s: seq<nat>, i: nat)
    requires i < |s|
    ensures Sum(s[i := s[i] + 1]) == Sum(s) + 1
    decreases |s|
  {
    var t := s[i := s[i] + 1];
    if i < |s| - 1 {
      SumUpdate(s[..|s| - 1], i);
      assert t[..|s| - 1] == s[..|s| - 1][i := s[i] + 1];
    } else {
      assert t[..|s| - 1] == s[..|s| - 1];
    }
  }

  lemma {:induction false} SumZeros(n: nat)
    ensures Sum(seq(n, _ => 0)) == 0
  {
    if n > 0 {
      SumZeros(n - 1);
      var zeros: seq<nat> := seq(n, _ => 0);
      var fewer: seq<nat> := seq(n - 1, _ => 0);
      assert zeros[..n - 1] == fewer;
    }
  }

  /** Full Workers everywhere means the whole capacity is used. */
  lemma {:induction false} FullSum(loads: seq<nat>, caps: seq<nat>)
    requires |loads| == |caps| && forall i :: 0 <= i < |loads| ==> loads[i] == caps[i]
    ensures Sum(loads) == Sum(caps)
  {
    assert loads == caps;
  }

  /** How often Worker `i` was chosen. */
  function Times(chosen: seq<nat>, i: nat): nat {
    if chosen == [] then 0 else Times(chosen[..|chosen| - 1], i) + if chosen[|chosen| - 1] == i then 1 else 0
  }

  ghost predicate PlanOk(caps: seq<nat>, n: nat, loads: seq<nat>, chosen: seq<nat>) {
    && Balanced(loads, caps) && Sum(loads) == n && |chosen| == n
    && forall i :: 0 <= i < |caps| ==> Times(chosen, i) == loads[i]
  }

  lemma TimesMore(chosen: seq<nat>, best: nat, i: nat)
    ensures Times(chosen + [best], i) == Times(chosen, i) + if best == i then 1 else 0
  {
    assert (chosen + [best])[..|chosen|] == chosen;
  }

  lemma PlanStep(caps: seq<nat>, n: nat, loads: seq<nat>, chosen: seq<nat>)
    requires PlanOk(caps, n, loads, chosen) && n < Sum(caps) && forall i :: 0 <= i < |caps| ==> caps[i] > 0
    ensures var best := Best(loads, caps, |caps|);
            best.Some? && PlanOk(caps, n + 1, loads[best.value := loads[best.value] + 1], chosen + [best.value])
  {
    NeverStuck(loads, caps);
    var best := Best(loads, caps, |caps|).value;
    StepBalanced(loads, caps);
    SumUpdate(loads, best);
    forall i | 0 <= i < |caps| ensures Times(chosen + [best], i) == loads[best := loads[best] + 1][i] { TimesMore(chosen, best, i); }
  }

  /** Within the total capacity the planner never runs out of candidates, every load stays within its
      capacity and in proportion, and each Worker is chosen as often as its load says. */
  lemma {:induction false} PlanIsBalanced(caps: seq<nat>, n: nat)
    requires n <= Sum(caps) && forall i :: 0 <= i < |caps| ==> caps[i] > 0
    ensures Loads(caps, n).Some? && PlanOk(caps, n, Loads(caps, n).value.0, Loads(caps, n).value.1)
  {
    if n == 0 {
      SumZeros(|caps|);
    } else {
      PlanIsBalanced(caps, n - 1);
      var (loads, chosen) := Loads(caps, n - 1).value;
      PlanStep(caps, n - 1, loads, chosen);
      LoadsStep(caps, n - 1, loads, chosen);
    }
  }

  lemma LoadsStep(caps: seq<nat>, n: nat, loads: seq<nat>, chosen: seq<nat>)
    requires Loads(caps, n) == Some((loads, chosen)) && Best(loads, caps, |caps|).Some?
    ensures var best := Best(loads, caps, |caps|).value;
            Loads(caps, n + 1) == Some((loads[best := loads[best] + 1], chosen + [best]))
  {
  }

  lemma NextExists(caps: seq<nat>, n: nat, loads: seq<nat>, chosen: seq<nat>)
    requires n < Sum(caps) && (forall i :: 0 <= i < |caps| ==> caps[i] > 0) && Loads(caps, n) == Some((loads, chosen))
    ensures |loads| == |caps| && Best(loads, caps, |caps|).Some?
  {
    PlanIsBalanced(caps, n);
    NeverStuck(loads, caps);
  }

  lemma NeverStuck(loads: seq<nat>, caps: seq<nat>)
    requires Balanced(loads, caps) && Sum(loads) < Sum(caps)
    ensures Best(loads, caps, |caps|).Some?
  {
    if forall i :: 0 <= i < |caps| ==> !Open(loads, caps, i) {
      assert forall i :: 0 <= i < |loads| ==> loads[i] == caps[i] by {
        forall i | 0 <= i < |loads| ensures loads[i] == caps[i] { assert !Open(loads, caps, i); }
      }
      FullSum(loads, caps);
    }
  }

  // ---------------------------------------------------------------- the planner

  function Total(caps: seq<nat>): Option<nat> {
    if Sum(caps) > MAX_U64 then None else Some(Sum(caps))
  }

  /** The node id of every expert, in expert order. */
  function PlanNodes(instance: int, nodes: seq<Node>, required: nat): Result<seq<int>, PlanError> {
    if instance <= 0 then Err(BadInstance)
    else if required == 0 then Err(NoExperts)
    else
      var workers := Sorted(Filtered(nodes, instance));
      if workers == [] then Err(NoWorkers) else
      var caps := Capacities(workers);
      if Total(caps).None? then Err(CapacityOverflow)
      else if Sum(caps) < required then Err(NotEnoughCapacity(Sum(caps), required))
      else
        var plan := Loads(caps, required);
        if plan.None? then Err(NotEnoughCapacity(Sum(caps), required))
        else Ok(seq(required, k requires 0 <= k < required => workers[plan.value.1[k]].id))
  }

  lemma WorkersAreEligible(nodes: seq<Node>, instance: nat)
    ensures forall i :: 0 <= i < |Sorted(Filtered(nodes, instance))| ==> Capacities(Sorted(Filtered(nodes, instance)))[i] > 0
  {
    var workers := Sorted(Filtered(nodes, instance));
    forall i | 0 <= i < |workers| ensures workers[i].capacity > 0 {
      assert workers[i] in workers;
      assert workers[i] in Filtered(nodes, instance);
    }
  }

  /** The order in which the database lists the nodes makes no difference. */
  lemma OrderDoesNotMatter(instance: int, a: seq<Node>, b: seq<Node>, required: nat)
    requires DistinctIds(a) && DistinctIds(b) && forall n :: n in a <==> n in b
    ensures PlanNodes(instance, a, required) == PlanNodes(instance, b, required)
  {
    if instance > 0 {
      var x, y := Filtered(a, instance), Filtered(b, instance);
      FilteredDistinct(a, instance);
      FilteredDistinct(b, instance);
      SortedDistinct(x);
      SortedDistinct(y);
      SortedIsSorted(x);
      SortedIsSorted(y);
      SortedIsUnique(Sorted(x), Sorted(y));
    }
  }

  lemma {:induction false} FilteredDistinct(nodes: seq<Node>, instance: nat)
    requires DistinctIds(nodes)
    ensures DistinctIds(Filtered(nodes, instance))
    decreases |nodes|
  {
    if nodes != [] {
      var rest := nodes[1..];
      FilteredDistinct(rest, instance);
      var kept := Filtered(rest, instance);
      forall i | 0 <= i < |kept| ensures kept[i].id != nodes[0].id {
        assert kept[i] in kept;
        var j :| 0 <= j < |rest| && rest[j] == kept[i];
        assert nodes[j + 1] == kept[i];
      }
    }
  }

  lemma {:induction false} InsertDistinct(sorted: seq<Node>, node: Node)
    requires DistinctIds(sorted) && forall n :: n in sorted ==> n.id != node.id
    ensures DistinctIds(Insert(sorted, node))
    decreases |sorted|
  {
    if sorted != [] && NodeLe(sorted[0], node) {
      var rest := sorted[1..];
      assert forall n :: n in rest ==> n in sorted;
      InsertDistinct(rest, node);
      var grown := Insert(rest, node);
      assert sorted[0] in sorted;
      forall i | 0 <= i < |grown| ensures grown[i].id != sorted[0].id {
        assert grown[i] in grown;
        if grown[i] != node {
          var j :| 0 <= j < |rest| && rest[j] == grown[i];
          assert sorted[j + 1] == grown[i];
        }
      }
    }
  }

  lemma {:induction false} SortedDistinct(nodes: seq<Node>)
    requires DistinctIds(nodes)
    ensures DistinctIds(Sorted(nodes))
    decreases |nodes|
  {
    if nodes != [] {
      var front, last := nodes[..|nodes| - 1], nodes[|nodes| - 1];
      SortedDistinct(front);
      forall n | n in Sorted(front) ensures n.id != last.id {
        var j :| 0 <= j < |front| && front[j] == n;
        assert nodes[j] == n;
      }
      InsertDistinct(Sorted(front), last);
    }
  }

  /** Two sorted lists of the same nodes are the same list. */
  lemma {:induction false} SortedIsUnique(a: seq<Node>, b: seq<Node>)
    requires IsSorted(a) && IsSorted(b) && DistinctIds(a) && DistinctIds(b) && forall n :: n in a <==> n in b
    ensures a == b
    decreases |a|
  {
    if a == [] {
      NonemptyHasMember(b);
    } else {
      assert a[0] in a && a[0] in b;
      assert b[0] in b && b[0] in a;
      SameFirst(a, b);
      assert a == [a[0]] + a[1..] && b == [b[0]] + b[1..];
      forall n ensures n in a[1..] <==> n in b[1..] {
        TailOf(a, n);
        TailOf(b, n);
      }
      SortedIsUnique(a[1..], b[1..]);
    }
  }

  lemma TailOf(a: seq<Node>, n: Node)
    requires a != [] && DistinctIds(a)
    ensures n in a[1..] <==> n in a && n != a[0]
  {
    if n in a[1..] {
      var j :| 0 <= j < |a[1..]| && a[1..][j] == n;
      assert a[j + 1] == n && a[0].id != a[j + 1].id;
    }
    if n in a && n != a[0] {
      var j :| 0 <= j < |a| && a[j] == n;
      assert a[1..][j - 1] == n;
    }
  }

  lemma SameFirst(a: seq<Node>, b: seq<Node>)
    requires IsSorted(a) && IsSorted(b) && a != [] && b != [] && a[0] in b && b[0] in a && DistinctIds(a)
    ensures a[0] == b[0]
  {
    var i :| 0 <= i < |a| && a[i] == b[0];
    var j :| 0 <= j < |b| && b[j] == a[0];
    assert i > 0 ==> a[0].id != a[i].id;
    if i > 0 && j > 0 {
      assert NodeLe(a[0], a[i]) && NodeLe(b[0], b[j]);
      NodeLeAntisymmetric(a[0], b[0]);
    }
  }

  lemma NodeLeAntisymmetric(a: Node, b: Node)
    requires NodeLe(a, b) && NodeLe(b, a)
    ensures a.id == b.id
  {
    StringOrder();
  }

  /** The planning loop: pick the least full open Worker for each expert in turn. */
  method PickWorkers(caps: seq<nat>, required: nat) returns (loads: array<nat>, chosen: seq<nat>)
    requires required <= Sum(caps) && forall i :: 0 <= i < |caps| ==> caps[i] > 0
    ensures fresh(loads) && Loads(caps, required) == Some((loads[..], chosen))
  {
    loads := new nat[|caps|](_ => 0);
    chosen := [];
    assert loads[..] == seq(|caps|, _ => 0);
    for n := 0 to required
      invariant Loads(caps, n) == Some((loads[..], chosen)) && fresh(loads) && loads.Length == |caps|
    {
      ghost var before := loads[..];
      NextExists(caps, n, before, chosen);
      LoadsStep(caps, n, before, chosen);
      var selected := SelectWorker(loads[..], caps);
      AddLoad(loads, selected);
      chosen := chosen + [selected];
    }
  }

  method AddLoad(loads: array<nat>, i: nat)
    requires i < loads.Length
    modifies loads
    ensures loads[..] == old(loads[..])[i := old(loads[i]) + 1]
  {
    loads[i] := loads[i] + 1;
  }

  method SelectWorker(loads: seq<nat>, caps: seq<nat>) returns (selected: nat)
    requires |loads| == |caps| && Best(loads, caps, |caps|).Some?
    ensures Some(selected) == Best(loads, caps, |caps|)
  {
    var best: Option<nat> := None;
    for k := 0 to |caps|
      invariant best == Best(loads, caps, k)
    {
      if loads[k] < caps[k] {
        if best.None? || loads[best.value] * caps[k] > loads[k] * caps[best.value] { best := Some(k); }
      }
    }
    selected := best.value;
  }

  /** Same plan as the specification; when it succeeds, exactly the required experts are placed, each
      Worker within capacity and in proportion. */
  method PlanRebalanceNodes(instance: int, nodes: seq<Node>, required: nat) returns (r: Result<seq<int>, PlanError>)
    ensures r == PlanNodes(instance, nodes, required)
    ensures r.Ok? <==> instance > 0 && required > 0 &&
                       required <= Sum(Capacities(Sorted(Filtered(nodes, instance)))) <= MAX_U64
    ensures r.Ok? ==>
              var workers := Sorted(Filtered(nodes, instance));
              exists loads, chosen ::
                && PlanOk(Capacities(workers), required, loads, chosen) && |r.value| == required
                && forall k :: 0 <= k < required ==> chosen[k] < |workers| && r.value[k] == workers[chosen[k]].id
  {
    if instance <= 0 { return Err(BadInstance); }
    if required == 0 { return Err(NoExperts); }
    var workers := Sorted(Filtered(nodes, instance));
    if workers == [] { return Err(NoWorkers); }
    var caps := Capacities(workers);
    var total := Total(caps);
    if total.None? { return Err(CapacityOverflow); }
    if total.value < required { return Err(NotEnoughCapacity(total.value, required)); }
    WorkersAreEligible(nodes, instance);
    PlanIsBalanced(caps, required);
    var loads, chosen := PickWorkers(caps, required);
    var planned := seq(required, k requires 0 <= k < required => workers[chosen[k]].id);
    assert PlanOk(caps, required, loads[..], chosen);
    return Ok(planned);
  }
}
