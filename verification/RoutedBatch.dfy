/** Token/top-k assignment matrices, their physical Worker batches, and what they add up to.

    A row holds one token's slots.  An expert id below zero marks an empty slot.  The two tensors of
    the source (expert ids and routing weights, always of one shape) are one matrix of slots here. */
module RoutedBatch {
  import opened Topology

  datatype Slot = Slot(expert: int, weight: real)

  type Row = seq<Slot>

  const EmptySlot := Slot(-1, 0.0)

  datatype LayerBatch = LayerBatch(instance: nat, layer: nat, rows: seq<Row>, distinct: seq<nat>)

  datatype Identity = Identity(workerId: string, startId: string)

  datatype Connection = Connection(identity: Identity, maxBatchTokens: nat)

  /** `tokens` names the source row of each row; `None` selects every source row in order. */
  datatype WorkerBatch = WorkerBatch(instance: nat, layer: nat, version: nat, tokens: Option<seq<nat>>,
                                     rows: seq<Row>, distinct: seq<nat>)

  datatype Plan = Plan(target: Connection, batch: WorkerBatch)

  function TokensOf(b: WorkerBatch): seq<nat> {
    if b.tokens.Some? then b.tokens.value else seq(|b.rows|, i requires 0 <= i => i)
  }

  predicate Assigned(row: Row, s: nat) { s < |row| && row[s].expert >= 0 }

  // ---------------------------------------------------------------- expert lists

  ghost predicate StrictlyIncreasing(ids: seq<nat>) {
    forall i, j :: 0 <= i < j < |ids| ==> ids[i] < ids[j]
  }

  ghost predicate Names(rows: seq<Row>, expert: nat) {
    exists r, s :: 0 <= r < |rows| && 0 <= s < |rows[r]| && rows[r][s].expert == expert
  }

  /** The sorted list of exactly the experts that some slot names. */
  ghost predicate ExactExperts(rows: seq<Row>, distinct: seq<nat>) {
    StrictlyIncreasing(distinct) && forall e: nat :: e in distinct <==> Names(rows, e)
  }

  // ---------------------------------------------------------------- hits

  /** How many of the first `n` rows carry an assignment of token `t` in slot `s`. */
  function HitsUpTo(tokens: seq<nat>, rows: seq<Row>, n: nat, t: nat, s: nat): nat
    requires n <= |tokens| && n <= |rows|
  {
    if n == 0 then 0
    else HitsUpTo(tokens, rows, n - 1, t, s) + if tokens[n - 1] == t && Assigned(rows[n - 1], s) then 1 else 0
  }

  /** Every row stands for one source row and its assignments are that row's, slot by slot. */
  ghost predicate RowsFaithful(tokens: seq<nat>, rows: seq<Row>, source: seq<Row>) {
    && |tokens| == |rows|
    && forall r :: 0 <= r < |rows| ==>
         && tokens[r] < |source| && |rows[r]| == |source[tokens[r]]|
         && forall s :: 0 <= s < |rows[r]| && rows[r][s].expert >= 0 ==> rows[r][s] == source[tokens[r]][s]
  }

  ghost predicate Faithful(b: WorkerBatch, source: seq<Row>) {
    RowsFaithful(TokensOf(b), b.rows, source)
  }

  ghost predicate PlansFaithful(plans: seq<Plan>, source: seq<Row>) {
    forall i :: 0 <= i < |plans| ==> Faithful(plans[i].batch, source)
  }

  /** A batch has one token per row; constructing one checks that. */
  function RowCount(b: WorkerBatch): (n: nat)
    ensures n <= |TokensOf(b)| && n <= |b.rows|
    ensures |TokensOf(b)| == |b.rows| ==> n == |b.rows|
  {
    if |TokensOf(b)| <= |b.rows| then |TokensOf(b)| else |b.rows|
  }

  function BatchHits(b: WorkerBatch, t: nat, s: nat): nat {
    HitsUpTo(TokensOf(b), b.rows, RowCount(b), t, s)
  }

  function PlanHits(plans: seq<Plan>, t: nat, s: nat): nat {
    if plans == [] then 0
    else PlanHits(plans[..|plans| - 1], t, s) + BatchHits(plans[|plans| - 1].batch, t, s)
  }

  /** Each assignment of `source` is in exactly one plan, and the plans hold no other. */
  ghost predicate Partition(plans: seq<Plan>, source: seq<Row>) {
    && PlansFaithful(plans, source)
    && forall t, s :: 0 <= t < |source| && 0 <= s ==> PlanHits(plans, t, s) == if Assigned(source[t], s) then 1 else 0
  }

  /** Hits of a stretch of rows are the hits up to its end less the hits up to its start. */
  lemma {:induction false} HitsOfStretch(tokens: seq<nat>, rows: seq<Row>, start: nat,
                                         partTokens: seq<nat>, partRows: seq<Row>, n: nat, t: nat, s: nat)
    requires |tokens| == |rows| && start + n <= |rows| && n <= |partTokens| == |partRows|
    requires forall i :: 0 <= i < n ==> partTokens[i] == tokens[start + i] && partRows[i] == rows[start + i]
    ensures HitsUpTo(tokens, rows, start + n, t, s) == HitsUpTo(tokens, rows, start, t, s) + HitsUpTo(partTokens, partRows, n, t, s)
  {
    if n > 0 {
      HitsOfStretch(tokens, rows, start, partTokens, partRows, n - 1, t, s);
      assert partTokens[n - 1] == tokens[start + (n - 1)] && partRows[n - 1] == rows[start + (n - 1)];
    }
  }

  /** Appending a row changes the count by that row alone. */
  lemma {:induction false} HitsOfAppend(tokens: seq<nat>, rows: seq<Row>, token: nat, row: Row, t: nat, s: nat)
    requires |tokens| == |rows|
    ensures HitsUpTo(tokens + [token], rows + [row], |rows| + 1, t, s)
            == HitsUpTo(tokens, rows, |rows|, t, s) + if token == t && Assigned(row, s) then 1 else 0
  {
    HitsOfStretch(tokens + [token], rows + [row], 0, tokens, rows, |rows|, t, s);
  }

  lemma {:induction false} PlanHitsConcat(a: seq<Plan>, b: seq<Plan>, t: nat, s: nat)
    ensures PlanHits(a + b, t, s) == PlanHits(a, t, s) + PlanHits(b, t, s)
    decreases |b|
  {
    if b == [] {
      assert a + b == a;
    } else {
      var front := b[..|b| - 1];
      PlanHitsConcat(a, front, t, s);
      assert (a + b)[..|a + b| - 1] == a + front;
      assert (a + b)[|a + b| - 1] == b[|b| - 1];
    }
  }

  /** A matrix taken whole, in row order, hits each of its assignments once. */
  lemma {:induction false} HitsOfWhole(tokens: seq<nat>, rows: seq<Row>, n: nat, t: nat, s: nat)
    requires n <= |tokens| == |rows| && forall i :: 0 <= i < |rows| ==> tokens[i] == i
    ensures HitsUpTo(tokens, rows, n, t, s) == if t < n && Assigned(rows[t], s) then 1 else 0
  {
    if n > 0 { HitsOfWhole(tokens, rows, n - 1, t, s); }
  }

  // ---------------------------------------------------------------- sums

  /** What one slot contributes; `f(t, e)` is one hidden coordinate of expert `e` on token `t`. */
  function Value(f: (nat, nat) -> real, t: nat, slot: Slot): real {
    if slot.expert >= 0 then slot.weight * f(t, slot.expert) else 0.0
  }

  function RowSum(f: (nat, nat) -> real, t: nat, row: Row, k: nat): real
    requires k <= |row|
  {
    if k == 0 then 0.0 else RowSum(f, t, row, k - 1) + Value(f, t, row[k - 1])
  }

  /** The plain weighted sum over every assignment of token `t`. */
  function PlainSum(f: (nat, nat) -> real, rows: seq<Row>, t: nat): real
    requires t < |rows|
  {
    RowSum(f, t, rows[t], |rows[t]|)
  }

  /** What the first `n` rows of a physical batch add to token `t`. */
  function SumUpTo(f: (nat, nat) -> real, tokens: seq<nat>, rows: seq<Row>, n: nat, t: nat): real
    requires n <= |tokens| && n <= |rows|
  {
    if n == 0 then 0.0
    else SumUpTo(f, tokens, rows, n - 1, t)
         + if tokens[n - 1] == t then RowSum(f, t, rows[n - 1], |rows[n - 1]|) else 0.0
  }

  function BatchSum(f: (nat, nat) -> real, b: WorkerBatch, t: nat): real {
    SumUpTo(f, TokensOf(b), b.rows, RowCount(b), t)
  }

  function PlanSum(f: (nat, nat) -> real, plans: seq<Plan>, t: nat): real {
    if plans == [] then 0.0
    else PlanSum(f, plans[..|plans| - 1], t) + BatchSum(f, plans[|plans| - 1].batch, t)
  }

  /** Each slot of `row` counted as often as `hits` says, up to slot `k`. */
  function CountedSum(f: (nat, nat) -> real, t: nat, row: Row, hits: seq<nat>, k: nat): real
    requires k <= |row| == |hits|
  {
    if k == 0 then 0.0
    else CountedSum(f, t, row, hits, k - 1) + hits[k - 1] as real * Value(f, t, row[k - 1])
  }

  lemma {:induction false} CountedSumAdds(f: (nat, nat) -> real, t: nat, row: Row, a: seq<nat>, b: seq<nat>, c: seq<nat>, k: nat)
    requires k <= |row| == |a| == |b| == |c|
    requires forall s :: 0 <= s < |row| ==> c[s] == a[s] + b[s]
    ensures CountedSum(f, t, row, c, k) == CountedSum(f, t, row, a, k) + CountedSum(f, t, row, b, k)
  {
    if k > 0 {
      CountedSumAdds(f, t, row, a, b, c, k - 1);
      var v := Value(f, t, row[k - 1]);
      assert c[k - 1] as real * v == a[k - 1] as real * v + b[k - 1] as real * v;
    }
  }

  lemma {:induction false} CountedSumOfNone(f: (nat, nat) -> real, t: nat, row: Row, hits: seq<nat>, k: nat)
    requires k <= |row| == |hits| && forall s :: 0 <= s < |row| ==> hits[s] == 0
    ensures CountedSum(f, t, row, hits, k) == 0.0
  {
    if k > 0 { CountedSumOfNone(f, t, row, hits, k - 1); }
  }

  /** A row whose assignments are some of `source`'s sums to those slots counted once. */
  lemma {:induction false} RowSumIsCounted(f: (nat, nat) -> real, t: nat, row: Row, source: Row, hits: seq<nat>, k: nat)
    requires k <= |row| == |source| == |hits|
    requires forall s :: 0 <= s < |row| && row[s].expert >= 0 ==> row[s] == source[s]
    requires forall s :: 0 <= s < |row| ==> hits[s] == if Assigned(row, s) then 1 else 0
    ensures RowSum(f, t, row, k) == CountedSum(f, t, source, hits, k)
  {
    if k > 0 { RowSumIsCounted(f, t, row, source, hits, k - 1); }
  }

  function HitVector(tokens: seq<nat>, rows: seq<Row>, n: nat, t: nat, width: nat): (v: seq<nat>)
    requires n <= |tokens| && n <= |rows|
    ensures |v| == width && forall s :: 0 <= s < width ==> v[s] == HitsUpTo(tokens, rows, n, t, s)
  {
    seq(width, s requires 0 <= s => HitsUpTo(tokens, rows, n, t, s))
  }

  lemma {:induction false} SumIsCounted(f: (nat, nat) -> real, tokens: seq<nat>, rows: seq<Row>, source: seq<Row>, n: nat, t: nat)
    requires RowsFaithful(tokens, rows, source) && n <= |rows| && t < |source|
    ensures SumUpTo(f, tokens, rows, n, t)
            == CountedSum(f, t, source[t], HitVector(tokens, rows, n, t, |source[t]|), |source[t]|)
  {
    var width := |source[t]|;
    var now := HitVector(tokens, rows, n, t, width);
    if n == 0 {
      CountedSumOfNone(f, t, source[t], now, width);
    } else {
      SumIsCounted(f, tokens, rows, source, n - 1, t);
      var before := HitVector(tokens, rows, n - 1, t, width);
      var step := seq(width, s requires 0 <= s => if tokens[n - 1] == t && Assigned(rows[n - 1], s) then 1 else 0);
      CountedSumAdds(f, t, source[t], before, step, now, width);
      if tokens[n - 1] == t {
        RowSumIsCounted(f, t, rows[n - 1], source[t], step, width);
      } else {
        CountedSumOfNone(f, t, source[t], step, width);
      }
    }
  }

  function PlanHitVector(plans: seq<Plan>, t: nat, width: nat): (v: seq<nat>)
    ensures |v| == width && forall s :: 0 <= s < width ==> v[s] == PlanHits(plans, t, s)
  {
    seq(width, s requires 0 <= s => PlanHits(plans, t, s))
  }

  /** The plans add to a token each of its slots as often as they hold it. */
  lemma {:induction false} PlanSumIsCounted(f: (nat, nat) -> real, plans: seq<Plan>, source: seq<Row>, t: nat)
    requires PlansFaithful(plans, source) && t < |source|
    ensures PlanSum(f, plans, t) == CountedSum(f, t, source[t], PlanHitVector(plans, t, |source[t]|), |source[t]|)
    decreases |plans|
  {
    var width := |source[t]|;
    var now := PlanHitVector(plans, t, width);
    if plans == [] {
      CountedSumOfNone(f, t, source[t], now, width);
    } else {
      var front, b := plans[..|plans| - 1], plans[|plans| - 1].batch;
      PlanSumIsCounted(f, front, source, t);
      SumIsCounted(f, TokensOf(b), b.rows, source, |b.rows|, t);
      CountedSumAdds(f, t, source[t], PlanHitVector(front, t, width),
                     HitVector(TokensOf(b), b.rows, |b.rows|, t, width), now, width);
    }
  }

  /** Whatever the expert outputs are: plans that partition the assignments add up to the plain sum. */
  lemma PartitionSums(f: (nat, nat) -> real, plans: seq<Plan>, source: seq<Row>, t: nat)
    requires Partition(plans, source) && t < |source|
    ensures PlanSum(f, plans, t) == PlainSum(f, source, t)
  {
    PlanSumIsCounted(f, plans, source, t);
    RowSumIsCounted(f, t, source[t], source[t], PlanHitVector(plans, t, |source[t]|), |source[t]|);
  }

  lemma {:induction false} PlanSumConcat(f: (nat, nat) -> real, a: seq<Plan>, b: seq<Plan>, t: nat)
    ensures PlanSum(f, a + b, t) == PlanSum(f, a, t) + PlanSum(f, b, t)
    decreases |b|
  {
    if b == [] {
      assert a + b == a;
    } else {
      var front := b[..|b| - 1];
      PlanSumConcat(f, a, front, t);
      assert (a + b)[..|a + b| - 1] == a + front;
      assert (a + b)[|a + b| - 1] == b[|b| - 1];
    }
  }
}
