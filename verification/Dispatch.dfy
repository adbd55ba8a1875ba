/** Dispatch of physical batches: tasks finish in any order, each adds its partial once or fails. */
module Dispatch {
  import opened Topology
  import opened RoutedBatch
  import opened Selection

  datatype Failure = Failure(plan: Plan, error: TransportError)

  /** What the Worker of plan `i` answers: `None` when its partial output arrives. */
  type Answers = nat -> Option<TransportError>

  function Succeeded(plans: seq<Plan>, answers: Answers, n: nat): (r: seq<Plan>)
    requires n <= |plans|
  {
    if n == 0 then []
    else Succeeded(plans, answers, n - 1) + if answers(n - 1).None? then [plans[n - 1]] else []
  }

  /** The failed plans in input order. */
  function Failures(plans: seq<Plan>, answers: Answers, n: nat): (r: seq<Failure>)
    requires n <= |plans|
  {
    if n == 0 then []
    else Failures(plans, answers, n - 1) + if answers(n - 1).Some? then [Failure(plans[n - 1], answers(n - 1).value)] else []
  }

  function PlansOf(failures: seq<Failure>): (r: seq<Plan>)
    ensures |r| == |failures|
    ensures forall i :: 0 <= i < |r| ==> r[i] == failures[i].plan
  {
    seq(|failures|, i requires 0 <= i < |failures| => failures[i].plan)
  }

  /** Every index below `n`, each once. */
  ghost predicate IsOrder(order: seq<nat>, n: nat) {
    && (forall i :: 0 <= i < |order| ==> order[i] < n)
    && (forall i, j :: 0 <= i < j < |order| ==> order[i] != order[j])
    && (forall i: nat :: i < n ==> i in order)
  }

  ghost predicate TokensWithin(plans: seq<Plan>, n: nat) {
    forall i :: 0 <= i < |plans| ==> RowsWithin(plans[i].batch, n)
  }

  ghost predicate RowsWithin(b: WorkerBatch, n: nat) {
    |TokensOf(b)| == |b.rows| && forall r :: 0 <= r < |b.rows| ==> TokensOf(b)[r] < n
  }

  /** Partials of the finished tasks among the first `n`. */
  ghost function DoneSum(f: (nat, nat) -> real, plans: seq<Plan>, answers: Answers, done: set<nat>, n: nat, t: nat): real
    requires n <= |plans|
  {
    if n == 0 then 0.0
    else DoneSum(f, plans, answers, done, n - 1, t)
         + if n - 1 in done && answers(n - 1).None? then BatchSum(f, plans[n - 1].batch, t) else 0.0
  }

  lemma {:induction false} DoneOneMore(f: (nat, nat) -> real, plans: seq<Plan>, answers: Answers, done: set<nat>, i: nat, n: nat, t: nat)
    requires n <= |plans| && i !in done && i < |plans|
    ensures DoneSum(f, plans, answers, done + {i}, n, t)
            == DoneSum(f, plans, answers, done, n, t)
               + if i < n && answers(i).None? then BatchSum(f, plans[i].batch, t) else 0.0
  {
    if n > 0 { DoneOneMore(f, plans, answers, done, i, n - 1, t); }
  }

  lemma {:induction false} NothingDone(f: (nat, nat) -> real, plans: seq<Plan>, answers: Answers, n: nat, t: nat)
    requires n <= |plans|
    ensures DoneSum(f, plans, answers, {}, n, t) == 0.0
  {
    if n > 0 { NothingDone(f, plans, answers, n - 1, t); }
  }

  /** All done in any order: the sum of the successful plans. */
  lemma {:induction false} AllDone(f: (nat, nat) -> real, plans: seq<Plan>, answers: Answers, done: set<nat>, n: nat, t: nat)
    requires n <= |plans| && forall i: nat :: i < n ==> i in done
    ensures DoneSum(f, plans, answers, done, n, t) == PlanSum(f, Succeeded(plans, answers, n), t)
  {
    if n > 0 {
      AllDone(f, plans, answers, done, n - 1, t);
      var before := Succeeded(plans, answers, n - 1);
      SumWithOneMore(f, before, plans[n - 1], t);
      assert before + [] == before;
      assert n - 1 in done;
    }
  }

  lemma {:induction false} SumWithOneMore(f: (nat, nat) -> real, plans: seq<Plan>, p: Plan, t: nat)
    ensures PlanSum(f, plans + [p], t) == PlanSum(f, plans, t) + BatchSum(f, p.batch, t)
  {
    assert (plans + [p])[..|plans|] == plans;
  }

  /** Add one partial output into the rows it stands for. */
  method AddPartial(b: WorkerBatch, f: (nat, nat) -> real, acc: array<real>)
    requires RowsWithin(b, acc.Length)
    modifies acc
    ensures forall t :: 0 <= t < acc.Length ==> acc[t] == old(acc[t]) + BatchSum(f, b, t)
  {
    var tokens := TokensOf(b);
    for n := 0 to |b.rows|
      invariant forall t :: 0 <= t < acc.Length ==> acc[t] == old(acc[t]) + SumUpTo(f, tokens, b.rows, n, t)
    {
      var t := tokens[n];
      acc[t] := acc[t] + RowSum(f, t, b.rows[n], |b.rows[n]|);
    }
  }

  ghost predicate Finished(done: set<nat>, order: seq<nat>, k: nat)
    requires k <= |order|
  {
    && (forall j :: 0 <= j < k ==> order[j] in done)
    && (forall j :: k <= j < |order| ==> order[j] !in done)
  }

  lemma FinishedOneMore(done: set<nat>, order: seq<nat>, k: nat, n: nat)
    requires k < |order| && IsOrder(order, n) && Finished(done, order, k)
    ensures Finished(done + {order[k]}, order, k + 1)
  {
  }

  lemma AllFinished(done: set<nat>, order: seq<nat>, n: nat)
    requires IsOrder(order, n) && Finished(done, order, |order|)
    ensures forall i: nat :: i < n ==> i in done
  {
    forall i: nat | i < n ensures i in done {
      assert i in order;
    }
  }

  /** Failures noted so far, by plan index. */
  ghost predicate Noted(noted: seq<Option<Failure>>, plans: seq<Plan>, answers: Answers, done: set<nat>) {
    && |noted| == |plans|
    && forall i: nat :: i < |plans| ==>
         noted[i] == if i in done && answers(i).Some? then Some(Failure(plans[i], answers(i).value)) else None
  }

  /** Dispatch every plan once; successes are added exactly once, failures come back in input order. */
  method DispatchOnce(plans: seq<Plan>, f: (nat, nat) -> real, order: seq<nat>, answers: Answers, acc: array<real>)
    returns (failures: seq<Failure>)
    requires TokensWithin(plans, acc.Length) && IsOrder(order, |plans|)
    modifies acc
    ensures failures == Failures(plans, answers, |plans|)
    ensures forall t :: 0 <= t < acc.Length ==> acc[t] == old(acc[t]) + PlanSum(f, Succeeded(plans, answers, |plans|), t)
  {
    var noted: seq<Option<Failure>> := seq(|plans|, _ => None);
    ghost var done: set<nat> := {};
    forall t: nat ensures DoneSum(f, plans, answers, {}, |plans|, t) == 0.0 { NothingDone(f, plans, answers, |plans|, t); }
    for k := 0 to |order|
      invariant Finished(done, order, k) && Noted(noted, plans, answers, done)
      invariant forall t :: 0 <= t < acc.Length ==> acc[t] == old(acc[t]) + DoneSum(f, plans, answers, done, |plans|, t)
    {
      var i := order[k];
      forall t: nat
        ensures DoneSum(f, plans, answers, done + {i}, |plans|, t)
                == DoneSum(f, plans, answers, done, |plans|, t) + if answers(i).None? then BatchSum(f, plans[i].batch, t) else 0.0
      {
        DoneOneMore(f, plans, answers, done, i, |plans|, t);
      }
      match answers(i) {
        case None => AddPartial(plans[i].batch, f, acc);
        case Some(error) => noted := noted[i := Some(Failure(plans[i], error))];
      }
      FinishedOneMore(done, order, k, |plans|);
      done := done + {i};
    }
    AllFinished(done, order, |plans|);
    forall t: nat ensures DoneSum(f, plans, answers, done, |plans|, t) == PlanSum(f, Succeeded(plans, answers, |plans|), t) {
      AllDone(f, plans, answers, done, |plans|, t);
    }
    failures := Collect(noted, plans, answers, done);
  }

  method Collect(noted: seq<Option<Failure>>, plans: seq<Plan>, answers: Answers, ghost done: set<nat>) returns (failures: seq<Failure>)
    requires Noted(noted, plans, answers, done) && forall i: nat :: i < |plans| ==> i in done
    ensures failures == Failures(plans, answers, |plans|)
  {
    failures := [];
    for n := 0 to |noted|
      invariant failures == Failures(plans, answers, n)
    {
      if noted[n].Some? { failures := failures + [noted[n].value]; }
    }
  }

  // ---------------------------------------------------------------- conservation

  /** What holds of every plan holds of the successful and of the failed ones. */
  lemma {:induction false} SubsetsKeep(plans: seq<Plan>, answers: Answers, n: nat, p: Plan -> bool)
    requires n <= |plans| && forall i :: 0 <= i < |plans| ==> p(plans[i])
    ensures forall i :: 0 <= i < |Succeeded(plans, answers, n)| ==> p(Succeeded(plans, answers, n)[i])
    ensures forall i :: 0 <= i < |Failures(plans, answers, n)| ==> p(Failures(plans, answers, n)[i].plan)
  {
    if n > 0 { SubsetsKeep(plans, answers, n - 1, p); }
  }

  /** Nothing is lost: successes and failures together hold what the plans held. */
  lemma {:induction false} DispatchSplits(plans: seq<Plan>, answers: Answers, n: nat, t: nat, s: nat)
    requires n <= |plans|
    ensures PlanHits(plans[..n], t, s)
            == PlanHits(Succeeded(plans, answers, n), t, s) + PlanHits(PlansOf(Failures(plans, answers, n)), t, s)
  {
    if n == 0 {
      SplitsNone(plans, answers, t, s);
    } else {
      DispatchSplits(plans, answers, n - 1, t, s);
      SplitsStep(plans, answers, n, t, s);
    }
  }

  lemma {:induction false} SplitsNone(plans: seq<Plan>, answers: Answers, t: nat, s: nat)
    ensures PlanHits(plans[..0], t, s)
            == PlanHits(Succeeded(plans, answers, 0), t, s) + PlanHits(PlansOf(Failures(plans, answers, 0)), t, s)
  {
    assert plans[..0] == [] && PlansOf(Failures(plans, answers, 0)) == [];
  }

  lemma {:induction false} SplitsStep(plans: seq<Plan>, answers: Answers, n: nat, t: nat, s: nat)
    requires 0 < n <= |plans|
    requires PlanHits(plans[..n - 1], t, s)
             == PlanHits(Succeeded(plans, answers, n - 1), t, s) + PlanHits(PlansOf(Failures(plans, answers, n - 1)), t, s)
    ensures PlanHits(plans[..n], t, s)
            == PlanHits(Succeeded(plans, answers, n), t, s) + PlanHits(PlansOf(Failures(plans, answers, n)), t, s)
  {
    PrefixOneMore(plans, n, t, s);
    SplitsOneMore(plans, answers, n, t, s);
  }

  lemma {:induction false} PrefixOneMore(plans: seq<Plan>, n: nat, t: nat, s: nat)
    requires 0 < n <= |plans|
    ensures PlanHits(plans[..n], t, s) == PlanHits(plans[..n - 1], t, s) + BatchHits(plans[n - 1].batch, t, s)
  {
    assert plans[..n] == plans[..n - 1] + [plans[n - 1]];
    HitsWithOneMore(plans[..n - 1], plans[n - 1], t, s);
  }

  lemma {:induction false} FailedOneMore(plans: seq<Plan>, answers: Answers, n: nat)
    requires 0 < n <= |plans|
    ensures PlansOf(Failures(plans, answers, n))
            == PlansOf(Failures(plans, answers, n - 1)) + if answers(n - 1).Some? then [plans[n - 1]] else []
  {
  }

  lemma {:induction false} SplitsOneMore(plans: seq<Plan>, answers: Answers, n: nat, t: nat, s: nat)
    requires 0 < n <= |plans|
    ensures PlanHits(Succeeded(plans, answers, n), t, s)
            == PlanHits(Succeeded(plans, answers, n - 1), t, s) + if answers(n - 1).None? then BatchHits(plans[n - 1].batch, t, s) else 0
    ensures PlanHits(PlansOf(Failures(plans, answers, n)), t, s)
            == PlanHits(PlansOf(Failures(plans, answers, n - 1)), t, s) + if answers(n - 1).Some? then BatchHits(plans[n - 1].batch, t, s) else 0
  {
    FailedOneMore(plans, answers, n);
    var won, lost := Succeeded(plans, answers, n - 1), PlansOf(Failures(plans, answers, n - 1));
    assert won + [] == won && lost + [] == lost;
    HitsWithOneMore(won, plans[n - 1], t, s);
    HitsWithOneMore(lost, plans[n - 1], t, s);
  }

  lemma {:induction false} HitsWithOneMore(plans: seq<Plan>, p: Plan, t: nat, s: nat)
    ensures PlanHits(plans + [p], t, s) == PlanHits(plans, t, s) + BatchHits(p.batch, t, s)
  {
    assert (plans + [p])[..|plans|] == plans;
  }
}
