/** Replica selection before Worker grouping. */
module Selection {
  import opened Topology
  import opened RoutedBatch
  import opened Arithmetic
  import opened Ordering

  datatype ErrorCode = InvalidRequest | Unavailable | DeadlineExceeded | OtherCode(code: nat)

  datatype TransportError = TransportError(code: ErrorCode, retryable: bool, minVersion: Option<nat>, unavailable: seq<nat>)

  function UnavailableError(experts: seq<nat>): TransportError {
    TransportError(Unavailable, true, None, experts)
  }

  /** The replicas outside `excluded`, in route order. */
  function Preferred(replicas: seq<Connection>, excluded: set<Identity>): (r: seq<Connection>)
    ensures forall c :: c in r <==> c in replicas && c.identity !in excluded
  {
    if replicas == [] then []
    else if replicas[0].identity in excluded then Preferred(replicas[1..], excluded)
    else [replicas[0]] + Preferred(replicas[1..], excluded)
  }

  /** Excluded replicas count only as a fallback, when no other replica is left. */
  function Eligible(replicas: seq<Connection>, excluded: set<Identity>, fallback: bool): (r: seq<Connection>)
    ensures forall c :: c in r ==> c in replicas
    ensures forall c :: c in r && c.identity in excluded ==> fallback && forall d :: d in replicas ==> d.identity in excluded
    ensures r == [] <==> (forall d :: d in replicas ==> d.identity in excluded) && (fallback ==> replicas == [])
  {
    var preferred := Preferred(replicas, excluded);
    assert preferred != [] ==> preferred[0] in preferred;
    assert replicas != [] ==> replicas[0] in replicas;
    if preferred == [] && fallback then replicas else preferred
  }

  /** `chosen` are the replicas outside `excluded`, in route order; `at` says where each stands. */
  ghost predicate ChosenAt(chosen: seq<Connection>, replicas: seq<Connection>, excluded: set<Identity>, at: seq<nat>) {
    && |at| == |chosen| && (forall i :: 0 <= i < |at| ==> at[i] < |replicas| && replicas[at[i]] == chosen[i])
    && (forall i, j :: 0 <= i < j < |at| ==> at[i] < at[j])
    && (forall k: nat :: k < |replicas| && replicas[k].identity !in excluded ==> k in at)
  }

  function Shifted(at: seq<nat>): (r: seq<nat>)
    ensures |r| == |at| && forall i :: 0 <= i < |at| ==> r[i] == at[i] + 1
  {
    seq(|at|, i requires 0 <= i < |at| => at[i] + 1)
  }

  lemma ShiftedHas(at: seq<nat>, k: nat)
    requires k in at
    ensures k + 1 in Shifted(at)
  {
    var i :| 0 <= i < |at| && at[i] == k;
    assert Shifted(at)[i] == k + 1;
  }

  lemma SkippedOne(c: Connection, chosen: seq<Connection>, rest: seq<Connection>, excluded: set<Identity>, at: seq<nat>)
    requires ChosenAt(chosen, rest, excluded, at) && c.identity in excluded
    ensures ChosenAt(chosen, [c] + rest, excluded, Shifted(at))
  {
    var replicas := [c] + rest;
    forall k: nat | k < |replicas| && replicas[k].identity !in excluded ensures k in Shifted(at) {
      assert rest[k - 1] == replicas[k];
      ShiftedHas(at, k - 1);
    }
  }

  lemma ChosenOne(c: Connection, chosen: seq<Connection>, rest: seq<Connection>, excluded: set<Identity>, at: seq<nat>)
    requires ChosenAt(chosen, rest, excluded, at) && c.identity !in excluded
    ensures ChosenAt([c] + chosen, [c] + rest, excluded, [0] + Shifted(at))
  {
    var replicas := [c] + rest;
    forall k: nat | k < |replicas| && replicas[k].identity !in excluded ensures k in [0] + Shifted(at) {
      if k > 0 {
        assert rest[k - 1] == replicas[k];
        ShiftedHas(at, k - 1);
      }
    }
  }

  /** Preferred replicas keep their order in the route. */
  lemma {:induction false} PreferredInOrder(replicas: seq<Connection>, excluded: set<Identity>) returns (at: seq<nat>)
    ensures ChosenAt(Preferred(replicas, excluded), replicas, excluded, at)
    decreases |replicas|
  {
    if replicas == [] {
      at := [];
    } else {
      var rest := PreferredInOrder(replicas[1..], excluded);
      assert replicas == [replicas[0]] + replicas[1..];
      if replicas[0].identity in excluded {
        SkippedOne(replicas[0], Preferred(replicas[1..], excluded), replicas[1..], excluded, rest);
        at := Shifted(rest);
      } else {
        ChosenOne(replicas[0], Preferred(replicas[1..], excluded), replicas[1..], excluded, rest);
        at := [0] + Shifted(rest);
      }
    }
  }

  /** In any `n` turns in a row every one of `n` eligible replicas gets its turn. */
  lemma RotationReaches(turn: nat, n: nat, i: nat) returns (k: nat)
    requires i < n
    ensures k < n && (turn + k) % n == i
  {
    var r := turn % n;
    k := if i >= r then i - r else i + n - r;
    assert turn == (turn / n) * n + r;
    var q := turn / n;
    if i >= r {
      assert turn + k == q * n + i;
      RemainderIs(q, n, i);
    } else {
      assert turn + k == q * n + n + i == (q + 1) * n + i;
      RemainderIs(q + 1, n, i);
    }
  }

  lemma NotBelow(d: nat, q: nat, n: nat, r: nat, i: nat)
    requires d * n + r == q * n + i && r < n
    ensures d >= q
  {
    if d < q { MulOrder(d, q, n); }
  }

  lemma RemainderIs(q: nat, n: nat, i: nat)
    requires i < n
    ensures (q * n + i) % n == i
  {
    var x := q * n + i;
    var d, r := x / n, x % n;
    assert x == d * n + r;
    NotBelow(d, q, n, r, i);
    NotBelow(q, d, n, i, r);
  }

  /** All replicas outside `excluded` are eligible, in route order; if there is none, all of them as a
      fallback, or none. */
  lemma EligibleExactly(replicas: seq<Connection>, excluded: set<Identity>, fallback: bool) returns (at: seq<nat>)
    ensures var r := Eligible(replicas, excluded, fallback);
            if forall d :: d in replicas ==> d.identity in excluded then r == if fallback then replicas else []
            else ChosenAt(r, replicas, excluded, at) && forall c :: c in r ==> c.identity !in excluded
  {
    at := PreferredInOrder(replicas, excluded);
    if d :| d in replicas && d.identity !in excluded { assert d in Preferred(replicas, excluded); }
    NonemptyHasMember(Preferred(replicas, excluded));
  }

  datatype SelectorKey = SelectorKey(instance: nat, layer: nat, expert: nat)

  class RoundRobinSelector {
    var next: map<SelectorKey, nat>

    constructor ()
      ensures next == map[]
    {
      next := map[];
    }

    function Turn(key: SelectorKey): nat reads this {
      if key in next then next[key] else 0
    }

    /** Each expert rotates on its own; a refused selection does not use up a turn. */
    method Select(instance: nat, layer: nat, expert: nat, replicas: seq<Connection>, excluded: set<Identity>, fallback: bool)
      returns (r: Result<Connection, TransportError>)
      modifies this
      ensures var eligible := Eligible(replicas, excluded, fallback);
              var key := SelectorKey(instance, layer, expert);
              if eligible == [] then r == Err(UnavailableError([expert])) && next == old(next)
              else r == Ok(eligible[old(Turn(key)) % |eligible|]) && next == old(next)[key := old(Turn(key)) + 1]
      ensures r.Ok? <==> Eligible(replicas, excluded, fallback) != []
      ensures r.Ok? ==> r.value in Eligible(replicas, excluded, fallback)
    {
      var eligible := Eligible(replicas, excluded, fallback);
      if eligible == [] { return Err(UnavailableError([expert])); }
      var key := SelectorKey(instance, layer, expert);
      var index := Turn(key);
      next := next[key := index + 1];
      return Ok(eligible[index % |eligible|]);
    }
  }
}
