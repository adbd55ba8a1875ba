/** Recovery of experts whose only active replica was on a lost node. */
module Recovery {
  import opened Ordering
  import opened Sums
  import opened Topology

  /** Free expert slots of one target node. */
  datatype Room = Room(node: int, slots: nat)

  datatype Assignment = Assignment(expert: string, node: int)

  // ---------------------------------------------------------------- direct placement

  function Slots(r: Room): nat { r.slots }

  function SlotsAt(node: int): Room -> nat { (r: Room) => if r.node == node then r.slots else 0 }

  function EntriesAt(node: int): Room -> nat { (r: Room) => if r.node == node then 1 else 0 }

  function PlacedAt(node: int): Assignment -> nat { (a: Assignment) => if a.node == node then 1 else 0 }

  /** Stable insertion into a list ordered by falling room. */
  function InsertRoom(sorted: seq<Room>, r: Room): (out: seq<Room>)
    ensures |out| == |sorted| + 1
  {
    if sorted == [] || sorted[0].slots < r.slots then [r] + sorted
    else [sorted[0]] + InsertRoom(sorted[1..], r)
  }

  function SortRoom(rooms: seq<Room>): (out: seq<Room>)
    ensures |out| == |rooms|
  {
    if rooms == [] then [] else InsertRoom(SortRoom(rooms[..|rooms| - 1]), rooms[|rooms| - 1])
  }

  lemma {:induction false} InsertTotal(sorted: seq<Room>, r: Room, weight: Room -> nat)
    ensures Total(InsertRoom(sorted, r), weight) == Total(sorted, weight) + weight(r)
    decreases |sorted|
  {
    if sorted != [] && sorted[0].slots >= r.slots {
      InsertTotal(sorted[1..], r, weight);
      assert ([sorted[0]] + InsertRoom(sorted[1..], r))[1..] == InsertRoom(sorted[1..], r);
    } else {
      assert ([r] + sorted)[1..] == sorted;
    }
  }

  /** Sorting moves rooms around and changes none. */
  lemma {:induction false} SortTotal(rooms: seq<Room>, weight: Room -> nat)
    ensures Total(SortRoom(rooms), weight) == Total(rooms, weight)
    decreases |rooms|
  {
    if rooms != [] {
      var front, last := rooms[..|rooms| - 1], rooms[|rooms| - 1];
      SortTotal(front, weight);
      InsertTotal(SortRoom(front), last, weight);
      assert rooms == front + [last];
      TotalAdds(front, [last], weight);
      TotalOne(last, weight);
    }
  }

  ghost predicate AtMost(rooms: seq<Room>, k: nat) {
    forall i :: 0 <= i < |rooms| ==> rooms[i].slots <= k
  }

  ghost predicate SortedRoom(rooms: seq<Room>) {
    forall i, j :: 0 <= i < j < |rooms| ==> rooms[i].slots >= rooms[j].slots
  }

  lemma {:induction false} InsertAtMost(sorted: seq<Room>, r: Room, k: nat)
    requires AtMost(sorted, k) && r.slots <= k
    ensures AtMost(InsertRoom(sorted, r), k)
    decreases |sorted|
  {
    if sorted != [] && sorted[0].slots >= r.slots { InsertAtMost(sorted[1..], r, k); }
  }

  lemma {:induction false} InsertSorted(sorted: seq<Room>, r: Room)
    requires SortedRoom(sorted)
    ensures SortedRoom(InsertRoom(sorted, r))
    decreases |sorted|
  {
    if sorted != [] && sorted[0].slots >= r.slots {
      InsertSorted(sorted[1..], r);
      InsertAtMost(sorted[1..], r, sorted[0].slots);
    }
  }

  lemma {:induction false} SortSorts(rooms: seq<Room>)
    ensures SortedRoom(SortRoom(rooms))
    decreases |rooms|
  {
    if rooms != [] {
      SortSorts(rooms[..|rooms| - 1]);
      InsertSorted(SortRoom(rooms[..|rooms| - 1]), rooms[|rooms| - 1]);
    }
  }

  lemma {:induction false} NoRoomLeft(rooms: seq<Room>)
    requires forall i :: 0 <= i < |rooms| ==> rooms[i].slots == 0
    ensures Total(rooms, Slots) == 0
    decreases |rooms|
  {
    if rooms != [] { NoRoomLeft(rooms[1..]); }
  }

  lemma TakeSlot(rooms: seq<Room>, weight: Room -> nat)
    requires rooms != [] && rooms[0].slots > 0
    ensures var next := rooms[0 := rooms[0].(slots := rooms[0].slots - 1)];
            Total(next, weight) + weight(rooms[0]) == Total(rooms, weight) + weight(next[0])
  {
    var next := rooms[0 := rooms[0].(slots := rooms[0].slots - 1)];
    assert next[1..] == rooms[1..];
  }

  /** After `n` experts: the placed ones are a prefix, and every slot used is accounted for. */
  ghost predicate Placing(experts: seq<string>, before: seq<Room>, n: nat, rooms: seq<Room>, placed: seq<Assignment>, unplaced: seq<string>) {
    && |placed| <= n <= |experts| && |rooms| == |before|
    && (forall i :: 0 <= i < |placed| ==> placed[i].expert == experts[i])
    && unplaced == experts[|placed|..n] && (unplaced != [] ==> Total(rooms, Slots) == 0)
    && |placed| + Total(rooms, Slots) == Total(before, Slots)
    && forall node :: Total(placed, PlacedAt(node)) + Total(rooms, SlotsAt(node)) == Total(before, SlotsAt(node))
  }

  lemma PlaceOne(experts: seq<string>, before: seq<Room>, n: nat, rooms: seq<Room>, placed: seq<Assignment>, unplaced: seq<string>)
    requires Placing(experts, before, n, rooms, placed, unplaced) && n < |experts|
    requires rooms != [] && rooms[0].slots > 0
    ensures Placing(experts, before, n + 1, rooms[0 := rooms[0].(slots := rooms[0].slots - 1)],
                    placed + [Assignment(experts[n], rooms[0].node)], unplaced)
  {
    var next, a := rooms[0 := rooms[0].(slots := rooms[0].slots - 1)], Assignment(experts[n], rooms[0].node);
    TakeSlot(rooms, Slots);
    assert unplaced == [];
    assert |placed| == n;
    forall node ensures Total(placed + [a], PlacedAt(node)) + Total(next, SlotsAt(node)) == Total(before, SlotsAt(node)) {
      TotalAdds(placed, [a], PlacedAt(node));
      TotalOne(a, PlacedAt(node));
      TakeSlot(rooms, SlotsAt(node));
    }
  }

  lemma PlaceNone(experts: seq<string>, before: seq<Room>, n: nat, rooms: seq<Room>, placed: seq<Assignment>, unplaced: seq<string>)
    requires Placing(experts, before, n, rooms, placed, unplaced) && n < |experts| && Total(rooms, Slots) == 0
    ensures Placing(experts, before, n + 1, rooms, placed, unplaced + [experts[n]])
  {
    assert experts[|placed|..n + 1] == experts[|placed|..n] + [experts[n]];
  }

  lemma SortKeepsPlacing(experts: seq<string>, before: seq<Room>, n: nat, rooms: seq<Room>, placed: seq<Assignment>, unplaced: seq<string>)
    requires Placing(experts, before, n, rooms, placed, unplaced)
    ensures Placing(experts, before, n, SortRoom(rooms), placed, unplaced)
  {
    SortTotal(rooms, Slots);
    forall node ensures Total(SortRoom(rooms), SlotsAt(node)) == Total(rooms, SlotsAt(node)) { SortTotal(rooms, SlotsAt(node)); }
  }

  ghost predicate OneEntryEach(rooms: seq<Room>) {
    forall node :: Total(rooms, EntriesAt(node)) <= 1
  }

  lemma {:induction false} NoEntryNoSlots(rooms: seq<Room>, node: int)
    requires Total(rooms, EntriesAt(node)) == 0
    ensures Total(rooms, SlotsAt(node)) == 0
    decreases |rooms|
  {
    if rooms != [] { NoEntryNoSlots(rooms[1..], node); }
  }

  lemma {:induction false} OneEntrySlots(rooms: seq<Room>, node: int, k: nat)
    requires AtMost(rooms, k) && Total(rooms, EntriesAt(node)) <= 1
    ensures Total(rooms, SlotsAt(node)) <= k
    decreases |rooms|
  {
    if rooms != [] {
      if rooms[0].node == node {
        NoEntryNoSlots(rooms[1..], node);
      } else {
        OneEntrySlots(rooms[1..], node, k);
      }
    }
  }

  lemma SortKeepsEntries(rooms: seq<Room>)
    requires OneEntryEach(rooms)
    ensures OneEntryEach(SortRoom(rooms))
  {
    forall node ensures Total(SortRoom(rooms), EntriesAt(node)) <= 1 { SortTotal(rooms, EntriesAt(node)); }
  }

  lemma TakeKeepsEntries(rooms: seq<Room>)
    requires OneEntryEach(rooms) && rooms != [] && rooms[0].slots > 0
    ensures OneEntryEach(rooms[0 := rooms[0].(slots := rooms[0].slots - 1)])
  {
    var next := rooms[0 := rooms[0].(slots := rooms[0].slots - 1)];
    forall node ensures Total(next, EntriesAt(node)) <= 1 { TakeSlot(rooms, EntriesAt(node)); }
  }

  lemma {:induction false} DistinctHaveOneEntry(rooms: seq<Room>, node: int)
    requires forall j, k :: 0 <= j < k < |rooms| ==> rooms[j].node != rooms[k].node
    ensures Total(rooms, EntriesAt(node)) <= 1
    ensures (forall k :: 0 <= k < |rooms| ==> rooms[k].node != node) ==> Total(rooms, EntriesAt(node)) == 0
    decreases |rooms|
  {
    if rooms != [] { DistinctHaveOneEntry(rooms[1..], node); }
  }

  /** Room left at `node` after the assignments `placed`. */
  ghost function Left(before: seq<Room>, placed: seq<Assignment>, node: int): int {
    Total(before, SlotsAt(node)) - Total(placed, PlacedAt(node))
  }

  /** No node has more room left than `node`. */
  ghost predicate MostRoom(before: seq<Room>, placed: seq<Assignment>, node: int) {
    forall other :: Left(before, placed, other) <= Left(before, placed, node)
  }

  /** Each expert went to a node with the most room left at that moment. */
  ghost predicate Greedy(before: seq<Room>, placed: seq<Assignment>) {
    forall i :: 0 <= i < |placed| ==> MostRoom(before, placed[..i], placed[i].node)
  }

  lemma GreedyMore(experts: seq<string>, before: seq<Room>, n: nat, rooms: seq<Room>, placed: seq<Assignment>, unplaced: seq<string>, e: string)
    requires Placing(experts, before, n, rooms, placed, unplaced) && Greedy(before, placed)
    requires rooms != [] && SortedRoom(rooms) && OneEntryEach(rooms)
    ensures Greedy(before, placed + [Assignment(e, rooms[0].node)])
  {
    var more := placed + [Assignment(e, rooms[0].node)];
    forall node ensures Left(before, placed, node) <= Left(before, placed, rooms[0].node) {
      OneEntrySlots(rooms, node, rooms[0].slots);
    }
    forall i | 0 <= i < |more| ensures MostRoom(before, more[..i], more[i].node) {
      assert more[..i] == placed[..i];
    }
    assert placed[..|placed|] == placed;
  }

  /** All room used up: every node is filled to the last slot. */
  lemma {:induction false} NoSlotsAnywhere(rooms: seq<Room>, node: int)
    requires Total(rooms, Slots) == 0
    ensures Total(rooms, SlotsAt(node)) == 0
    decreases |rooms|
  {
    if rooms != [] { NoSlotsAnywhere(rooms[1..], node); }
  }

  /** The first experts are placed while there is room, no node above its room, and every node filled
      when there are more experts than room. */
  ghost predicate DirectOk(experts: seq<string>, capacity: seq<Room>, placed: seq<Assignment>) {
    && |placed| == (if |experts| <= Total(capacity, Slots) then |experts| else Total(capacity, Slots))
    && (forall i :: 0 <= i < |placed| ==> placed[i].expert == experts[i])
    && (forall node :: Total(placed, PlacedAt(node)) <= Total(capacity, SlotsAt(node)))
    && (|experts| >= Total(capacity, Slots) ==> forall node :: Total(placed, PlacedAt(node)) == Total(capacity, SlotsAt(node)))
  }

  lemma PlacedIsDirect(experts: seq<string>, capacity: seq<Room>, rooms: seq<Room>, placed: seq<Assignment>, unplaced: seq<string>)
    requires Placing(experts, capacity, |experts|, rooms, placed, unplaced)
    ensures DirectOk(experts, capacity, placed)
  {
    if |experts| >= Total(capacity, Slots) {
      assert |placed| == Total(capacity, Slots);
      forall node ensures Total(placed, PlacedAt(node)) == Total(capacity, SlotsAt(node)) { NoSlotsAnywhere(rooms, node); }
    }
  }

  /** Each expert goes to the node with the most room; what finds none is left over. */
  method PlaceDirectly(experts: seq<string>, capacity: seq<Room>) returns (placed: seq<Assignment>, unplaced: seq<string>)
    requires capacity != []
    ensures DirectOk(experts, capacity, placed) && unplaced == experts[|placed|..]
    ensures OneEntryEach(capacity) ==> Greedy(capacity, placed)
  {
    var rooms := capacity;
    placed, unplaced := [], [];
    for n := 0 to |experts|
      invariant Placing(experts, capacity, n, rooms, placed, unplaced)
      invariant OneEntryEach(capacity) ==> OneEntryEach(rooms) && Greedy(capacity, placed)
    {
      SortKeepsPlacing(experts, capacity, n, rooms, placed, unplaced);
      SortSorts(rooms);
      if OneEntryEach(rooms) { SortKeepsEntries(rooms); }
      rooms := SortRoom(rooms);
      if rooms[0].slots > 0 {
        PlaceOne(experts, capacity, n, rooms, placed, unplaced);
        if OneEntryEach(rooms) {
          TakeKeepsEntries(rooms);
          if Greedy(capacity, placed) { GreedyMore(experts, capacity, n, rooms, placed, unplaced, experts[n]); }
        }
        placed := placed + [Assignment(experts[n], rooms[0].node)];
        rooms := rooms[0 := rooms[0].(slots := rooms[0].slots - 1)];
      } else {
        NoRoomLeft(rooms);
        PlaceNone(experts, capacity, n, rooms, placed, unplaced);
        unplaced := unplaced + [experts[n]];
      }
    }
    PlacedIsDirect(experts, capacity, rooms, placed, unplaced);
    assert experts[|placed|..|experts|] == experts[|placed|..];
  }

  // ---------------------------------------------------------------- eviction

  /** One expert stored on a node; only a loaded one can be evicted. */
  datatype Stored = Stored(expert: string, loaded: bool)

  /** What the database says about target nodes; a node that cannot be read is missing. */
  type Table = map<int, seq<Stored>>

  /** The surviving active nodes that hold each expert; an expert that cannot be read is missing. */
  type Hosts = map<string, set<int>>

  ghost predicate Consistent(table: Table, hosts: Hosts) {
    forall n, i :: n in table && 0 <= i < |table[n]| && table[n][i].expert in hosts ==> n in hosts[table[n][i].expert]
  }

  function Replicas(counts: map<string, nat>, expert: string): nat {
    if expert in counts then counts[expert] else 0
  }

  predicate Evictable(stored: Stored, node: int, counts: map<string, nat>, evictions: seq<Assignment>) {
    stored.loaded && Replicas(counts, stored.expert) >= 2 && Assignment(stored.expert, node) !in evictions
  }

  /** More replicas first, then the smaller identifier. */
  predicate Before(counts: map<string, nat>, a: string, b: string) {
    Replicas(counts, a) > Replicas(counts, b) || (Replicas(counts, a) == Replicas(counts, b) && StringLe(a, b))
  }

  lemma BeforeOrder(counts: map<string, nat>, a: string, b: string, c: string)
    ensures Before(counts, a, b) || Before(counts, b, a)
    ensures Before(counts, a, b) && Before(counts, b, c) ==> Before(counts, a, c)
  {
    StringOrder();
  }

  /** The candidate of the first `k` stored experts that sorting puts first. */
  function BestVictim(stored: seq<Stored>, k: nat, node: int, counts: map<string, nat>, evictions: seq<Assignment>): (r: Option<nat>)
    requires k <= |stored|
    ensures r.Some? ==> r.value < k && Evictable(stored[r.value], node, counts, evictions)
    ensures r.None? <==> forall i :: 0 <= i < k ==> !Evictable(stored[i], node, counts, evictions)
  {
    if k == 0 then None else
    var best := BestVictim(stored, k - 1, node, counts, evictions);
    if !Evictable(stored[k - 1], node, counts, evictions) then best
    else if best.None? || !Before(counts, stored[best.value].expert, stored[k - 1].expert) then Some(k - 1)
    else best
  }

  lemma {:induction false} BestVictimIsFirst(stored: seq<Stored>, k: nat, node: int, counts: map<string, nat>, evictions: seq<Assignment>)
    requires k <= |stored| && BestVictim(stored, k, node, counts, evictions).Some?
    ensures forall i :: 0 <= i < k && Evictable(stored[i], node, counts, evictions) ==>
                          Before(counts, stored[BestVictim(stored, k, node, counts, evictions).value].expert, stored[i].expert)
  {
    var before, best := BestVictim(stored, k - 1, node, counts, evictions), BestVictim(stored, k, node, counts, evictions).value;
    if before.Some? { BestVictimIsFirst(stored, k - 1, node, counts, evictions); }
    forall i | 0 <= i < k && Evictable(stored[i], node, counts, evictions) ensures Before(counts, stored[best].expert, stored[i].expert) {
      BeforeOrder(counts, stored[best].expert, stored[i].expert, stored[i].expert);
      if best == k - 1 && i < k - 1 {
        BeforeOrder(counts, stored[best].expert, stored[before.value].expert, stored[i].expert);
      }
    }
  }

  predicate NoneEvictable(table: Table, targets: seq<int>, k: nat, counts: map<string, nat>, evictions: seq<Assignment>)
    requires k <= |targets|
  {
    forall t, i :: 0 <= t < k && targets[t] in table && 0 <= i < |table[targets[t]]| ==>
                     !Evictable(table[targets[t]][i], targets[t], counts, evictions)
  }

  /** `a` is entry `i` of target node `t` and may go. */
  ghost predicate IsVictim(table: Table, targets: seq<int>, counts: map<string, nat>, evictions: seq<Assignment>, a: Assignment, t: nat, i: nat) {
    && t < |targets| && targets[t] in table && i < |table[targets[t]]|
    && a == Assignment(table[targets[t]][i].expert, targets[t]) && Evictable(table[targets[t]][i], targets[t], counts, evictions)
  }

  /** The first target node that has a candidate gives up its best one. */
  method FindVictim(table: Table, targets: seq<int>, counts: map<string, nat>, evictions: seq<Assignment>) returns (r: Option<Assignment>)
    ensures r.None? <==> NoneEvictable(table, targets, |targets|, counts, evictions)
    ensures r.Some? ==> exists t, i :: IsVictim(table, targets, counts, evictions, r.value, t, i) && NoneEvictable(table, targets, t, counts, evictions)
    ensures r.Some? ==> forall i :: 0 <= i < |table[r.value.node]| && Evictable(table[r.value.node][i], r.value.node, counts, evictions) ==>
                                      Before(counts, r.value.expert, table[r.value.node][i].expert)
  {
    for t := 0 to |targets|
      invariant NoneEvictable(table, targets, t, counts, evictions)
    {
      if targets[t] in table {
        var stored := table[targets[t]];
        var best := BestVictim(stored, |stored|, targets[t], counts, evictions);
        if best.Some? {
          BestVictimIsFirst(stored, |stored|, targets[t], counts, evictions);
          assert IsVictim(table, targets, counts, evictions, Assignment(stored[best.value].expert, targets[t]), t, best.value);
          return Some(Assignment(stored[best.value].expert, targets[t]));
        }
      }
    }
    return None;
  }

  ghost function EvictedFrom(evictions: seq<Assignment>, expert: string): set<int> {
    set i | 0 <= i < |evictions| && evictions[i].expert == expert :: evictions[i].node
  }

  /** Counts are what is left of the hosts, and no host set has been emptied. */
  ghost predicate CountsOk(hosts: Hosts, counts: map<string, nat>, evictions: seq<Assignment>) {
    forall e :: EvictedCount(hosts, counts, evictions, e)
  }

  ghost predicate EvictedCount(hosts: Hosts, counts: map<string, nat>, evictions: seq<Assignment>, e: string) {
    if e in counts then
      && e in hosts && EvictedFrom(evictions, e) <= hosts[e]
      && counts[e] == |hosts[e] - EvictedFrom(evictions, e)| && (hosts[e] != {} ==> counts[e] >= 1)
    else EvictedFrom(evictions, e) == {}
  }

  lemma EvictedMore(evictions: seq<Assignment>, a: Assignment, e: string)
    ensures EvictedFrom(evictions + [a], e) == EvictedFrom(evictions, e) + if a.expert == e then {a.node} else {}
  {
    var more := evictions + [a];
    forall n | n in EvictedFrom(evictions, e) ensures n in EvictedFrom(more, e) {
      var i :| 0 <= i < |evictions| && evictions[i].expert == e && evictions[i].node == n;
      assert more[i] == evictions[i];
    }
    if a.expert == e { assert more[|evictions|] == a; }
  }

  lemma NotYetEvicted(evictions: seq<Assignment>, a: Assignment)
    requires a !in evictions
    ensures a.node !in EvictedFrom(evictions, a.expert)
  {
  }

  /** Evicting a replica of an expert that has two leaves it at least one. */
  lemma EvictOne(hosts: Hosts, counts: map<string, nat>, evictions: seq<Assignment>, a: Assignment)
    requires CountsOk(hosts, counts, evictions) && Replicas(counts, a.expert) >= 2 && a !in evictions
    requires a.expert in hosts && a.node in hosts[a.expert]
    ensures CountsOk(hosts, counts[a.expert := counts[a.expert] - 1], evictions + [a])
  {
    var next, more := counts[a.expert := counts[a.expert] - 1], evictions + [a];
    forall e ensures EvictedCount(hosts, next, more, e) {
      assert EvictedCount(hosts, counts, evictions, e);
      EvictedMore(evictions, a, e);
      if e == a.expert {
        NotYetEvicted(evictions, a);
        assert hosts[e] - EvictedFrom(more, e) == hosts[e] - EvictedFrom(evictions, e) - {a.node};
      }
    }
  }

  /** The last surviving replica of an expert is never evicted. */
  lemma NoneLost(hosts: Hosts, counts: map<string, nat>, evictions: seq<Assignment>, e: string)
    requires CountsOk(hosts, counts, evictions) && e in hosts && hosts[e] != {}
    ensures hosts[e] - EvictedFrom(evictions, e) != {}
  {
    assert EvictedCount(hosts, counts, evictions, e);
  }

  /** After `n` experts: the placed ones are a prefix, each in the place of one victim. */
  ghost predicate Swapping(unplaced: seq<string>, targets: seq<int>, n: nat, evictions: seq<Assignment>, placements: seq<Assignment>, still: seq<string>) {
    && |placements| == |evictions| <= n <= |unplaced| && still == unplaced[|placements|..n]
    && (forall i :: 0 <= i < |placements| ==>
          placements[i].expert == unplaced[i] && placements[i].node == evictions[i].node && placements[i].node in targets)
    && (forall i, j :: 0 <= i < j < |evictions| ==> evictions[i] != evictions[j])
  }

  ghost predicate AllCounted(table: Table, targets: seq<int>, hosts: Hosts, counts: map<string, nat>) {
    forall t, i :: 0 <= t < |targets| && targets[t] in table && 0 <= i < |table[targets[t]]| && table[targets[t]][i].expert in hosts ==>
                     table[targets[t]][i].expert in counts
  }

  /** Every loaded expert still on a readable target has at most one surviving replica left. */
  ghost predicate NothingToEvict(table: Table, targets: seq<int>, hosts: Hosts, evictions: seq<Assignment>) {
    forall t, i :: 0 <= t < |targets| && targets[t] in table && 0 <= i < |table[targets[t]]| ==>
                     OnlyOneLeft(table[targets[t]][i], targets[t], hosts, evictions)
  }

  ghost predicate OnlyOneLeft(stored: Stored, node: int, hosts: Hosts, evictions: seq<Assignment>) {
    stored.loaded && stored.expert in hosts && Assignment(stored.expert, node) !in evictions ==>
      |hosts[stored.expert] - EvictedFrom(evictions, stored.expert)| <= 1
  }

  lemma UsedUp(table: Table, targets: seq<int>, hosts: Hosts, counts: map<string, nat>, evictions: seq<Assignment>)
    requires CountsOk(hosts, counts, evictions) && AllCounted(table, targets, hosts, counts)
    requires NoneEvictable(table, targets, |targets|, counts, evictions)
    ensures NothingToEvict(table, targets, hosts, evictions)
  {
    forall t, i | 0 <= t < |targets| && targets[t] in table && 0 <= i < |table[targets[t]]|
      ensures OnlyOneLeft(table[targets[t]][i], targets[t], hosts, evictions)
    {
      var stored := table[targets[t]][i];
      assert EvictedCount(hosts, counts, evictions, stored.expert);
      assert !Evictable(stored, targets[t], counts, evictions);
    }
  }

  /** Replica counts of every expert on a readable target node. */
  method CountReplicas(table: Table, targets: seq<int>, hosts: Hosts) returns (counts: map<string, nat>)
    ensures CountsOk(hosts, counts, []) && AllCounted(table, targets, hosts, counts)
  {
    counts := map[];
    for t := 0 to |targets|
      invariant forall e :: e in counts ==> e in hosts && counts[e] == |hosts[e]|
      invariant forall u, i :: 0 <= u < t && targets[u] in table && 0 <= i < |table[targets[u]]| && table[targets[u]][i].expert in hosts ==>
                                 table[targets[u]][i].expert in counts
    {
      if targets[t] in table {
        var stored := table[targets[t]];
        for i := 0 to |stored|
          invariant forall e :: e in counts ==> e in hosts && counts[e] == |hosts[e]|
          invariant forall u, i :: 0 <= u < t && targets[u] in table && 0 <= i < |table[targets[u]]| && table[targets[u]][i].expert in hosts ==>
                                     table[targets[u]][i].expert in counts
          invariant forall j :: 0 <= j < i && stored[j].expert in hosts ==> stored[j].expert in counts
        {
          var e := stored[i].expert;
          if e !in counts && e in hosts { counts := counts[e := |hosts[e]|]; }
        }
      }
    }
    forall e ensures EvictedCount(hosts, counts, [], e) {
      if e in counts {
        assert hosts[e] - EvictedFrom([], e) == hosts[e];
      }
    }
  }

  /** Make room for each expert by evicting a replica that others still hold. */
  method EvictAndPlace(unplaced: seq<string>, targets: seq<int>, table: Table, hosts: Hosts)
    returns (evictions: seq<Assignment>, placements: seq<Assignment>, still: seq<string>)
    requires Consistent(table, hosts)
    ensures Swapping(unplaced, targets, |unplaced|, evictions, placements, still)
    ensures forall e :: e in hosts && hosts[e] != {} ==> hosts[e] - EvictedFrom(evictions, e) != {}
    ensures still != [] ==> NothingToEvict(table, targets, hosts, evictions)
  {
    var left := CountReplicas(table, targets, hosts);
    evictions, placements, still := [], [], [];
    for n := 0 to |unplaced|
      invariant Swapping(unplaced, targets, n, evictions, placements, still)
      invariant CountsOk(hosts, left, evictions) && AllCounted(table, targets, hosts, left)
      invariant still != [] ==> NoneEvictable(table, targets, |targets|, left, evictions)
    {
      var victim := FindVictim(table, targets, left, evictions);
      match victim {
        case Some(a) =>
          VictimHasHost(table, targets, hosts, left, evictions, a);
          EvictOne(hosts, left, evictions, a);
          SwapOne(unplaced, targets, n, evictions, placements, still, a);
          left := left[a.expert := left[a.expert] - 1];
          evictions := evictions + [a];
          placements := placements + [Assignment(unplaced[n], a.node)];
        case None =>
          assert unplaced[|placements|..n + 1] == unplaced[|placements|..n] + [unplaced[n]];
          still := still + [unplaced[n]];
      }
    }
    if still != [] { UsedUp(table, targets, hosts, left, evictions); }
    forall e | e in hosts && hosts[e] != {} ensures hosts[e] - EvictedFrom(evictions, e) != {} { NoneLost(hosts, left, evictions, e); }
  }

  lemma VictimHasHost(table: Table, targets: seq<int>, hosts: Hosts, counts: map<string, nat>, evictions: seq<Assignment>, a: Assignment)
    requires Consistent(table, hosts) && CountsOk(hosts, counts, evictions)
    requires exists t, i :: IsVictim(table, targets, counts, evictions, a, t, i)
    ensures a.expert in counts && a.expert in hosts && a.node in hosts[a.expert] && Replicas(counts, a.expert) >= 2
    ensures a !in evictions && a.node in targets
  {
    assert EvictedCount(hosts, counts, evictions, a.expert);
  }

  lemma SwapOne(unplaced: seq<string>, targets: seq<int>, n: nat, evictions: seq<Assignment>, placements: seq<Assignment>, still: seq<string>, a: Assignment)
    requires Swapping(unplaced, targets, n, evictions, placements, still) && n < |unplaced| && still == []
    requires a !in evictions && a.node in targets
    ensures Swapping(unplaced, targets, n + 1, evictions + [a], placements + [Assignment(unplaced[n], a.node)], still)
  {
    assert |placements| == n;
  }

  // ---------------------------------------------------------------- the whole recovery

  datatype TargetNode = TargetNode(id: int, capacity: nat)

  /** Free slots never go below zero, even on an overfull node. */
  function FreeSlots(capacity: nat, occupied: nat): nat { if capacity >= occupied then capacity - occupied else 0 }

  function HeldAt(held: Table, node: int): nat { if node in held then |held[node]| else 0 }

  /** The occupancy the planner sees: a node it cannot read counts as empty. */
  function Seen(held: Table, counted: set<int>, node: int): nat { if node in counted then HeldAt(held, node) else 0 }

  function RoomsOf(nodes: seq<TargetNode>, held: Table, counted: set<int>): (rooms: seq<Room>)
    ensures |rooms| == |nodes|
    ensures forall i :: 0 <= i < |nodes| ==> rooms[i] == Room(nodes[i].id, FreeSlots(nodes[i].capacity, Seen(held, counted, nodes[i].id)))
  {
    seq(|nodes|, i requires 0 <= i < |nodes| => Room(nodes[i].id, FreeSlots(nodes[i].capacity, Seen(held, counted, nodes[i].id))))
  }

  /** What the eviction phase can list. */
  function Readable(held: Table, listed: set<int>): Table { map n | n in held && n in listed :: held[n] }

  function NodeIds(nodes: seq<TargetNode>): (ids: seq<int>)
    ensures |ids| == |nodes| && forall i :: 0 <= i < |nodes| ==> ids[i] == nodes[i].id
  {
    seq(|nodes|, i requires 0 <= i < |nodes| => nodes[i].id)
  }

  lemma {:induction false} RoomOfOther(rooms: seq<Room>, node: int)
    requires forall i :: 0 <= i < |rooms| ==> rooms[i].node != node
    ensures Total(rooms, SlotsAt(node)) == 0
    decreases |rooms|
  {
    if rooms != [] { RoomOfOther(rooms[1..], node); }
  }

  /** With distinct nodes, the room of a node is its own entry. */
  lemma {:induction false} RoomOfNode(rooms: seq<Room>, i: nat)
    requires i < |rooms| && forall j, k :: 0 <= j < k < |rooms| ==> rooms[j].node != rooms[k].node
    ensures Total(rooms, SlotsAt(rooms[i].node)) == rooms[i].slots
    decreases |rooms|
  {
    if i == 0 {
      RoomOfOther(rooms[1..], rooms[0].node);
    } else {
      RoomOfNode(rooms[1..], i - 1);
    }
  }

  lemma {:induction false} SwapsBalance(evictions: seq<Assignment>, placements: seq<Assignment>, node: int)
    requires |evictions| == |placements| && forall i :: 0 <= i < |evictions| ==> evictions[i].node == placements[i].node
    ensures Total(evictions, PlacedAt(node)) == Total(placements, PlacedAt(node))
    decreases |evictions|
  {
    if evictions != [] { SwapsBalance(evictions[1..], placements[1..], node); }
  }

  /** What node `id` holds in the end. */
  ghost function EndsWith(held: Table, id: int, direct: seq<Assignment>, evictions: seq<Assignment>, placements: seq<Assignment>): int {
    HeldAt(held, id) + Total(direct, PlacedAt(id)) + Total(placements, PlacedAt(id)) - Total(evictions, PlacedAt(id))
  }

  function Larger(a: nat, b: nat): nat { if a >= b then a else b }

  /** A node whose occupancy was read never ends above the larger of what it held and what it can
      hold; one that could not be read, never above the sum. */
  ghost predicate WithinBounds(nodes: seq<TargetNode>, held: Table, counted: set<int>, direct: seq<Assignment>, evictions: seq<Assignment>, placements: seq<Assignment>) {
    forall i :: 0 <= i < |nodes| ==>
                  var id, cap := nodes[i].id, nodes[i].capacity;
                  EndsWith(held, id, direct, evictions, placements)
                  <= if id in counted then Larger(HeldAt(held, id), cap) else HeldAt(held, id) + cap
  }

  /** With at least as many experts as the planner sees room, a node stays within the larger of what
      it held and what it can hold exactly when it was read, was empty, or can hold nothing. */
  ghost predicate OverfullExactly(nodes: seq<TargetNode>, held: Table, counted: set<int>, direct: seq<Assignment>, evictions: seq<Assignment>, placements: seq<Assignment>) {
    forall i :: 0 <= i < |nodes| ==>
                  var id, cap := nodes[i].id, nodes[i].capacity;
                  EndsWith(held, id, direct, evictions, placements) <= Larger(HeldAt(held, id), cap)
                  <==> id in counted || HeldAt(held, id) == 0 || cap == 0
  }

  ghost predicate DistinctNodes(nodes: seq<TargetNode>) {
    forall i, j :: 0 <= i < j < |nodes| ==> nodes[i].id != nodes[j].id
  }

  ghost predicate SamePlaces(evictions: seq<Assignment>, placements: seq<Assignment>) {
    |evictions| == |placements| && forall i :: 0 <= i < |evictions| ==> evictions[i].node == placements[i].node
  }

  /** What each node gets directly is its own room at most, and all of it when experts abound. */
  lemma NodeGets(experts: seq<string>, nodes: seq<TargetNode>, held: Table, counted: set<int>, direct: seq<Assignment>,
                 evictions: seq<Assignment>, placements: seq<Assignment>, i: nat)
    requires i < |nodes| && DistinctNodes(nodes) && DirectOk(experts, RoomsOf(nodes, held, counted), direct) && SamePlaces(evictions, placements)
    ensures var id := nodes[i].id;
            var room := FreeSlots(nodes[i].capacity, Seen(held, counted, id));
            && HeldAt(held, id) <= EndsWith(held, id, direct, evictions, placements) <= HeldAt(held, id) + room
            && (|experts| >= Total(RoomsOf(nodes, held, counted), Slots) ==>
                  EndsWith(held, id, direct, evictions, placements) == HeldAt(held, id) + room)
  {
    var rooms := RoomsOf(nodes, held, counted);
    RoomOfNode(rooms, i);
    assert rooms[i].node == nodes[i].id;
    SwapsBalance(evictions, placements, nodes[i].id);
  }

  lemma BoundsHold(experts: seq<string>, nodes: seq<TargetNode>, held: Table, counted: set<int>, direct: seq<Assignment>,
                   evictions: seq<Assignment>, placements: seq<Assignment>)
    requires DistinctNodes(nodes) && DirectOk(experts, RoomsOf(nodes, held, counted), direct) && SamePlaces(evictions, placements)
    ensures WithinBounds(nodes, held, counted, direct, evictions, placements)
    ensures |experts| >= Total(RoomsOf(nodes, held, counted), Slots) ==> OverfullExactly(nodes, held, counted, direct, evictions, placements)
  {
    forall i | 0 <= i < |nodes|
      ensures var id := nodes[i].id;
              var room := FreeSlots(nodes[i].capacity, Seen(held, counted, id));
              && EndsWith(held, id, direct, evictions, placements) <= HeldAt(held, id) + room
              && (|experts| >= Total(RoomsOf(nodes, held, counted), Slots) ==>
                    EndsWith(held, id, direct, evictions, placements) == HeldAt(held, id) + room)
    {
      NodeGets(experts, nodes, held, counted, direct, evictions, placements, i);
    }
  }

  /** A full node of four slots that cannot be read is given four more experts. */
  lemma UnreadableOverfills(node: int, stored: seq<Stored>, experts: seq<string>, direct: seq<Assignment>)
    requires |stored| == 4 && |experts| == 4
    requires DirectOk(experts, RoomsOf([TargetNode(node, 4)], map[node := stored], {}), direct)
    ensures EndsWith(map[node := stored], node, direct, [], []) == 8
  {
    var nodes, held := [TargetNode(node, 4)], map[node := stored];
    var rooms := RoomsOf(nodes, held, {});
    assert rooms == [Room(node, 4)];
    TotalOne(Room(node, 4), Slots);
    NodeGets(experts, nodes, held, {}, direct, [], [], 0);
  }

  /** The lost experts split, in order, into directly placed, placed by eviction, and still unplaced. */
  ghost predicate SplitsInto(experts: seq<string>, direct: seq<Assignment>, placements: seq<Assignment>, still: seq<string>) {
    && |direct| + |placements| + |still| == |experts|
    && (forall i :: 0 <= i < |direct| ==> direct[i].expert == experts[i])
    && (forall i :: 0 <= i < |placements| ==> placements[i].expert == experts[|direct| + i])
    && still == experts[|direct| + |placements|..]
  }

  /** `held` is what the target nodes hold; the reads behind the free slots succeed for `counted`,
      those of the eviction phase for `listed`. */
  method RecoverUniqueExperts(experts: seq<string>, nodes: seq<TargetNode>, held: Table, counted: set<int>, listed: set<int>, hosts: Hosts)
    returns (direct: seq<Assignment>, evictions: seq<Assignment>, placements: seq<Assignment>, still: seq<string>)
    requires nodes != [] && Consistent(Readable(held, listed), hosts) && DistinctNodes(nodes)
    ensures SplitsInto(experts, direct, placements, still)
    ensures DirectOk(experts, RoomsOf(nodes, held, counted), direct) && Greedy(RoomsOf(nodes, held, counted), direct)
    ensures WithinBounds(nodes, held, counted, direct, evictions, placements)
    ensures |experts| >= Total(RoomsOf(nodes, held, counted), Slots) ==> OverfullExactly(nodes, held, counted, direct, evictions, placements)
    ensures forall e :: e in hosts && hosts[e] != {} ==> hosts[e] - EvictedFrom(evictions, e) != {}
    ensures still != [] ==> NothingToEvict(Readable(held, listed), NodeIds(nodes), hosts, evictions)
  {
    var unplaced;
    var rooms := RoomsOf(nodes, held, counted);
    forall node ensures Total(rooms, EntriesAt(node)) <= 1 { DistinctHaveOneEntry(rooms, node); }
    direct, unplaced := PlaceDirectly(experts, rooms);
    evictions, placements, still := EvictAndPlace(unplaced, NodeIds(nodes), Readable(held, listed), hosts);
    BoundsHold(experts, nodes, held, counted, direct, evictions, placements);
  }
}
