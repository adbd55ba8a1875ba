/** Byte-bounded least-recently-used cache of parsed CPU expert weights. */
module DramCacheModel {
  import opened Sums
  import opened Topology

  /** One cached weight; `refs` counts the leases that keep it. */
  datatype Entry = Entry(key: ExpertKey, bytes: nat, refs: nat)

  /** A lease or reservation object that is still open. */
  datatype Lease = Lease(id: nat, key: ExpertKey)

  datatype Reservation = Reservation(id: nat, bytes: nat)

  // ---------------------------------------------------------------- sums and positions

  function EntryBytes(e: Entry): nat { e.bytes }

  function ReservedBytes(r: Reservation): nat { r.bytes }

  function HoldsKey(key: ExpertKey): Lease -> nat { (l: Lease) => if l.key == key then 1 else 0 }

  function Used(entries: seq<Entry>): nat { Total(entries, EntryBytes) }

  function Reserved(reservations: seq<Reservation>): nat { Total(reservations, ReservedBytes) }

  /** How many open leases hold `key`. */
  function Holders(leases: seq<Lease>, key: ExpertKey): nat { Total(leases, HoldsKey(key)) }

  function FindKey(entries: seq<Entry>, key: ExpertKey): (r: Option<nat>)
    ensures r.Some? ==> r.value < |entries| && entries[r.value].key == key
    ensures r.None? <==> forall i :: 0 <= i < |entries| ==> entries[i].key != key
  {
    if entries == [] then None
    else if entries[0].key == key then Some(0)
    else
      var rest := FindKey(entries[1..], key);
      if rest.None? then None else Some(rest.value + 1)
  }

  function FindLease(leases: seq<Lease>, id: nat): (r: Option<nat>)
    ensures r.Some? ==> r.value < |leases| && leases[r.value].id == id
    ensures r.None? <==> forall i :: 0 <= i < |leases| ==> leases[i].id != id
  {
    if leases == [] then None
    else if leases[0].id == id then Some(0)
    else
      var rest := FindLease(leases[1..], id);
      if rest.None? then None else Some(rest.value + 1)
  }

  function FindReservation(reservations: seq<Reservation>, id: nat): (r: Option<nat>)
    ensures r.Some? ==> r.value < |reservations| && reservations[r.value].id == id
    ensures r.None? <==> forall i :: 0 <= i < |reservations| ==> reservations[i].id != id
  {
    if reservations == [] then None
    else if reservations[0].id == id then Some(0)
    else
      var rest := FindReservation(reservations[1..], id);
      if rest.None? then None else Some(rest.value + 1)
  }

  // ---------------------------------------------------------------- eviction

  /** The oldest entry that no lease holds. */
  function FirstIdle(entries: seq<Entry>): (r: Option<nat>)
    ensures r.Some? ==> r.value < |entries| && entries[r.value].refs == 0
  {
    if entries == [] then None
    else if entries[0].refs == 0 then Some(0)
    else
      var rest := FirstIdle(entries[1..]);
      if rest.None? then None else Some(rest.value + 1)
  }

  /** The entries no lease holds, oldest first. */
  function Idle(entries: seq<Entry>): seq<Entry> {
    if entries == [] then []
    else (if entries[0].refs == 0 then [entries[0]] else []) + Idle(entries[1..])
  }

  /** Without the `k` oldest idle entries. */
  function DropIdle(entries: seq<Entry>, k: nat): seq<Entry> {
    if k == 0 || entries == [] then entries
    else if entries[0].refs == 0 then DropIdle(entries[1..], k - 1)
    else [entries[0]] + DropIdle(entries[1..], k)
  }

  /** Drop idle entries from the oldest on until `needed` bytes are free or none is left. */
  function Evict(entries: seq<Entry>, free: nat, needed: nat): seq<Entry>
    decreases |entries|
  {
    var victim := FirstIdle(entries);
    if free >= needed || victim.None? then entries
    else Evict(Cut(entries, victim.value), free + entries[victim.value].bytes, needed)
  }

  lemma {:induction false} IdleFirst(entries: seq<Entry>)
    requires FirstIdle(entries).Some?
    ensures var i := FirstIdle(entries).value;
            Idle(entries) != [] && Idle(entries)[0] == entries[i] && Idle(entries)[1..] == Idle(Cut(entries, i))
    decreases |entries|
  {
    if entries[0].refs == 0 {
      assert Cut(entries, 0) == entries[1..];
    } else {
      IdleFirst(entries[1..]);
      var i := FirstIdle(entries).value;
      assert Cut(entries, i)[1..] == Cut(entries[1..], i - 1);
      assert Cut(entries, i)[0] == entries[0];
    }
  }

  lemma {:induction false} NoneIdle(entries: seq<Entry>)
    requires FirstIdle(entries).None?
    ensures Idle(entries) == []
    decreases |entries|
  {
    if entries != [] { NoneIdle(entries[1..]); }
  }

  lemma {:induction false} DropFirst(entries: seq<Entry>, k: nat)
    requires FirstIdle(entries).Some? && k > 0
    ensures DropIdle(entries, k) == DropIdle(Cut(entries, FirstIdle(entries).value), k - 1)
    decreases |entries|
  {
    var i := FirstIdle(entries).value;
    if entries[0].refs == 0 {
      assert Cut(entries, 0) == entries[1..];
    } else {
      DropFirst(entries[1..], k);
      var cut := Cut(entries, i);
      assert cut[1..] == Cut(entries[1..], i - 1) && cut[0] == entries[0];
      if k == 1 { assert [cut[0]] + cut[1..] == cut; }
    }
  }

  /** Eviction takes the shortest sufficient prefix of the idle entries in LRU order, or all of them. */
  lemma {:induction false} EvictIsShortest(entries: seq<Entry>, free: nat, needed: nat) returns (k: nat)
    ensures k <= |Idle(entries)| && Evict(entries, free, needed) == DropIdle(entries, k)
    ensures k > 0 ==> free + Used(Idle(entries)[..k - 1]) < needed
    ensures k < |Idle(entries)| ==> free + Used(Idle(entries)[..k]) >= needed
    decreases |entries|
  {
    var victim := FirstIdle(entries);
    if free >= needed {
      k := 0;
    } else if victim.None? {
      NoneIdle(entries);
      k := 0;
    } else {
      var idle, rest := Idle(entries), Cut(entries, victim.value);
      IdleFirst(entries);
      var j := EvictIsShortest(rest, free + entries[victim.value].bytes, needed);
      k := j + 1;
      DropFirst(entries, k);
      PrefixUsed(idle, j);
      if j > 0 { PrefixUsed(idle, j - 1); }
    }
  }

  lemma PrefixUsed(idle: seq<Entry>, j: nat)
    requires idle != [] && j < |idle|
    ensures Used(idle[..j + 1]) == idle[0].bytes + Used(idle[1..][..j])
  {
    assert idle[..j + 1][1..] == idle[1..][..j];
  }

  /** Leased entries survive, and nothing is added. */
  lemma {:induction false} EvictKeeps(entries: seq<Entry>, free: nat, needed: nat, e: Entry)
    ensures e in Evict(entries, free, needed) ==> e in entries
    ensures e in entries && e.refs > 0 ==> e in Evict(entries, free, needed)
    decreases |entries|
  {
    var victim := FirstIdle(entries);
    if free < needed && victim.Some? {
      CutMembers(entries, victim.value);
      EvictKeeps(Cut(entries, victim.value), free + entries[victim.value].bytes, needed, e);
    }
  }

  ghost predicate UniqueKeys(entries: seq<Entry>) {
    forall i, j :: 0 <= i < j < |entries| ==> entries[i].key != entries[j].key
  }

  lemma CutDistinct(entries: seq<Entry>, i: nat)
    requires i < |entries| && UniqueKeys(entries)
    ensures UniqueKeys(Cut(entries, i)) && forall e :: e in Cut(entries, i) ==> e.key != entries[i].key
  {
  }

  lemma {:induction false} EvictDistinct(entries: seq<Entry>, free: nat, needed: nat)
    requires UniqueKeys(entries)
    ensures UniqueKeys(Evict(entries, free, needed))
    decreases |entries|
  {
    var victim := FirstIdle(entries);
    if free < needed && victim.Some? {
      CutDistinct(entries, victim.value);
      EvictDistinct(Cut(entries, victim.value), free + entries[victim.value].bytes, needed);
    }
  }

  // ---------------------------------------------------------------- the cache object

  datatype CommitError = BadSize | TooLarge | KeyPresent | ReservationFinished

  ghost predicate Has(entries: seq<Entry>, key: ExpertKey) {
    exists e :: e in entries && e.key == key
  }

  /** Every entry counts its leases, and every leased key has an entry. */
  ghost predicate LeasesOk(entries: seq<Entry>, leases: seq<Lease>) {
    && (forall e :: e in entries ==> e.refs == Holders(leases, e.key))
    && (forall key :: Holders(leases, key) > 0 ==> Has(entries, key))
  }

  lemma MoreHolders(leases: seq<Lease>, lease: Lease, key: ExpertKey)
    ensures Holders(leases + [lease], key) == Holders(leases, key) + if lease.key == key then 1 else 0
  {
    TotalAdds(leases, [lease], HoldsKey(key));
    TotalOne(lease, HoldsKey(key));
  }

  lemma AcquireOk(entries: seq<Entry>, leases: seq<Lease>, i: nat, id: nat)
    requires i < |entries| && UniqueKeys(entries) && LeasesOk(entries, leases)
    ensures var e := entries[i];
            var after := Cut(entries, i) + [e.(refs := e.refs + 1)];
            UniqueKeys(after) && LeasesOk(after, leases + [Lease(id, e.key)]) && Used(after) == Used(entries)
  {
    var e := entries[i];
    var taken := e.(refs := e.refs + 1);
    var after, more := Cut(entries, i) + [taken], leases + [Lease(id, e.key)];
    CutDistinct(entries, i);
    CutMembers(entries, i);
    forall x | x in after ensures x.refs == Holders(more, x.key) { MoreHolders(leases, Lease(id, e.key), x.key); }
    assert taken in after;
    forall key | Holders(more, key) > 0 ensures Has(after, key) {
      MoreHolders(leases, Lease(id, e.key), key);
      if key != e.key {
        var x :| x in entries && x.key == key;
        assert x in after;
      }
    }
    TotalCut(entries, i, EntryBytes);
    TotalAdds(Cut(entries, i), [taken], EntryBytes);
    TotalOne(taken, EntryBytes);
  }

  lemma CloseOk(entries: seq<Entry>, leases: seq<Lease>, i: nat, j: nat)
    requires i < |entries| && j < |leases| && leases[j].key == entries[i].key
    requires UniqueKeys(entries) && LeasesOk(entries, leases)
    ensures entries[i].refs > 0
    ensures var after := entries[i := entries[i].(refs := entries[i].refs - 1)];
            UniqueKeys(after) && LeasesOk(after, Cut(leases, j)) && Used(after) == Used(entries)
  {
    HoldersCut(leases, j, entries[i].key);
    assert entries[i] in entries;
    var e := entries[i].(refs := entries[i].refs - 1);
    var after, fewer := entries[i := e], Cut(leases, j);
    forall x | x in after ensures x.refs == Holders(fewer, x.key) {
      HoldersCut(leases, j, x.key);
      var k :| 0 <= k < |after| && after[k] == x;
      assert k != i ==> x == entries[k] && x in entries;
    }
    assert after[i] in after;
    forall key | Holders(fewer, key) > 0 ensures Has(after, key) {
      HoldersCut(leases, j, key);
      var x :| x in entries && x.key == key;
      var k :| 0 <= k < |entries| && entries[k] == x;
      assert after[k] in after && after[k].key == key;
    }
    TotalCut(entries, i, EntryBytes);
    TotalCut(after, i, EntryBytes);
    assert Cut(after, i) == Cut(entries, i);
  }

  lemma HoldersCut(leases: seq<Lease>, j: nat, key: ExpertKey)
    requires j < |leases|
    ensures Holders(leases, key) == Holders(Cut(leases, j), key) + if leases[j].key == key then 1 else 0
  {
    TotalCut(leases, j, HoldsKey(key));
  }

  lemma CommitOk(entries: seq<Entry>, leases: seq<Lease>, key: ExpertKey, bytes: nat, id: nat)
    requires FindKey(entries, key).None? && UniqueKeys(entries) && LeasesOk(entries, leases)
    ensures var after := entries + [Entry(key, bytes, 1)];
            UniqueKeys(after) && LeasesOk(after, leases + [Lease(id, key)]) && Used(after) == Used(entries) + bytes
  {
    var e, lease := Entry(key, bytes, 1), Lease(id, key);
    var after, more := entries + [e], leases + [lease];
    assert !Has(entries, key);
    assert e in after;
    forall x | x in after ensures x.refs == Holders(more, x.key) { MoreHolders(leases, lease, x.key); }
    forall k | Holders(more, k) > 0 ensures Has(after, k) {
      MoreHolders(leases, lease, k);
      if k != key {
        var x :| x in entries && x.key == k;
        assert x in after;
      }
    }
    TotalAdds(entries, [e], EntryBytes);
    TotalOne(e, EntryBytes);
  }

  /** Dropping entries that no lease holds keeps the leases whole. */
  lemma DropOk(entries: seq<Entry>, after: seq<Entry>, leases: seq<Lease>)
    requires LeasesOk(entries, leases) && (forall e :: e in after ==> e in entries)
    requires forall e :: e in entries && e.refs > 0 ==> e in after
    ensures LeasesOk(after, leases)
  {
    forall key | Holders(leases, key) > 0 ensures Has(after, key) {
      var e :| e in entries && e.key == key;
      assert e in after;
    }
  }

  lemma EvictOk(entries: seq<Entry>, leases: seq<Lease>, free: nat, needed: nat) returns (kept: seq<Entry>)
    requires UniqueKeys(entries) && LeasesOk(entries, leases)
    ensures kept == Evict(entries, free, needed) && UniqueKeys(kept) && LeasesOk(kept, leases)
  {
    kept := Evict(entries, free, needed);
    forall e ensures e in kept ==> e in entries ensures e in entries && e.refs > 0 ==> e in kept {
      EvictKeeps(entries, free, needed, e);
    }
    EvictDistinct(entries, free, needed);
    DropOk(entries, kept, leases);
  }

  /** Open handles have distinct numbers, all given out before. */
  ghost predicate HandlesOk(leases: seq<Lease>, reservations: seq<Reservation>, next: nat) {
    && (forall i :: 0 <= i < |leases| ==> leases[i].id < next)
    && (forall i :: 0 <= i < |reservations| ==> reservations[i].id < next)
    && (forall i, j :: 0 <= i < j < |leases| ==> leases[i].id != leases[j].id)
    && (forall i, j :: 0 <= i < j < |reservations| ==> reservations[i].id != reservations[j].id)
    && (forall i, j :: 0 <= i < |leases| && 0 <= j < |reservations| ==> leases[i].id != reservations[j].id)
  }

  /** Keys and handles are unique, and reference counts are counts of open leases. */
  ghost predicate Consistent(entries: seq<Entry>, leases: seq<Lease>, reservations: seq<Reservation>, next: nat) {
    UniqueKeys(entries) && LeasesOk(entries, leases) && HandlesOk(leases, reservations, next)
  }

  predicate IsOpen(leases: seq<Lease>, reservations: seq<Reservation>, id: nat) {
    FindLease(leases, id).Some? || FindReservation(reservations, id).Some?
  }

  /** A closed lease is gone, and closing opens nothing. */
  lemma CutLeaseHandles(leases: seq<Lease>, reservations: seq<Reservation>, next: nat, j: nat)
    requires HandlesOk(leases, reservations, next) && j < |leases|
    ensures HandlesOk(Cut(leases, j), reservations, next) && !IsOpen(Cut(leases, j), reservations, leases[j].id)
    ensures forall id :: IsOpen(Cut(leases, j), reservations, id) ==> IsOpen(leases, reservations, id)
  {
    var fewer := Cut(leases, j);
    assert forall i :: 0 <= i < |fewer| ==> fewer[i] == leases[if i < j then i else i + 1];
  }

  lemma CutReservationHandles(leases: seq<Lease>, reservations: seq<Reservation>, next: nat, k: nat)
    requires HandlesOk(leases, reservations, next) && k < |reservations|
    ensures HandlesOk(leases, Cut(reservations, k), next) && !IsOpen(leases, Cut(reservations, k), reservations[k].id)
    ensures forall id :: IsOpen(leases, Cut(reservations, k), id) ==> IsOpen(leases, reservations, id)
  {
    var fewer := Cut(reservations, k);
    assert forall i :: 0 <= i < |fewer| ==> fewer[i] == reservations[if i < k then i else i + 1];
  }

  lemma ReturnOk(reservations: seq<Reservation>, k: nat)
    requires k < |reservations|
    ensures Reserved(reservations) == Reserved(Cut(reservations, k)) + reservations[k].bytes
  {
    TotalCut(reservations, k, ReservedBytes);
  }

  lemma NewLeaseHandle(leases: seq<Lease>, reservations: seq<Reservation>, next: nat, key: ExpertKey)
    requires HandlesOk(leases, reservations, next)
    ensures HandlesOk(leases + [Lease(next, key)], reservations, next + 1)
    ensures forall id :: IsOpen(leases + [Lease(next, key)], reservations, id) ==> id == next || IsOpen(leases, reservations, id)
  {
  }

  lemma NewReservationHandle(leases: seq<Lease>, reservations: seq<Reservation>, next: nat, bytes: nat)
    requires HandlesOk(leases, reservations, next)
    ensures HandlesOk(leases, reservations + [Reservation(next, bytes)], next + 1)
    ensures forall id :: IsOpen(leases, reservations + [Reservation(next, bytes)], id) ==> id == next || IsOpen(leases, reservations, id)
  {
  }

  lemma AcquireKeeps(entries: seq<Entry>, leases: seq<Lease>, reservations: seq<Reservation>, next: nat, i: nat)
    requires i < |entries| && Consistent(entries, leases, reservations, next)
    ensures var e := entries[i];
            var after := Cut(entries, i) + [e.(refs := e.refs + 1)];
            Consistent(after, leases + [Lease(next, e.key)], reservations, next + 1) && Used(after) == Used(entries)
    ensures forall id :: IsOpen(leases + [Lease(next, entries[i].key)], reservations, id) ==> id == next || IsOpen(leases, reservations, id)
  {
    AcquireOk(entries, leases, i, next);
    NewLeaseHandle(leases, reservations, next, entries[i].key);
  }

  class DramCache {
    const maxBytes: nat
    /** Oldest first. */
    var entries: seq<Entry>
    var used: nat
    var reserved: nat
    /** The lease and reservation objects that are still open. */
    var leases: seq<Lease>
    var reservations: seq<Reservation>
    var nextHandle: nat

    ghost predicate Valid() reads this {
      && used == Used(entries) && reserved == Reserved(reservations) && used + reserved <= maxBytes
      && Consistent(entries, leases, reservations, nextHandle)
    }

    /** A handle that was given out and is closed, cancelled or committed. */
    ghost predicate Spent(id: nat) reads this { id < nextHandle && !IsOpen(leases, reservations, id) }

    constructor (maxBytes: nat)
      requires maxBytes > 0
      ensures Valid() && this.maxBytes == maxBytes && entries == [] && leases == [] && reservations == []
    {
      this.maxBytes := maxBytes;
      entries, used, reserved, leases, reservations, nextHandle := [], 0, 0, [], [], 0;
    }

    /** A hit takes a lease and becomes the most recently used entry. */
    method Acquire(key: ExpertKey) returns (lease: Option<nat>)
      requires Valid()
      modifies this
      ensures Valid() && reservations == old(reservations)
      ensures forall id :: old(Spent(id)) ==> Spent(id)
      ensures match FindKey(old(entries), key)
              case None => lease == None && entries == old(entries) && leases == old(leases)
              case Some(i) =>
                var e := old(entries)[i];
                && lease == Some(old(nextHandle)) && leases == old(leases) + [Lease(old(nextHandle), key)]
                && entries == Cut(old(entries), i) + [e.(refs := e.refs + 1)]
    {
      var found := FindKey(entries, key);
      if found.None? { return None; }
      var i := found.value;
      AcquireKeeps(entries, leases, reservations, nextHandle, i);
      var record, handle := entries[i], nextHandle;
      var moved, more := Cut(entries, i) + [record.(refs := record.refs + 1)], leases + [Lease(handle, key)];
      entries, leases, nextHandle := moved, more, handle + 1;
      return Some(handle);
    }

    method EvictUntilAvailable(needed: nat)
      requires Valid()
      modifies this`entries, this`used
      ensures Valid() && entries == Evict(old(entries), maxBytes - old(used) - reserved, needed)
    {
      ghost var kept := EvictOk(entries, leases, maxBytes - used - reserved, needed);
      DropVictims(needed, kept);
    }

    method DropVictims(needed: nat, ghost goal: seq<Entry>)
      requires used == Used(entries) && used + reserved <= maxBytes && goal == Evict(entries, maxBytes - used - reserved, needed)
      modifies this`entries, this`used
      ensures used == Used(entries) && used + reserved <= maxBytes && entries == goal
    {
      while maxBytes - used - reserved < needed
        invariant used == Used(entries) && used + reserved <= maxBytes
        invariant Evict(entries, maxBytes - used - reserved, needed) == goal
        decreases |entries|
      {
        var victim := FirstIdle(entries);
        if victim.None? { return; }
        TotalCut(entries, victim.value, EntryBytes);
        var record := entries[victim.value];
        entries := Cut(entries, victim.value);
        used := used - record.bytes;
      }
    }

    /** One try of a reservation: evict, then take the budget if it fits.  `None` means the caller waits. */
    method TryReserve(bytes: nat) returns (handle: Option<nat>)
      requires Valid() && 0 < bytes <= maxBytes
      modifies this
      ensures Valid() && leases == old(leases)
      ensures forall id :: old(Spent(id)) ==> Spent(id)
      ensures entries == Evict(old(entries), maxBytes - old(used) - old(reserved), bytes)
      ensures handle.Some? <==> maxBytes - used - old(reserved) >= bytes
      ensures handle.Some? ==> handle.value == old(nextHandle) && reservations == old(reservations) + [Reservation(handle.value, bytes)]
      ensures handle.None? ==> reservations == old(reservations)
    {
      EvictUntilAvailable(bytes);
      if maxBytes - used - reserved < bytes { return None; }
      NewReservationHandle(leases, reservations, nextHandle, bytes);
      TotalAdds(reservations, [Reservation(nextHandle, bytes)], ReservedBytes);
      TotalOne(Reservation(nextHandle, bytes), ReservedBytes);
      reservations := reservations + [Reservation(nextHandle, bytes)];
      reserved := reserved + bytes;
      nextHandle := nextHandle + 1;
      return Some(nextHandle - 1);
    }

    /** Only an unreferenced entry can be removed. */
    method Remove(key: ExpertKey) returns (removed: bool)
      requires Valid()
      modifies this`entries, this`used
      ensures Valid()
      ensures removed <==> FindKey(old(entries), key).Some? && Holders(old(leases), key) == 0
      ensures entries == if removed then Cut(old(entries), FindKey(old(entries), key).value) else old(entries)
    {
      var found := FindKey(entries, key);
      if found.None? { return false; }
      var record := entries[found.value];
      assert record in entries;
      if record.refs > 0 { return false; }
      TotalCut(entries, found.value, EntryBytes);
      CutMembers(entries, found.value);
      CutDistinct(entries, found.value);
      DropOk(entries, Cut(entries, found.value), leases);
      entries := Cut(entries, found.value);
      used := used - record.bytes;
      return true;
    }

    /** Refused while anything is reserved or leased. */
    method Clear() returns (ok: bool)
      requires Valid()
      modifies this`entries, this`used
      ensures Valid()
      ensures ok <==> old(reserved) == 0 && forall e :: e in old(entries) ==> e.refs == 0
      ensures entries == if ok then [] else old(entries)
    {
      if reserved > 0 || exists e :: e in entries && e.refs > 0 { return false; }
      DropOk(entries, [], leases);
      entries, used := [], 0;
      return true;
    }

    /** Closing an open lease always finds its entry, takes one reference from it and nothing else;
        closing it again does nothing. */
    method CloseLease(id: nat) returns (ok: bool)
      requires Valid()
      modifies this`entries, this`leases
      ensures Valid() && ok && FindLease(leases, id).None?
      ensures forall id :: old(Spent(id)) ==> Spent(id)
      ensures match FindLease(old(leases), id)
              case None => leases == old(leases) && entries == old(entries)
              case Some(j) =>
                var found := FindKey(old(entries), old(leases)[j].key);
                && leases == Cut(old(leases), j) && Spent(id)
                && found.Some? && old(entries)[found.value].refs > 0
                && entries == old(entries)[found.value := old(entries)[found.value].(refs := old(entries)[found.value].refs - 1)]
    {
      var open := FindLease(leases, id);
      if open.None? { return true; }
      var key := leases[open.value].key;
      HoldersCut(leases, open.value, key);
      var found := FindKey(entries, key);
      assert found.Some? by { assert Has(entries, key); }
      var i := found.value;
      CloseOk(entries, leases, i, open.value);
      CutLeaseHandles(leases, reservations, nextHandle, open.value);
      ok := entries[i].refs > 0;
      entries := entries[i := entries[i].(refs := entries[i].refs - 1)];
      leases := Cut(leases, open.value);
    }

    /** Turn a reservation into a leased entry no larger than it; every failure gives the budget back. */
    method Commit(id: nat, key: ExpertKey, bytes: nat) returns (r: Result<nat, CommitError>)
      requires Valid()
      modifies this
      ensures Valid() && FindReservation(reservations, id).None?
      ensures forall id :: old(Spent(id)) ==> Spent(id)
      ensures match FindReservation(old(reservations), id)
              case None => r == Err(ReservationFinished) && reservations == old(reservations) && entries == old(entries) && leases == old(leases)
              case Some(k) =>
                && reservations == Cut(old(reservations), k) && Spent(id)
                && (r.Ok? <==> 0 < bytes <= old(reservations)[k].bytes && FindKey(old(entries), key).None?)
                && (match r
                    case Ok(lease) =>
                      lease == old(nextHandle) && entries == old(entries) + [Entry(key, bytes, 1)] && leases == old(leases) + [Lease(lease, key)]
                    case Err(e) =>
                      && entries == old(entries) && leases == old(leases)
                      && e == if bytes == 0 then BadSize else if bytes > old(reservations)[k].bytes then TooLarge else KeyPresent)
    {
      var open := FindReservation(reservations, id);
      if open.None? { return Err(ReservationFinished); }
      var budget := reservations[open.value].bytes;
      Return(open.value);
      if bytes == 0 { return Err(BadSize); }
      if bytes > budget { return Err(TooLarge); }
      if FindKey(entries, key).Some? { return Err(KeyPresent); }
      CommitOk(entries, leases, key, bytes, nextHandle);
      NewLeaseHandle(leases, reservations, nextHandle, key);
      entries := entries + [Entry(key, bytes, 1)];
      leases := leases + [Lease(nextHandle, key)];
      used := used + bytes;
      nextHandle := nextHandle + 1;
      return Ok(nextHandle - 1);
    }

    /** The budget of one open reservation goes back. */
    method Return(k: nat)
      requires Valid() && k < |reservations|
      modifies this`reservations, this`reserved
      ensures Valid() && reservations == Cut(old(reservations), k) && reserved + old(reservations)[k].bytes == old(reserved)
      ensures !IsOpen(leases, reservations, old(reservations)[k].id)
      ensures forall id :: old(Spent(id)) ==> Spent(id)
    {
      var fewer := Cut(reservations, k);
      ReturnOk(reservations, k);
      CutReservationHandles(leases, reservations, nextHandle, k);
      reserved := reserved - reservations[k].bytes;
      reservations := fewer;
    }

    /** An open reservation gives its budget back, once. */
    method Cancel(id: nat)
      requires Valid()
      modifies this`reservations, this`reserved
      ensures Valid() && FindReservation(reservations, id).None?
      ensures forall id :: old(Spent(id)) ==> Spent(id)
      ensures match FindReservation(old(reservations), id)
              case None => reservations == old(reservations) && reserved == old(reserved)
              case Some(k) =>
                && reservations == Cut(old(reservations), k) && Spent(id)
                && reserved + old(reservations)[k].bytes == old(reserved)
    {
      var open := FindReservation(reservations, id);
      if open.Some? { Return(open.value); }
    }
  }
}
