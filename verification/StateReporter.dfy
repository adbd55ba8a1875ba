/** Coalesced expert state reports of one Worker process. */
module StateReporter {
  import opened Ordering
  import opened Topology
  import opened ControlParts

  datatype Kind = Ready | Failed(diagnostic: string) | Removed

  /** One recorded change: expert, its new state, and the placement generation it belongs to. */
  datatype Change = Change(key: ExpertKey, kind: Kind, generation: nat)

  /** A change that still has to be reported; `index` is its number among all recorded changes. */
  datatype Pending = Pending(index: nat, change: Change)

  datatype Reporter = Reporter(pending: map<ExpertKey, Pending>, changeIndex: nat, lastSequence: nat, lastAck: nat)

  /** Latest state per expert. */
  type States = map<ExpertKey, Kind>

  datatype StateMessage =
    | FullState(generation: nat, sequence: nat, index: nat, count: nat, states: seq<(ExpertKey, Kind)>)
    | StateUpdates(generation: nat, sequence: nat, states: seq<(ExpertKey, Kind)>)

  // ---------------------------------------------------------------- steps

  function Record(r: Reporter, change: Change): Reporter {
    r.(changeIndex := r.changeIndex + 1, pending := r.pending[change.key := Pending(r.changeIndex + 1, change)])
  }

  /** No two experts share a change number. */
  ghost predicate Numbered(pending: map<ExpertKey, Pending>) {
    && (forall key :: key in pending ==> pending[key].change.key == key)
    && (forall k, l :: k in pending && l in pending && pending[k].index == pending[l].index ==> k == l)
  }

  function Indexes(pending: map<ExpertKey, Pending>): set<nat> {
    set key | key in pending :: pending[key].index
  }

  function KeyAt(pending: map<ExpertKey, Pending>, index: nat): (key: ExpertKey)
    requires Numbered(pending) && index in Indexes(pending)
    ensures key in pending && pending[key].index == index
  {
    var key :| key in pending && pending[key].index == index;
    key
  }

  function SortedIndexes(pending: map<ExpertKey, Pending>): (order: seq<nat>)
    ensures forall x: nat :: x in order <==> x in Indexes(pending)
    ensures forall i :: 0 <= i < |order| ==> order[i] in Indexes(pending)
    ensures forall i, j :: 0 <= i < j < |order| ==> order[i] < order[j]
  {
    NatOrder();
    var order := SortSet(Indexes(pending), NatLe);
    assert forall i :: 0 <= i < |order| ==> order[i] in order;
    order
  }

  /** Everything pending, in change order. */
  function Ordered(pending: map<ExpertKey, Pending>): (ordered: seq<Pending>)
    requires Numbered(pending)
    ensures |ordered| == |SortedIndexes(pending)|
    ensures forall i :: 0 <= i < |ordered| ==> ordered[i].index == SortedIndexes(pending)[i]
    ensures forall i :: 0 <= i < |ordered| ==> ordered[i].change.key in pending && pending[ordered[i].change.key] == ordered[i]
  {
    var order := SortedIndexes(pending);
    seq(|order|, i requires 0 <= i < |order| => pending[KeyAt(pending, order[i])])
  }

  lemma OrderedIs(pending: map<ExpertKey, Pending>)
    requires Numbered(pending)
    ensures InOrder(Ordered(pending))
    ensures forall key :: key in pending ==> pending[key] in Ordered(pending)
  {
    forall key | key in pending ensures pending[key] in Ordered(pending) {
      assert pending[key].index in SortedIndexes(pending);
      var i :| 0 <= i < |SortedIndexes(pending)| && SortedIndexes(pending)[i] == pending[key].index;
      assert Ordered(pending)[i].index == pending[key].index;
      assert Ordered(pending)[i] == pending[key];
    }
  }

  function OfGeneration(ordered: seq<Pending>, generation: nat): (r: seq<Pending>)
    ensures forall i :: 0 <= i < |r| ==> r[i] in ordered && r[i].change.generation == generation
    ensures |ordered| > 0 && ordered[0].change.generation == generation ==> |r| > 0 && r[0] == ordered[0]
  {
    if ordered == [] then []
    else (if ordered[0].change.generation == generation then [ordered[0]] else []) + OfGeneration(ordered[1..], generation)
  }

  /** The oldest pending changes of the oldest pending change's generation, at most `maxUpdates`. */
  function Selected(pending: map<ExpertKey, Pending>, maxUpdates: nat): seq<Pending>
    requires Numbered(pending)
  {
    SelectFrom(Ordered(pending), maxUpdates)
  }

  function SelectFrom(ordered: seq<Pending>, maxUpdates: nat): seq<Pending> {
    if ordered == [] then [] else
    var same := OfGeneration(ordered, ordered[0].change.generation);
    if |same| <= maxUpdates then same else same[..maxUpdates]
  }

  function Without(pending: map<ExpertKey, Pending>, selected: seq<Pending>): map<ExpertKey, Pending> {
    map key | key in pending && pending[key] !in selected :: pending[key]
  }

  function StatesOf(selected: seq<Pending>): seq<(ExpertKey, Kind)> {
    seq(|selected|, i requires 0 <= i < |selected| => (selected[i].change.key, selected[i].change.kind))
  }

  /** Nothing pending sends nothing; otherwise one batch leaves. */
  function Take(r: Reporter, maxUpdates: nat): (Reporter, Option<StateMessage>)
    requires Numbered(r.pending)
  {
    var selected := Selected(r.pending, maxUpdates);
    if selected == [] then (r, None)
    else (r.(pending := Without(r.pending, selected), lastSequence := r.lastSequence + 1),
          Some(StateUpdates(selected[0].change.generation, r.lastSequence + 1, StatesOf(selected))))
  }

  function AfterBoundary(pending: map<ExpertKey, Pending>, boundary: nat): map<ExpertKey, Pending> {
    map key | key in pending && pending[key].index > boundary :: pending[key]
  }

  function FullParts(generation: nat, sequence: nat, states: seq<(ExpertKey, Kind)>): (parts: seq<StateMessage>)
    ensures |parts| == PartCount(|states|)
    ensures forall i :: 0 <= i < |parts| ==> parts[i] == FullState(generation, sequence, i, PartCount(|states|), Part(states, i))
  {
    var count := PartCount(|states|);
    seq(count, i requires 0 <= i < count => FullState(generation, sequence, i, count, Part(states, i)))
  }

  /** One complete snapshot; changes after the boundary stay pending. */
  function Full(r: Reporter, generation: nat, states: seq<(ExpertKey, Kind)>, boundary: nat): (Reporter, seq<StateMessage>) {
    (r.(pending := AfterBoundary(r.pending, boundary), lastSequence := r.lastSequence + 1),
     FullParts(generation, r.lastSequence + 1, states))
  }

  /** `None`: the acknowledgement names a report never sent, or goes back. */
  function Acknowledge(r: Reporter, sequence: nat): (Reporter, Option<bool>) {
    if sequence == 0 || sequence > r.lastSequence || sequence < r.lastAck then (r, None)
    else (r.(lastAck := sequence), Some(sequence != r.lastAck))
  }

  // ---------------------------------------------------------------- what was recorded

  function Replay(history: seq<Change>): States {
    if history == [] then map[]
    else Replay(history[..|history| - 1])[history[|history| - 1].key := history[|history| - 1].kind]
  }

  /** No change of `key` from number `n` on (numbers start at one). */
  ghost predicate QuietFrom(history: seq<Change>, key: ExpertKey, n: nat) {
    forall i :: n <= i < |history| ==> history[i].key != key
  }

  /** Every pending entry is the last recorded change of its expert. */
  ghost predicate PendingOk(r: Reporter, history: seq<Change>) {
    && r.changeIndex == |history|
    && forall key :: key in r.pending ==>
         && 0 < r.pending[key].index <= |history| && r.pending[key].change == history[r.pending[key].index - 1]
         && r.pending[key].change.key == key && QuietFrom(history, key, r.pending[key].index)
  }

  lemma PendingNumbered(r: Reporter, history: seq<Change>)
    requires PendingOk(r, history)
    ensures Numbered(r.pending)
  {
  }

  lemma {:induction false} ReplayQuiet(history: seq<Change>, key: ExpertKey, n: nat)
    requires n <= |history| && QuietFrom(history, key, n)
    ensures key in Replay(history) <==> key in Replay(history[..n])
    ensures key in Replay(history) ==> Replay(history)[key] == Replay(history[..n])[key]
    decreases |history|
  {
    if n == |history| {
      assert history[..n] == history;
    } else {
      var front := history[..|history| - 1];
      assert front[..n] == history[..n];
      ReplayQuiet(front, key, n);
    }
  }

  lemma ReplayOfPending(r: Reporter, history: seq<Change>, key: ExpertKey)
    requires PendingOk(r, history) && key in r.pending
    ensures key in Replay(history) && Replay(history)[key] == r.pending[key].change.kind
  {
    var n := r.pending[key].index;
    ReplayQuiet(history, key, n);
    assert history[..n][..n - 1] == history[..n - 1];
    assert history[..n][n - 1] == history[n - 1];
  }

  lemma RecordKeepsPending(r: Reporter, history: seq<Change>, change: Change)
    requires PendingOk(r, history)
    ensures PendingOk(Record(r, change), history + [change])
  {
  }

  lemma TakeKeepsPending(r: Reporter, history: seq<Change>, maxUpdates: nat)
    requires PendingOk(r, history)
    ensures Numbered(r.pending) && PendingOk(Take(r, maxUpdates).0, history)
  {
  }

  lemma FullKeepsPending(r: Reporter, history: seq<Change>, generation: nat, states: seq<(ExpertKey, Kind)>, boundary: nat)
    requires PendingOk(r, history)
    ensures PendingOk(Full(r, generation, states, boundary).0, history)
  {
  }

  // ---------------------------------------------------------------- batches

  ghost predicate InOrder(s: seq<Pending>) {
    forall i, j :: 0 <= i < j < |s| ==> s[i].index < s[j].index
  }

  lemma InOrderCons(x: Pending, rest: seq<Pending>)
    requires InOrder(rest) && forall i :: 0 <= i < |rest| ==> x.index < rest[i].index
    ensures InOrder([x] + rest)
  {
  }

  lemma {:induction false} OfGenerationInOrder(ordered: seq<Pending>, generation: nat)
    requires InOrder(ordered)
    ensures InOrder(OfGeneration(ordered, generation))
    ensures forall x :: x in ordered && x.change.generation == generation ==> x in OfGeneration(ordered, generation)
    decreases |ordered|
  {
    if ordered != [] {
      var rest := ordered[1..];
      var tail := OfGeneration(rest, generation);
      assert ordered == [ordered[0]] + rest;
      OfGenerationInOrder(rest, generation);
      if ordered[0].change.generation == generation {
        forall i | 0 <= i < |tail| ensures ordered[0].index < tail[i].index {
          var k :| 0 <= k < |rest| && rest[k] == tail[i];
          assert ordered[k + 1] == rest[k];
        }
        InOrderCons(ordered[0], tail);
      } else {
        assert [] + tail == tail;
      }
    }
  }

  /** What stays behind is of another generation or newer than the whole batch, and never older than its first. */
  ghost predicate LeftFor(selected: seq<Pending>, p: Pending)
    requires selected != []
  {
    && selected[0].index <= p.index
    && (p !in selected && p.change.generation == selected[0].change.generation ==>
          forall i :: 0 <= i < |selected| ==> selected[i].index < p.index)
  }

  /** A batch is of one generation, within the bound, in change order, and oldest first. */
  ghost predicate BatchOk(selected: seq<Pending>, pending: map<ExpertKey, Pending>, maxUpdates: nat) {
    && |selected| <= maxUpdates
    && (forall i :: 0 <= i < |selected| ==> selected[i].change.key in pending && pending[selected[i].change.key] == selected[i])
    && (forall i :: 0 <= i < |selected| ==> selected[i].change.generation == selected[0].change.generation)
    && InOrder(selected)
    && (selected != [] ==> forall key :: key in pending ==> LeftFor(selected, pending[key]))
  }

  lemma SelectedIsBatch(pending: map<ExpertKey, Pending>, maxUpdates: nat)
    requires Numbered(pending) && maxUpdates > 0
    ensures BatchOk(Selected(pending, maxUpdates), pending, maxUpdates)
    ensures Selected(pending, maxUpdates) == [] <==> pending == map[]
  {
    OrderedIs(pending);
    var ordered := Ordered(pending);
    if ordered == [] {
      assert forall key :: key !in pending;
    } else {
      BatchFrom(pending, ordered, maxUpdates);
    }
  }

  /** ... and as large as it may be: what is left of its generation did not fit. */
  lemma SelectedIsFull(pending: map<ExpertKey, Pending>, maxUpdates: nat, key: ExpertKey)
    requires Numbered(pending) && key in pending && 0 < |Selected(pending, maxUpdates)| < maxUpdates
    requires pending[key].change.generation == Selected(pending, maxUpdates)[0].change.generation
    ensures pending[key] in Selected(pending, maxUpdates)
  {
    OrderedIs(pending);
    var ordered := Ordered(pending);
    OfGenerationInOrder(ordered, ordered[0].change.generation);
  }

  lemma BatchFrom(pending: map<ExpertKey, Pending>, ordered: seq<Pending>, maxUpdates: nat)
    requires ordered != [] && InOrder(ordered) && maxUpdates > 0
    requires forall i :: 0 <= i < |ordered| ==> ordered[i].change.key in pending && pending[ordered[i].change.key] == ordered[i]
    requires forall key :: key in pending ==> pending[key] in ordered
    ensures BatchOk(SelectFrom(ordered, maxUpdates), pending, maxUpdates) && pending != map[]
    ensures SelectFrom(ordered, maxUpdates) != []
  {
    var same := OfGeneration(ordered, ordered[0].change.generation);
    OfGenerationInOrder(ordered, ordered[0].change.generation);
    FromOrdered(pending, ordered, same);
    CutIsBatch(pending, ordered, same, SelectFrom(ordered, maxUpdates), maxUpdates);
  }

  lemma CutIsBatch(pending: map<ExpertKey, Pending>, ordered: seq<Pending>, same: seq<Pending>, selected: seq<Pending>, maxUpdates: nat)
    requires ordered != [] && selected <= same && selected != [] && same[0] == ordered[0] && |selected| <= maxUpdates
    requires InOrder(ordered)
    requires InOrder(same)
    requires forall key :: key in pending ==> pending[key] in ordered
    requires forall x :: x in ordered && x.change.generation == ordered[0].change.generation ==> x in same
    requires forall i :: 0 <= i < |same| ==> same[i].change.key in pending && pending[same[i].change.key] == same[i]
    requires forall i :: 0 <= i < |same| ==> same[i].change.generation == ordered[0].change.generation
    ensures BatchOk(selected, pending, maxUpdates) && pending != map[]
  {
    assert forall k :: 0 <= k < |selected| ==> selected[k] == same[k];
    OldestFirst(pending, ordered, same, selected);
  }

  lemma FromOrdered(pending: map<ExpertKey, Pending>, ordered: seq<Pending>, same: seq<Pending>)
    requires forall i :: 0 <= i < |ordered| ==> ordered[i].change.key in pending && pending[ordered[i].change.key] == ordered[i]
    requires forall i :: 0 <= i < |same| ==> same[i] in ordered
    ensures forall i :: 0 <= i < |same| ==> same[i].change.key in pending && pending[same[i].change.key] == same[i]
  {
  }

  lemma OldestFirst(pending: map<ExpertKey, Pending>, ordered: seq<Pending>, same: seq<Pending>, selected: seq<Pending>)
    requires ordered != [] && selected <= same && selected != [] && same[0] == ordered[0]
    requires InOrder(ordered)
    requires InOrder(same)
    requires forall key :: key in pending ==> pending[key] in ordered
    requires forall x :: x in ordered && x.change.generation == ordered[0].change.generation ==> x in same
    ensures forall key :: key in pending ==> LeftFor(selected, pending[key])
  {
    assert forall k :: 0 <= k < |selected| ==> selected[k] == same[k] && selected[k] in selected;
    forall key | key in pending ensures LeftFor(selected, pending[key]) {
      var p := pending[key];
      var j :| 0 <= j < |ordered| && ordered[j] == p;
      if p !in selected && p.change.generation == selected[0].change.generation {
        var k :| 0 <= k < |same| && same[k] == p;
        assert k >= |selected|;
      }
    }
  }

  // ---------------------------------------------------------------- what is sent

  /** An update message carries the next number, and the state and generation of every change it takes, in
      order; exactly those are no longer pending. */
  lemma TakeSends(r: Reporter, maxUpdates: nat)
    requires Numbered(r.pending) && maxUpdates > 0
    ensures var (after, message) := Take(r, maxUpdates);
            var selected := Selected(r.pending, maxUpdates);
            && (message.None? <==> r.pending == map[]) && (message.None? ==> after == r)
            && (message.Some? ==>
                  && message.value.StateUpdates? && message.value.sequence == r.lastSequence + 1 == after.lastSequence
                  && |message.value.states| == |selected|
                  && (forall i :: 0 <= i < |selected| ==>
                        && message.value.states[i] == (selected[i].change.key, selected[i].change.kind)
                        && message.value.generation == selected[i].change.generation)
                  && (forall key :: key in after.pending <==> key in r.pending && r.pending[key] !in selected)
                  && (forall key :: key in after.pending ==> after.pending[key] == r.pending[key])
                  && after == r.(pending := after.pending, lastSequence := after.lastSequence))
  {
    SelectedIsBatch(r.pending, maxUpdates);
  }

  /** A snapshot travels in parts that share the next number, say where they stand, and join to the whole
      list; exactly what was recorded after the boundary stays pending. */
  lemma FullSends(r: Reporter, generation: nat, states: seq<(ExpertKey, Kind)>, boundary: nat)
    ensures var (after, parts) := Full(r, generation, states, boundary);
            && after.lastSequence == r.lastSequence + 1 && after == r.(pending := after.pending, lastSequence := after.lastSequence)
            && (forall i :: 0 <= i < |parts| ==>
                  parts[i].FullState? && parts[i].generation == generation && parts[i].sequence == after.lastSequence
                  && parts[i].index == i && parts[i].count == |parts| && |parts[i].states| <= 64)
            && Flatten(seq(|parts|, i requires 0 <= i < |parts| => parts[i].states)) == states
            && (forall key :: key in after.pending <==> key in r.pending && r.pending[key].index > boundary)
            && (forall key :: key in after.pending ==> after.pending[key] == r.pending[key])
  {
    var parts := Full(r, generation, states, boundary).1;
    assert seq(|parts|, i requires 0 <= i < |parts| => parts[i].states) == SplitParts(states);
    PartsRejoin(states);
  }

  // ---------------------------------------------------------------- one stream

  /** How a receiver folds reported states into its view. */
  function ApplyStates(view: States, states: seq<(ExpertKey, Kind)>): States {
    if states == [] then view
    else ApplyStates(view, states[..|states| - 1])[states[|states| - 1].0 := states[|states| - 1].1]
  }

  ghost predicate Agree(a: States, b: States, key: ExpertKey) {
    (key in a <==> key in b) && (key in a ==> a[key] == b[key])
  }

  lemma AgreeEverywhere(a: States, b: States)
    requires forall key :: Agree(a, b, key)
    ensures a == b
  {
    assert forall key :: key in a <==> key in b by {
      forall key ensures key in a <==> key in b { assert Agree(a, b, key); }
    }
    forall key | key in a ensures a[key] == b[key] { assert Agree(a, b, key); }
  }

  /** What the other end knows of every expert that is not pending: its latest recorded change, or, if
      nothing was recorded since the mark, what the snapshot `shown` said. */
  ghost predicate Covers(view: States, r: Reporter, history: seq<Change>, mark: nat, shown: States) {
    forall key :: key !in r.pending ==> Agree(view, if QuietFrom(history, key, mark) then shown else Replay(history), key)
  }

  /** Whatever is pending was recorded after the mark. */
  ghost predicate PendingAfter(r: Reporter, mark: nat) {
    forall key :: key in r.pending ==> r.pending[key].index > mark
  }

  /** Every expert that changed after the mark is still pending, with a number past the mark. */
  ghost predicate HeldSince(r: Reporter, history: seq<Change>, mark: nat) {
    forall key :: !QuietFrom(history, key, mark) ==> key in r.pending && r.pending[key].index > mark
  }

  lemma RecordKeepsHeld(r: Reporter, history: seq<Change>, mark: nat, change: Change)
    requires PendingOk(r, history) && HeldSince(r, history, mark) && mark <= |history|
    ensures HeldSince(Record(r, change), history + [change], mark)
  {
    var more := history + [change];
    forall key | !QuietFrom(more, key, mark) ensures key in Record(r, change).pending && Record(r, change).pending[key].index > mark {
      if key != change.key {
        var i :| mark <= i < |more| && more[i].key == key;
        assert history[i].key == key;
      }
    }
  }

  lemma RecordKeepsCovers(view: States, r: Reporter, history: seq<Change>, mark: nat, shown: States, change: Change)
    requires Covers(view, r, history, mark, shown) && mark <= |history|
    ensures Covers(view, Record(r, change), history + [change], mark, shown)
  {
    var more := history + [change];
    assert more[..|history|] == history;
    forall key | key !in Record(r, change).pending
      ensures Agree(view, if QuietFrom(more, key, mark) then shown else Replay(more), key)
    {
      QuietMore(history, change, key, mark);
    }
  }

  lemma QuietMore(history: seq<Change>, change: Change, key: ExpertKey, mark: nat)
    requires mark <= |history|
    ensures QuietFrom(history + [change], key, mark) <==> QuietFrom(history, key, mark) && change.key != key
  {
    var more := history + [change];
    assert more[|history|] == change;
    if QuietFrom(more, key, mark) {
      forall i | mark <= i < |history| ensures history[i].key != key { assert more[i] == history[i]; }
    }
  }

  /** A snapshot, whatever it shows, covers every expert that is not left pending. */
  lemma FullCovers(r: Reporter, history: seq<Change>, mark: nat, generation: nat, states: seq<(ExpertKey, Kind)>)
    requires PendingOk(r, history) && HeldSince(r, history, mark)
    ensures Covers(ApplyStates(map[], states), Full(r, generation, states, mark).0, history, mark, ApplyStates(map[], states))
    ensures PendingAfter(Full(r, generation, states, mark).0, mark)
  {
    var next := Full(r, generation, states, mark).0;
    forall key | key !in next.pending ensures QuietFrom(history, key, mark) { }
  }

  lemma {:induction false} AppliedStates(view: States, selected: seq<Pending>, key: ExpertKey)
    requires forall i, j :: 0 <= i < j < |selected| ==> selected[i].change.key != selected[j].change.key
    ensures (forall i :: 0 <= i < |selected| ==> selected[i].change.key != key) ==> Agree(ApplyStates(view, StatesOf(selected)), view, key)
    ensures forall i :: 0 <= i < |selected| && selected[i].change.key == key ==>
                          key in ApplyStates(view, StatesOf(selected)) && ApplyStates(view, StatesOf(selected))[key] == selected[i].change.kind
    decreases |selected|
  {
    if selected != [] {
      var front := selected[..|selected| - 1];
      AppliedStates(view, front, key);
      assert StatesOf(selected)[..|selected| - 1] == StatesOf(front);
    }
  }

  lemma TakeKeepsCovers(view: States, r: Reporter, history: seq<Change>, mark: nat, shown: States, maxUpdates: nat)
    requires PendingOk(r, history) && PendingAfter(r, mark) && Covers(view, r, history, mark, shown)
    requires maxUpdates > 0 && Numbered(r.pending)
    ensures var selected := Selected(r.pending, maxUpdates);
            Covers(ApplyStates(view, StatesOf(selected)), Take(r, maxUpdates).0, history, mark, shown)
    ensures PendingAfter(Take(r, maxUpdates).0, mark)
  {
    SelectedIsBatch(r.pending, maxUpdates);
    var selected := Selected(r.pending, maxUpdates);
    var next, after := Take(r, maxUpdates).0, ApplyStates(view, StatesOf(selected));
    forall key | key !in next.pending
      ensures Agree(after, if QuietFrom(history, key, mark) then shown else Replay(history), key)
    {
      AppliedStates(view, selected, key);
      if key in r.pending {
        ReplayOfPending(r, history, key);
        assert history[r.pending[key].index - 1].key == key;
        var i :| 0 <= i < |selected| && selected[i] == r.pending[key];
      }
    }
  }

  datatype StreamEvent = Recorded(change: Change) | TakeUpdates | Acknowledged(sequence: nat)

  /** A reporter, everything recorded so far, the view at the other end, and the messages sent. */
  datatype Stream = Stream(reporter: Reporter, history: seq<Change>, view: States, sent: seq<StateMessage>)

  ghost function StreamStep(s: Stream, event: StreamEvent, maxUpdates: nat): Stream {
    match event
    case Recorded(change) => s.(reporter := Record(s.reporter, change), history := s.history + [change])
    case TakeUpdates =>
      if !Numbered(s.reporter.pending) then s else
      var (next, message) := Take(s.reporter, maxUpdates);
      if message.None? then s
      else s.(reporter := next, view := ApplyStates(s.view, message.value.states), sent := s.sent + [message.value])
    case Acknowledged(sequence) => s.(reporter := Acknowledge(s.reporter, sequence).0)
  }

  ghost function StreamRun(s: Stream, events: seq<StreamEvent>, maxUpdates: nat): Stream {
    if events == [] then s else StreamStep(StreamRun(s, events[..|events| - 1], maxUpdates), events[|events| - 1], maxUpdates)
  }

  function RecordAll(r: Reporter, changes: seq<Change>): Reporter {
    if changes == [] then r else Record(RecordAll(r, changes[..|changes| - 1]), changes[|changes| - 1])
  }

  lemma {:induction false} RecordedAll(r: Reporter, history: seq<Change>, changes: seq<Change>)
    requires PendingOk(r, history)
    ensures PendingOk(RecordAll(r, changes), history + changes) && HeldSince(RecordAll(r, changes), history + changes, |history|)
    decreases |changes|
  {
    if changes == [] {
      assert history + changes == history;
    } else {
      var front, last := changes[..|changes| - 1], changes[|changes| - 1];
      RecordedAll(r, history, front);
      RecordKeepsPending(RecordAll(r, front), history + front, last);
      RecordKeepsHeld(RecordAll(r, front), history + front, |history|, last);
      assert history + front + [last] == history + changes;
    }
  }

  /** A stream opens: the mark is set, changes go on while the manager's snapshot is taken, then the
      snapshot is sent in parts and put together at the other end. */
  function OpenStream(r: Reporter, history: seq<Change>, during: seq<Change>, generation: nat, states: seq<(ExpertKey, Kind)>): Stream {
    var (reporter, parts) := Full(RecordAll(r, during), generation, states, |history|);
    var joined := Flatten(seq(|parts|, i requires 0 <= i < |parts| => parts[i].states));
    Stream(reporter, history + during, ApplyStates(map[], joined), parts)
  }

  ghost predicate StreamOk(s: Stream, mark: nat, shown: States) {
    && mark <= |s.history| && PendingOk(s.reporter, s.history) && PendingAfter(s.reporter, mark)
    && Covers(s.view, s.reporter, s.history, mark, shown)
  }

  lemma StreamStepOk(s: Stream, mark: nat, shown: States, event: StreamEvent, maxUpdates: nat)
    requires StreamOk(s, mark, shown) && maxUpdates > 0
    ensures StreamOk(StreamStep(s, event, maxUpdates), mark, shown)
  {
    match event
    case Recorded(change) =>
      RecordKeepsPending(s.reporter, s.history, change);
      RecordKeepsCovers(s.view, s.reporter, s.history, mark, shown, change);
    case TakeUpdates =>
      PendingNumbered(s.reporter, s.history);
      TakeKeepsPending(s.reporter, s.history, maxUpdates);
      TakeKeepsCovers(s.view, s.reporter, s.history, mark, shown, maxUpdates);
    case Acknowledged(sequence) =>
  }

  lemma {:induction false} StreamRunOk(s: Stream, mark: nat, shown: States, events: seq<StreamEvent>, maxUpdates: nat)
    requires StreamOk(s, mark, shown) && maxUpdates > 0
    ensures StreamOk(StreamRun(s, events, maxUpdates), mark, shown)
    ensures StreamRun(s, events, maxUpdates).history == s.history + ChangesIn(events)
    decreases |events|
  {
    if events == [] {
      assert s.history + [] == s.history;
    } else {
      StreamRunOk(s, mark, shown, events[..|events| - 1], maxUpdates);
      StreamStepOk(StreamRun(s, events[..|events| - 1], maxUpdates), mark, shown, events[|events| - 1], maxUpdates);
    }
  }

  /** The changes recorded while the stream runs. */
  function ChangesIn(events: seq<StreamEvent>): seq<Change> {
    if events == [] then [] else
    ChangesIn(events[..|events| - 1]) + match events[|events| - 1] case Recorded(change) => [change] case _ => []
  }

  lemma OpenStreamOk(r: Reporter, history: seq<Change>, during: seq<Change>, generation: nat, states: seq<(ExpertKey, Kind)>)
    requires PendingOk(r, history)
    ensures StreamOk(OpenStream(r, history, during, generation, states), |history|, ApplyStates(map[], states))
  {
    RecordedAll(r, history, during);
    var ready, all := RecordAll(r, during), history + during;
    FullKeepsPending(ready, all, generation, states, |history|);
    FullCovers(ready, all, |history|, generation, states);
    var parts := Full(ready, generation, states, |history|).1;
    assert seq(|parts|, i requires 0 <= i < |parts| => parts[i].states) == SplitParts(states);
    PartsRejoin(states);
  }

  /** Whatever the snapshot shows: an expert that is not pending is known by its latest change, or, if
      none was recorded since the mark, by the snapshot. */
  lemma StreamTells(r: Reporter, history: seq<Change>, during: seq<Change>, generation: nat,
                    states: seq<(ExpertKey, Kind)>, events: seq<StreamEvent>, maxUpdates: nat)
    requires PendingOk(r, history) && maxUpdates > 0
    ensures var s := StreamRun(OpenStream(r, history, during, generation, states), events, maxUpdates);
            && s.history == history + during + ChangesIn(events)
            && Covers(s.view, s.reporter, s.history, |history|, ApplyStates(map[], states))
  {
    OpenStreamOk(r, history, during, generation, states);
    var start := OpenStream(r, history, during, generation, states);
    StreamRunOk(start, |history|, ApplyStates(map[], states), events, maxUpdates);
  }

  /** Expert by expert, the receiver knows what replaying every recorded change gives exactly when a
      change was recorded since the mark or the snapshot shows what the changes before it gave. */
  lemma StreamAgreesExactly(r: Reporter, history: seq<Change>, during: seq<Change>, generation: nat,
                            states: seq<(ExpertKey, Kind)>, events: seq<StreamEvent>, maxUpdates: nat, key: ExpertKey)
    requires PendingOk(r, history) && maxUpdates > 0
    requires key !in StreamRun(OpenStream(r, history, during, generation, states), events, maxUpdates).reporter.pending
    ensures var s := StreamRun(OpenStream(r, history, during, generation, states), events, maxUpdates);
            Agree(s.view, Replay(s.history), key)
            <==> !QuietFrom(history + during + ChangesIn(events), key, |history|) || Agree(ApplyStates(map[], states), Replay(history), key)
  {
    StreamTells(r, history, during, generation, states, events, maxUpdates);
    var s := StreamRun(OpenStream(r, history, during, generation, states), events, maxUpdates);
    if QuietFrom(s.history, key, |history|) {
      ReplayQuiet(s.history, key, |history|);
      assert s.history[..|history|] == history;
    }
  }

  /** A snapshot that is the replay of the changes up to some point at or after the mark: then the
      receiver ends with the replay of all of them, once nothing is pending. */
  lemma StreamIsFaithful(r: Reporter, history: seq<Change>, during: seq<Change>, taken: nat, generation: nat,
                         states: seq<(ExpertKey, Kind)>, events: seq<StreamEvent>, maxUpdates: nat)
    requires PendingOk(r, history) && |history| <= taken <= |history + during| && maxUpdates > 0
    requires ApplyStates(map[], states) == Replay((history + during)[..taken])
    ensures var s := StreamRun(OpenStream(r, history, during, generation, states), events, maxUpdates);
            && (forall key :: key !in s.reporter.pending ==> Agree(s.view, Replay(s.history), key))
            && (s.reporter.pending == map[] ==> s.view == Replay(s.history))
  {
    StreamTells(r, history, during, generation, states, events, maxUpdates);
    var s := StreamRun(OpenStream(r, history, during, generation, states), events, maxUpdates);
    forall key | key !in s.reporter.pending ensures Agree(s.view, Replay(s.history), key) {
      if QuietFrom(s.history, key, |history|) {
        ReplayQuiet(s.history, key, taken);
        assert s.history[..taken] == (history + during)[..taken];
      }
    }
    if s.reporter.pending == map[] { AgreeEverywhere(s.view, Replay(s.history)); }
  }

  // ---------------------------------------------------------------- the manager behind the reporter

  /** The manager sets a state and records the change, or forgets the state of an expert it loads
      again, which it does not report. */
  datatype ManagerEvent = SetState(change: Change) | Forget(key: ExpertKey)

  function EventKey(e: ManagerEvent): ExpertKey { if e.SetState? then e.change.key else e.key }

  function ManagerStates(log: seq<ManagerEvent>): States {
    if log == [] then map[] else
    var before := ManagerStates(log[..|log| - 1]);
    match log[|log| - 1]
    case SetState(change) => before[change.key := change.kind]
    case Forget(key) => before - {key}
  }

  function Reported(log: seq<ManagerEvent>): seq<Change> {
    if log == [] then []
    else Reported(log[..|log| - 1]) + match log[|log| - 1] case SetState(change) => [change] case Forget(_) => []
  }

  /** The latest event of one expert. */
  function Latest(log: seq<ManagerEvent>, key: ExpertKey): (e: Option<ManagerEvent>)
    ensures e.Some? ==> EventKey(e.value) == key
  {
    if log == [] then None
    else if EventKey(log[|log| - 1]) == key then Some(log[|log| - 1])
    else Latest(log[..|log| - 1], key)
  }

  predicate LatestIsForget(log: seq<ManagerEvent>, key: ExpertKey) {
    Latest(log, key).Some? && Latest(log, key).value.Forget?
  }

  lemma {:induction false} ReportedAdds(a: seq<ManagerEvent>, b: seq<ManagerEvent>)
    ensures Reported(a + b) == Reported(a) + Reported(b)
    decreases |b|
  {
    if b == [] {
      assert a + b == a;
    } else {
      assert (a + b)[..|a + b| - 1] == a + b[..|b| - 1];
      ReportedAdds(a, b[..|b| - 1]);
    }
  }

  /** What the manager shows of an expert, and what replaying its reports gives, by its latest event. */
  lemma {:induction false} LatestTells(log: seq<ManagerEvent>, key: ExpertKey)
    ensures key in ManagerStates(log) <==> Latest(log, key).Some? && Latest(log, key).value.SetState?
    ensures key in ManagerStates(log) ==> Agree(ManagerStates(log), Replay(Reported(log)), key)
    decreases |log|
  {
    if log != [] {
      var front, last := log[..|log| - 1], log[|log| - 1];
      LatestTells(front, key);
      if last.SetState? {
        assert Reported(log)[..|Reported(front)|] == Reported(front);
      } else {
        assert Reported(log) == Reported(front);
      }
    }
  }

  lemma {:induction false} RecordedIsReplayed(history: seq<Change>, key: ExpertKey, n: nat)
    requires !QuietFrom(history, key, n)
    ensures key in Replay(history)
    decreases |history|
  {
    var i :| n <= i < |history| && history[i].key == key;
    if history[|history| - 1].key != key {
      var front := history[..|history| - 1];
      assert front[i].key == key;
      RecordedIsReplayed(front, key, n);
    }
  }

  /** No report of `key` in `more`, and its latest event is no forgetting: `more` does not touch it. */
  lemma {:induction false} NothingSince(log: seq<ManagerEvent>, more: seq<ManagerEvent>, key: ExpertKey)
    requires QuietFrom(Reported(more), key, 0) && !LatestIsForget(log + more, key)
    ensures Latest(log + more, key) == Latest(log, key)
    ensures Agree(ManagerStates(log + more), ManagerStates(log), key)
    decreases |more|
  {
    if more == [] {
      assert log + more == log;
    } else {
      var front, last := more[..|more| - 1], more[|more| - 1];
      assert (log + more)[..|log + more| - 1] == log + front;
      if last.SetState? {
        assert Reported(more)[|Reported(front)|] == last.change;
      }
      forall i | 0 <= i < |Reported(front)| ensures Reported(front)[i].key != key {
        assert Reported(more)[i] == Reported(front)[i];
      }
      NothingSince(log, front, key);
    }
  }

  lemma QuietSplit(a: seq<Change>, b: seq<Change>, key: ExpertKey)
    ensures QuietFrom(a + b, key, |a|) <==> QuietFrom(b, key, 0)
  {
    forall i | 0 <= i < |b| ensures (a + b)[|a| + i] == b[i] { }
    if QuietFrom(a + b, key, |a|) {
      forall i | 0 <= i < |b| ensures b[i].key != key { assert (a + b)[|a| + i] == b[i]; }
    }
  }

  lemma QuietPart(a: seq<Change>, b: seq<Change>, key: ExpertKey)
    requires QuietFrom(a + b, key, 0)
    ensures QuietFrom(b, key, 0)
  {
    forall i | 0 <= i < |b| ensures b[i].key != key { assert (a + b)[|a| + i] == b[i]; }
  }

  /** The snapshot is what the manager shows `taken` events after the mark.  An expert that is not
      pending is known as the manager shows it now, except when the manager has silently forgotten
      it since the receiver was told about it. */
  lemma ManagerIsKnown(r: Reporter, before: seq<ManagerEvent>, during: seq<ManagerEvent>, taken: nat, after: seq<ManagerEvent>,
                       generation: nat, states: seq<(ExpertKey, Kind)>, events: seq<StreamEvent>, maxUpdates: nat, key: ExpertKey)
    requires PendingOk(r, Reported(before)) && maxUpdates > 0 && taken <= |during|
    requires ApplyStates(map[], states) == ManagerStates(before + during[..taken])
    requires ChangesIn(events) == Reported(after)
    requires var s := StreamRun(OpenStream(r, Reported(before), Reported(during), generation, states), events, maxUpdates);
             key !in s.reporter.pending
    ensures var s := StreamRun(OpenStream(r, Reported(before), Reported(during), generation, states), events, maxUpdates);
            Agree(s.view, ManagerStates(before + during + after), key)
            <==> !(LatestIsForget(before + during + after, key) &&
                   (!QuietFrom(Reported(during + after), key, 0) || key in ManagerStates(before + during[..taken])))
  {
    StreamTells(r, Reported(before), Reported(during), generation, states, events, maxUpdates);
    var s := StreamRun(OpenStream(r, Reported(before), Reported(during), generation, states), events, maxUpdates);
    assert s.history == Reported(before) + Reported(during) + Reported(after);
    KnownFromLog(s.view, before, during, taken, after, key);
  }

  lemma ReportedInThree(before: seq<ManagerEvent>, during: seq<ManagerEvent>, after: seq<ManagerEvent>, key: ExpertKey)
    ensures Reported(before) + Reported(during) + Reported(after) == Reported(before + during + after)
    ensures QuietFrom(Reported(before + during + after), key, |Reported(before)|) <==> QuietFrom(Reported(during + after), key, 0)
  {
    assert before + during + after == before + (during + after);
    ReportedAdds(before, during + after);
    ReportedAdds(during, after);
    assert Reported(before) + Reported(during) + Reported(after) == Reported(before) + (Reported(during) + Reported(after));
    QuietSplit(Reported(before), Reported(during + after), key);
  }

  lemma KnownFromLog(view: States, before: seq<ManagerEvent>, during: seq<ManagerEvent>, taken: nat, after: seq<ManagerEvent>, key: ExpertKey)
    requires taken <= |during|
    requires var history := Reported(before) + Reported(during) + Reported(after);
             Agree(view, if QuietFrom(history, key, |Reported(before)|) then ManagerStates(before + during[..taken]) else Replay(history), key)
    ensures Agree(view, ManagerStates(before + during + after), key)
            <==> !(LatestIsForget(before + during + after, key) &&
                   (!QuietFrom(Reported(during + after), key, 0) || key in ManagerStates(before + during[..taken])))
  {
    var log := before + during + after;
    ReportedInThree(before, during, after, key);
    LatestTells(log, key);
    if QuietFrom(Reported(during + after), key, 0) {
      if !LatestIsForget(log, key) { QuietManager(before, during, taken, after, key); }
    } else {
      RecordedIsReplayed(Reported(log), key, |Reported(before)|);
      if !LatestIsForget(log, key) { ReportedHasLatest(log, key, |Reported(before)|); }
    }
  }

  lemma QuietManager(before: seq<ManagerEvent>, during: seq<ManagerEvent>, taken: nat, after: seq<ManagerEvent>, key: ExpertKey)
    requires taken <= |during| && QuietFrom(Reported(during + after), key, 0) && !LatestIsForget(before + during + after, key)
    ensures Agree(ManagerStates(before + during + after), ManagerStates(before + during[..taken]), key)
  {
    var early, rest := during[..taken], during[taken..] + after;
    Regroup(during, taken, after);
    ReportedAdds(early, rest);
    QuietPart(Reported(early), Reported(rest), key);
    Reassociate(before, during, early, rest, after);
    NothingSince(before + early, rest, key);
  }

  lemma Regroup(during: seq<ManagerEvent>, taken: nat, after: seq<ManagerEvent>)
    requires taken <= |during|
    ensures during + after == during[..taken] + (during[taken..] + after)
  {
  }

  lemma Reassociate(before: seq<ManagerEvent>, during: seq<ManagerEvent>, early: seq<ManagerEvent>, rest: seq<ManagerEvent>, after: seq<ManagerEvent>)
    requires during + after == early + rest
    ensures before + during + after == before + early + rest
  {
    assert before + during + after == before + (during + after);
    assert before + early + rest == before + (early + rest);
  }

  lemma {:induction false} ReportedHasLatest(log: seq<ManagerEvent>, key: ExpertKey, n: nat)
    requires !QuietFrom(Reported(log), key, n)
    ensures Latest(log, key).Some?
    decreases |log|
  {
    if log != [] && EventKey(log[|log| - 1]) != key {
      var front := log[..|log| - 1];
      var i :| n <= i < |Reported(log)| && Reported(log)[i].key == key;
      assert Reported(front)[i].key == key;
      ReportedHasLatest(front, key, n);
    }
  }

  lemma TakeTheOnly(change: Change)
    ensures var r := Record(Reporter(map[], 0, 1, 0), change);
            && Numbered(r.pending)
            && Take(r, 1) == (Reporter(map[], 1, 2, 0), Some(StateUpdates(change.generation, 2, [(change.key, change.kind)])))
  {
    var r := Record(Reporter(map[], 0, 1, 0), change);
    assert r.pending == map[change.key := Pending(1, change)];
    SelectedIsBatch(r.pending, 1);
    var selected := Selected(r.pending, 1);
    assert change.key in r.pending && selected != [];
    assert selected[0].change.key in r.pending && r.pending[selected[0].change.key] == selected[0];
    assert selected == [Pending(1, change)];
    assert Without(r.pending, selected) == map[];
    assert StatesOf(selected) == [(change.key, change.kind)];
  }

  /** The exception happens: an expert that failed is loaded again, and the receiver still knows it
      as failed although nothing is pending. */
  lemma ForgottenStaysKnown(key: ExpertKey, generation: nat)
    ensures var change := Change(key, Failed("source"), generation);
            var s := StreamRun(OpenStream(Reporter(map[], 0, 0, 0), [], [], generation, []), [Recorded(change), TakeUpdates], 1);
            && s.reporter.pending == map[] && key in s.view
            && key !in ManagerStates([SetState(change), Forget(key)])
  {
    var change := Change(key, Failed("source"), generation);
    var open := OpenStream(Reporter(map[], 0, 0, 0), [], [], generation, []);
    assert open.reporter == Reporter(map[], 0, 1, 0);
    TwoSteps(open, Recorded(change), TakeUpdates, 1);
    TakeTheOnly(change);
    ApplyOne(open.view, key, change.kind);
    LatestTells([SetState(change), Forget(key)], key);
  }

  lemma TwoSteps(s: Stream, a: StreamEvent, b: StreamEvent, maxUpdates: nat)
    ensures StreamRun(s, [a, b], maxUpdates) == StreamStep(StreamStep(s, a, maxUpdates), b, maxUpdates)
  {
    assert [a, b][..1] == [a] && [a][..0] == [];
    assert StreamRun(s, [a], maxUpdates) == StreamStep(StreamRun(s, [], maxUpdates), a, maxUpdates);
  }

  lemma ApplyOne(view: States, key: ExpertKey, kind: Kind)
    ensures ApplyStates(view, [(key, kind)]) == view[key := kind]
  {
    assert [(key, kind)][..0] == [];
  }

  /** Report numbers grow from message to message; the parts of one snapshot share theirs. */
  ghost predicate SequencesOk(sent: seq<StateMessage>, last: nat) {
    && (forall i :: 0 <= i < |sent| ==> sent[i].sequence <= last)
    && (forall i, j :: 0 <= i < j < |sent| ==>
          sent[i].sequence < sent[j].sequence || (sent[i].FullState? && sent[j].FullState? && sent[i].sequence == sent[j].sequence))
  }

  lemma SequencesMore(sent: seq<StateMessage>, last: nat, message: StateMessage)
    requires SequencesOk(sent, last) && message.sequence == last + 1
    ensures SequencesOk(sent + [message], last + 1)
  {
  }

  lemma {:induction false} SequencesGrow(r: Reporter, history: seq<Change>, during: seq<Change>, generation: nat,
                                         states: seq<(ExpertKey, Kind)>, events: seq<StreamEvent>, maxUpdates: nat)
    ensures var s := StreamRun(OpenStream(r, history, during, generation, states), events, maxUpdates);
            SequencesOk(s.sent, s.reporter.lastSequence)
    decreases |events|
  {
    if events != [] {
      SequencesGrow(r, history, during, generation, states, events[..|events| - 1], maxUpdates);
      var before := StreamRun(OpenStream(r, history, during, generation, states), events[..|events| - 1], maxUpdates);
      SequencesStep(before, events[|events| - 1], maxUpdates);
    }
  }

  lemma SequencesStep(s: Stream, event: StreamEvent, maxUpdates: nat)
    requires SequencesOk(s.sent, s.reporter.lastSequence)
    ensures var next := StreamStep(s, event, maxUpdates); SequencesOk(next.sent, next.reporter.lastSequence)
  {
    if event.TakeUpdates? && Numbered(s.reporter.pending) {
      var (next, message) := Take(s.reporter, maxUpdates);
      if message.Some? { SequencesMore(s.sent, s.reporter.lastSequence, message.value); }
    }
  }

  // ---------------------------------------------------------------- acknowledgements

  ghost predicate WasSent(sent: seq<StateMessage>, n: nat) {
    exists i :: 0 <= i < |sent| && sent[i].sequence == n
  }

  /** Acknowledgements neither go back nor run ahead, and every number given out since `from` was sent. */
  ghost predicate AcksOk(s: Stream, from: nat, acked: nat) {
    && acked <= s.reporter.lastAck <= s.reporter.lastSequence
    && forall n: nat :: from < n <= s.reporter.lastSequence ==> WasSent(s.sent, n)
  }

  lemma SentMore(sent: seq<StateMessage>, message: StateMessage, n: nat)
    ensures WasSent(sent, n) ==> WasSent(sent + [message], n)
    ensures WasSent(sent + [message], message.sequence)
  {
    var more := sent + [message];
    assert more[|sent|] == message;
    if WasSent(sent, n) {
      var i :| 0 <= i < |sent| && sent[i].sequence == n;
      assert more[i] == sent[i];
    }
  }

  lemma AcksStep(s: Stream, event: StreamEvent, maxUpdates: nat, from: nat, acked: nat)
    requires AcksOk(s, from, acked)
    ensures AcksOk(StreamStep(s, event, maxUpdates), from, acked)
  {
    var after := StreamStep(s, event, maxUpdates);
    if event.TakeUpdates? && Numbered(s.reporter.pending) {
      var (next, message) := Take(s.reporter, maxUpdates);
      if message.Some? {
        forall n: nat | from < n <= next.lastSequence ensures WasSent(after.sent, n) { SentMore(s.sent, message.value, n); }
      }
    }
  }

  /** Over any stream the acknowledged number never goes back, never passes the last one given out,
      and names a report that was sent, on this stream if it is newer than the stream. */
  lemma {:induction false} AcknowledgedWasSent(r: Reporter, history: seq<Change>, during: seq<Change>, generation: nat,
                                               states: seq<(ExpertKey, Kind)>, events: seq<StreamEvent>, maxUpdates: nat)
    requires r.lastAck <= r.lastSequence
    ensures var s := StreamRun(OpenStream(r, history, during, generation, states), events, maxUpdates);
            && AcksOk(s, r.lastSequence, r.lastAck)
            && (s.reporter.lastAck > r.lastSequence ==> WasSent(s.sent, s.reporter.lastAck))
    decreases |events|
  {
    if events == [] {
      RecordAllNumbers(r, during);
      var s := OpenStream(r, history, during, generation, states);
      assert s.sent[0].sequence == r.lastSequence + 1;
    } else {
      AcknowledgedWasSent(r, history, during, generation, states, events[..|events| - 1], maxUpdates);
      var before := StreamRun(OpenStream(r, history, during, generation, states), events[..|events| - 1], maxUpdates);
      AcksStep(before, events[|events| - 1], maxUpdates, r.lastSequence, r.lastAck);
    }
  }

  lemma {:induction false} RecordAllNumbers(r: Reporter, changes: seq<Change>)
    ensures RecordAll(r, changes).lastSequence == r.lastSequence && RecordAll(r, changes).lastAck == r.lastAck
    decreases |changes|
  {
    if changes != [] { RecordAllNumbers(r, changes[..|changes| - 1]); }
  }

  // ---------------------------------------------------------------- the reporter object

  predicate DistinctStates(states: seq<(ExpertKey, Kind)>) {
    forall i, j :: 0 <= i < j < |states| ==> states[i].0 != states[j].0
  }

  lemma WithoutOneMore(pending: map<ExpertKey, Pending>, selected: seq<Pending>, n: nat)
    requires n < |selected| && selected[n].change.key in pending && pending[selected[n].change.key] == selected[n]
    requires forall i :: 0 <= i < n ==> selected[i] != selected[n]
    requires Numbered(pending)
    ensures var key := selected[n].change.key;
            && key in Without(pending, selected[..n])
            && Without(pending, selected[..n + 1]) == Without(pending, selected[..n]) - {key}
  {
    assert selected[..n + 1] == selected[..n] + [selected[n]];
  }

  class ExpertStateReporter {
    const layers: nat
    const experts: nat
    const maxUpdates: nat
    var pending: map<ExpertKey, Pending>
    var changeIndex: nat
    var lastSequence: nat
    var lastAck: nat
    ghost var history: seq<Change>

    function View(): Reporter reads this { Reporter(pending, changeIndex, lastSequence, lastAck) }

    /** At most one pending change per expert, and it is that expert's latest; nothing unsent is acknowledged. */
    ghost predicate Valid() reads this {
      0 < maxUpdates <= MAX_ENTRIES_PER_PART && PendingOk(View(), history) && lastAck <= lastSequence
    }

    constructor (layers: nat, experts: nat, maxUpdates: nat)
      requires 0 < maxUpdates <= MAX_ENTRIES_PER_PART
      ensures Valid() && View() == Reporter(map[], 0, 0, 0) && history == []
      ensures this.layers == layers && this.experts == experts && this.maxUpdates == maxUpdates
    {
      this.layers, this.experts, this.maxUpdates := layers, experts, maxUpdates;
      pending, changeIndex, lastSequence, lastAck, history := map[], 0, 0, 0, [];
    }

    predicate InShape(key: ExpertKey) { key.layer < layers && key.expert < experts }

    method RecordChange(change: Change) returns (ok: bool)
      requires Valid()
      modifies this
      ensures Valid() && ok == (change.generation > 0 && InShape(change.key))
      ensures View() == (if ok then Record(old(View()), change) else old(View()))
      ensures history == if ok then old(history) + [change] else old(history)
    {
      if change.generation == 0 || !InShape(change.key) { return false; }
      RecordKeepsPending(View(), history, change);
      changeIndex := changeIndex + 1;
      pending := pending[change.key := Pending(changeIndex, change)];
      history := history + [change];
      return true;
    }

    /** The snapshot must be in shape, without repeats, and its boundary not in the future. */
    method CheckStates(states: seq<(ExpertKey, Kind)>) returns (ok: bool)
      ensures ok == (DistinctStates(states) && forall i :: 0 <= i < |states| ==> InShape(states[i].0))
    {
      var seen: set<ExpertKey> := {};
      for n := 0 to |states|
        invariant DistinctStates(states[..n]) && forall i :: 0 <= i < n ==> InShape(states[i].0)
        invariant forall key :: key in seen <==> exists i :: 0 <= i < n && states[i].0 == key
      {
        if !InShape(states[n].0) { return false; }
        if states[n].0 in seen {
          var i :| 0 <= i < n && states[i].0 == states[n].0;
          return false;
        }
        seen := seen + {states[n].0};
      }
      return true;
    }

    method Discard(boundary: nat)
      modifies this`pending
      ensures pending == AfterBoundary(old(pending), boundary)
    {
      var before, todo := pending, pending.Keys;
      while todo != {}
        invariant todo <= before.Keys
        invariant pending == map key | key in before && (key in todo || before[key].index > boundary) :: before[key]
        decreases |todo|
      {
        var key :| key in todo;
        todo := todo - {key};
        if before[key].index <= boundary { pending := pending - {key}; }
      }
    }

    method FullStateParts(generation: nat, states: seq<(ExpertKey, Kind)>, boundary: nat) returns (r: Option<seq<StateMessage>>)
      requires Valid()
      modifies this
      ensures Valid() && history == old(history)
      ensures r.Some? == (generation > 0 && boundary <= old(changeIndex) && DistinctStates(states) &&
                          forall i :: 0 <= i < |states| ==> InShape(states[i].0))
      ensures r.None? ==> View() == old(View())
      ensures r.Some? ==> (View(), r.value) == Full(old(View()), generation, states, boundary)
    {
      if generation == 0 || boundary > changeIndex { return None; }
      var ok := CheckStates(states);
      if !ok { return None; }
      FullKeepsPending(View(), history, generation, states, boundary);
      Discard(boundary);
      lastSequence := lastSequence + 1;
      var messages := [];
      var count := PartCount(|states|);
      for i := 0 to count
        invariant |messages| == i
        invariant forall k :: 0 <= k < i ==> messages[k] == FullState(generation, lastSequence, k, count, Part(states, k))
      {
        messages := messages + [FullState(generation, lastSequence, i, count, Part(states, i))];
      }
      assert messages == FullParts(generation, lastSequence, states);
      return Some(messages);
    }

    /** Called when a size, delay or flush threshold is reached. */
    method TakeBatch() returns (message: Option<StateMessage>)
      requires Valid()
      modifies this
      ensures old(Numbered(pending)) && Valid() && history == old(history)
      ensures (View(), message) == Take(old(View()), maxUpdates)
    {
      PendingNumbered(View(), history);
      TakeKeepsPending(View(), history, maxUpdates);
      message := TakeReady();
    }

    method TakeReady() returns (message: Option<StateMessage>)
      requires Numbered(pending) && maxUpdates > 0
      modifies this`pending, this`lastSequence
      ensures View() == Take(old(View()), maxUpdates).0 && message == Take(old(View()), maxUpdates).1
    {
      SelectedIsBatch(pending, maxUpdates);
      var selected := Selected(pending, maxUpdates);
      if selected == [] { return None; }
      RemoveSelected(selected);
      lastSequence := lastSequence + 1;
      return Some(StateUpdates(selected[0].change.generation, lastSequence, StatesOf(selected)));
    }

    method RemoveSelected(selected: seq<Pending>)
      requires Numbered(pending) && BatchOk(selected, pending, maxUpdates)
      modifies this`pending
      ensures pending == Without(old(pending), selected)
    {
      ghost var before := pending;
      for n := 0 to |selected|
        invariant pending == Without(before, selected[..n])
      {
        WithoutOneMore(before, selected, n);
        pending := pending - {selected[n].change.key};
      }
      assert selected[..|selected|] == selected;
    }

    /** `None`: the acknowledgement names a report never sent, or goes back.  Otherwise it holds whether
        it says something new. */
    method AcknowledgeReport(sequence: nat) returns (advanced: Option<bool>)
      requires Valid()
      modifies this`lastAck
      ensures Valid() && View() == Acknowledge(old(View()), sequence).0
      ensures old(lastAck) <= lastAck <= lastSequence
      ensures advanced.Some? <==> 0 < sequence && old(lastAck) <= sequence <= lastSequence
      ensures advanced.Some? ==> lastAck == sequence
      ensures advanced == Some(true) <==> old(lastAck) < lastAck
      ensures advanced.None? ==> lastAck == old(lastAck)
    {
      if sequence == 0 || sequence > lastSequence || sequence < lastAck { return None; }
      advanced := Some(sequence != lastAck);
      lastAck := sequence;
    }
  }
}
