/** Target lists in parts: how the Controller cuts them and how a Worker puts them together. */
module TargetAssembler {
  import opened Topology
  import opened ControlParts
  import opened ControllerState

  const MAX_PART_BYTES: nat := 1024 * 1024

  datatype TargetPart = TargetPart(generation: nat, index: nat, count: nat, experts: seq<TargetExpert>)

  datatype PlacementTargets = PlacementTargets(generation: nat, experts: seq<TargetExpert>)

  datatype PartError =
    | GenerationNotPositive | CountOutOfBounds | IndexOutOfBounds | TooManyExperts | TooManyBytes
    | CountsDisagree | PartChanged | DuplicateExpert | TooManyTargets

  /** The parts of the newest generation received so far. */
  datatype Parts = Parts(count: nat, received: map<nat, TargetPart>)

  datatype Assembler = Assembler(generation: nat, current: Option<Parts>)

  /** Wire size of a part. */
  type Sizes = TargetPart -> nat

  /** The parts the Controller sends for one placement. */
  function TargetParts(generation: nat, targets: seq<TargetExpert>): (parts: seq<TargetPart>)
    ensures |parts| == PartCount(|targets|)
    ensures forall i :: 0 <= i < |parts| ==> parts[i] == TargetPart(generation, i, PartCount(|targets|), Part(targets, i))
  {
    var count := PartCount(|targets|);
    seq(count, i requires 0 <= i < count => TargetPart(generation, i, count, Part(targets, i)))
  }

  function PartRefusal(part: TargetPart, maxExperts: nat, size: Sizes): Option<PartError> {
    if part.count == 0 || part.count > maxExperts then Some(CountOutOfBounds)
    else if part.index >= part.count then Some(IndexOutOfBounds)
    else if |part.experts| > MAX_ENTRIES_PER_PART then Some(TooManyExperts)
    else if size(part) > MAX_PART_BYTES then Some(TooManyBytes)
    else None
  }

  function Listed(received: map<nat, TargetPart>, count: nat): (listed: seq<seq<TargetExpert>>)
    ensures |listed| == count
    ensures forall i :: 0 <= i < count ==> listed[i] == if i in received then received[i].experts else []
  {
    seq(count, i requires 0 <= i < count => if i in received then received[i].experts else [])
  }

  /** The kept parts in index order. */
  function JoinedTargets(received: map<nat, TargetPart>, count: nat): seq<TargetExpert> {
    Flatten(Listed(received, count))
  }

  predicate DistinctTargets(targets: seq<TargetExpert>) {
    forall i, j :: 0 <= i < j < |targets| ==> targets[i].key != targets[j].key
  }

  /** A complete set of parts. */
  function Finished(generation: nat, parts: Parts, maxExperts: nat): Result<Option<PlacementTargets>, PartError> {
    var targets := JoinedTargets(parts.received, parts.count);
    if !DistinctTargets(targets) then Err(DuplicateExpert)
    else if |targets| > maxExperts then Err(TooManyTargets)
    else Ok(Some(PlacementTargets(generation, targets)))
  }

  /** The parts kept for the generation of `part`: a newer generation starts over. */
  function CurrentParts(a: Assembler, part: TargetPart): Parts {
    if part.generation > a.generation || a.current.None? then Parts(part.count, map[]) else a.current.value
  }

  function Receive(parts: Parts, part: TargetPart): Parts {
    if part.index in parts.received then parts else parts.(received := parts.received[part.index := part])
  }

  /** One part: a complete list, nothing yet, or an error. */
  function AddPart(a: Assembler, part: TargetPart, maxExperts: nat, size: Sizes)
    : (Assembler, Result<Option<PlacementTargets>, PartError>)
  {
    if part.generation == 0 then (a, Err(GenerationNotPositive))
    else if part.generation < a.generation then (a, Ok(None))
    else if PartRefusal(part, maxExperts, size).Some? then (a, Err(PartRefusal(part, maxExperts, size).value))
    else
      var parts := CurrentParts(a, part);
      var newest := Assembler(part.generation, Some(parts));
      if parts.count != part.count then (newest, Err(CountsDisagree))
      else if part.index in parts.received && parts.received[part.index] != part then (newest, Err(PartChanged))
      else
        var grown := Receive(parts, part);
        (Assembler(part.generation, Some(grown)),
         if |grown.received| != grown.count then Ok(None) else Finished(part.generation, grown, maxExperts))
  }

  // ---------------------------------------------------------------- what one part does

  /** A part within the Worker's expert bound and the wire limits. */
  ghost predicate PartFits(part: TargetPart, maxExperts: nat, size: Sizes) {
    part.index < part.count <= maxExperts && |part.experts| <= 64 && size(part) <= 1024 * 1024
  }

  /** The retained parts of the part's generation; a newer generation starts over. */
  ghost predicate Retains(a: Assembler, part: TargetPart, received: map<nat, TargetPart>) {
    received == if part.generation == a.generation && a.current.Some? then a.current.value.received else map[]
  }

  /** The part contradicts what is retained of its generation. */
  ghost predicate Contradicts(a: Assembler, part: TargetPart) {
    && part.generation == a.generation && a.current.Some?
    && (a.current.value.count != part.count || (part.index in a.current.value.received && a.current.value.received[part.index] != part))
  }

  /** A part without a generation, one that does not fit, or one that contradicts an earlier one is an
      error and changes nothing; one of an older generation is ignored. */
  lemma PartRefused(a: Assembler, part: TargetPart, maxExperts: nat, size: Sizes)
    ensures var (after, r) := AddPart(a, part, maxExperts, size);
            && (part.generation == 0 ==> after == a && r == Err(GenerationNotPositive))
            && (0 < part.generation < a.generation ==> after == a && r == Ok(None))
            && (part.generation > 0 && part.generation >= a.generation && !PartFits(part, maxExperts, size) ==> after == a && r.Err?)
            && (part.generation > 0 && part.generation >= a.generation && PartFits(part, maxExperts, size) && Contradicts(a, part) ==>
                  after == a && r == Err(if a.current.value.count != part.count then CountsDisagree else PartChanged))
  {
  }

  /** Any other part is retained; the last missing one completes the list, which must name each expert
      once and fit the Worker. */
  lemma PartRetained(a: Assembler, part: TargetPart, received: map<nat, TargetPart>, maxExperts: nat, size: Sizes)
    requires part.generation > 0 && part.generation >= a.generation && PartFits(part, maxExperts, size) && !Contradicts(a, part)
    requires Retains(a, part, received) && forall i :: i in received ==> i < part.count
    ensures var (after, r) := AddPart(a, part, maxExperts, size);
            var all := received[part.index := part];
            && after == Assembler(part.generation, Some(Parts(part.count, all)))
            && ((exists i: nat :: i < part.count && i !in all) ==> r == Ok(None))
            && ((forall i: nat :: i < part.count ==> i in all) ==>
                  var list := JoinedTargets(all, part.count);
                  r == if exists i, j :: 0 <= i < j < |list| && list[i].key == list[j].key then Err(DuplicateExpert)
                       else if |list| > maxExperts then Err(TooManyTargets)
                       else Ok(Some(PlacementTargets(part.generation, list))))
  {
    var all := received[part.index := part];
    assert |all| == |all.Keys|;
    CountedIndexes(all.Keys, part.count);
    var grown := Receive(CurrentParts(a, part), part);
    assert grown == Parts(part.count, all);
  }

  // ---------------------------------------------------------------- any order, repeats, stale parts

  predicate IsPartOf(part: TargetPart, generation: nat, targets: seq<TargetExpert>) {
    part.index < PartCount(|targets|) && part == TargetParts(generation, targets)[part.index]
  }

  /** A part of an older generation, whatever it holds. */
  predicate IsStale(part: TargetPart, generation: nat) { 0 < part.generation < generation }

  function FeedAll(a: Assembler, feed: seq<TargetPart>, maxExperts: nat, size: Sizes): Assembler {
    if feed == [] then a
    else AddPart(FeedAll(a, feed[..|feed| - 1], maxExperts, size), feed[|feed| - 1], maxExperts, size).0
  }

  /** The answer to part `n` of a feed. */
  function Answer(a: Assembler, feed: seq<TargetPart>, n: nat, maxExperts: nat, size: Sizes): Result<Option<PlacementTargets>, PartError>
    requires n < |feed|
  {
    AddPart(FeedAll(a, feed[..n], maxExperts, size), feed[n], maxExperts, size).1
  }

  predicate IsList(r: Result<Option<PlacementTargets>, PartError>) { r.Ok? && r.value.Some? }

  lemma {:induction false} FeedGrows(a: Assembler, feed: seq<TargetPart>, m: nat, n: nat, maxExperts: nat, size: Sizes)
    requires m <= n <= |feed|
    ensures FeedAll(a, feed[..m], maxExperts, size).generation <= FeedAll(a, feed[..n], maxExperts, size).generation
    decreases n
  {
    if m < n {
      FeedGrows(a, feed, m, n - 1, maxExperts, size);
      assert feed[..n][..n - 1] == feed[..n - 1];
      AddedIsNewest(FeedAll(a, feed[..n - 1], maxExperts, size), feed[n - 1], maxExperts, size);
    }
  }

  lemma AddedIsNewest(a: Assembler, part: TargetPart, maxExperts: nat, size: Sizes)
    ensures var (next, r) := AddPart(a, part, maxExperts, size);
            && next.generation >= a.generation
            && (IsList(r) ==> r.value.value.generation == next.generation == part.generation > 0)
  {
  }

  lemma AnswerIsNewest(a: Assembler, feed: seq<TargetPart>, n: nat, maxExperts: nat, size: Sizes)
    requires n < |feed| && IsList(Answer(a, feed, n, maxExperts, size))
    ensures 0 < Answer(a, feed, n, maxExperts, size).value.value.generation == FeedAll(a, feed[..n + 1], maxExperts, size).generation
    ensures Answer(a, feed, n, maxExperts, size).value.value.generation == feed[n].generation
  {
    assert feed[..n + 1][..n] == feed[..n];
    AddedIsNewest(FeedAll(a, feed[..n], maxExperts, size), feed[n], maxExperts, size);
  }

  /** Whatever is fed, in whatever order: the lists that come out never go back to an older placement. */
  lemma NeverGoesBack(a: Assembler, feed: seq<TargetPart>, m: nat, n: nat, maxExperts: nat, size: Sizes)
    requires m <= n < |feed| && IsList(Answer(a, feed, m, maxExperts, size)) && IsList(Answer(a, feed, n, maxExperts, size))
    ensures 0 < Answer(a, feed, m, maxExperts, size).value.value.generation <= Answer(a, feed, n, maxExperts, size).value.value.generation
  {
    AnswerIsNewest(a, feed, m, maxExperts, size);
    AnswerIsNewest(a, feed, n, maxExperts, size);
    FeedGrows(a, feed, m + 1, n + 1, maxExperts, size);
  }

  /** The target list of every placement generation. */
  type Lists = nat -> seq<TargetExpert>

  predicate IsFrom(lists: Lists, part: TargetPart) { IsPartOf(part, part.generation, lists(part.generation)) }

  ghost predicate PartsOf(parts: Parts, generation: nat, list: seq<TargetExpert>) {
    && parts.count == PartCount(|list|)
    && forall i :: i in parts.received ==> i < parts.count && parts.received[i] == TargetParts(generation, list)[i]
  }

  /** What is kept are parts of one placement. */
  ghost predicate KeptFrom(lists: Lists, a: Assembler) {
    a.current.Some? ==> PartsOf(a.current.value, a.generation, lists(a.generation))
  }

  lemma FinishedIsOriginal(parts: Parts, generation: nat, list: seq<TargetExpert>, maxExperts: nat)
    requires PartsOf(parts, generation, list) && |parts.received| == parts.count
    ensures IsList(Finished(generation, parts, maxExperts)) ==> Finished(generation, parts, maxExperts) == Ok(Some(PlacementTargets(generation, list)))
  {
    assert |parts.received| == |parts.received.Keys|;
    CountedIndexes(parts.received.Keys, parts.count);
    JoinedIsOriginal(parts.received, generation, list);
  }

  lemma AddKeepsFrom(lists: Lists, a: Assembler, part: TargetPart, maxExperts: nat, size: Sizes)
    requires KeptFrom(lists, a) && IsFrom(lists, part)
    ensures var (next, r) := AddPart(a, part, maxExperts, size);
            KeptFrom(lists, next) && (IsList(r) ==> r.value.value.experts == lists(r.value.value.generation))
  {
    if part.generation >= a.generation {
      var list, parts := lists(part.generation), CurrentParts(a, part);
      assert PartsOf(parts, part.generation, list);
      var grown := Receive(parts, part);
      assert grown.count == parts.count && PartsOf(grown, part.generation, list);
      if |grown.received| == grown.count { FinishedIsOriginal(grown, part.generation, list, maxExperts); }
    }
  }

  lemma {:induction false} FeedKeepsFrom(lists: Lists, a: Assembler, feed: seq<TargetPart>, maxExperts: nat, size: Sizes)
    requires KeptFrom(lists, a) && forall k :: 0 <= k < |feed| ==> IsFrom(lists, feed[k])
    ensures KeptFrom(lists, FeedAll(a, feed, maxExperts, size))
    decreases |feed|
  {
    if feed != [] {
      FeedKeepsFrom(lists, a, feed[..|feed| - 1], maxExperts, size);
      AddKeepsFrom(lists, FeedAll(a, feed[..|feed| - 1], maxExperts, size), feed[|feed| - 1], maxExperts, size);
    }
  }

  /** Parts of any placements in any order: what comes out is one of their lists, whole. */
  lemma ListsAreOriginal(lists: Lists, a: Assembler, feed: seq<TargetPart>, n: nat, maxExperts: nat, size: Sizes)
    requires KeptFrom(lists, a) && n < |feed| && forall k :: 0 <= k < |feed| ==> IsFrom(lists, feed[k])
    ensures var r := Answer(a, feed, n, maxExperts, size);
            IsList(r) ==> r.value.value.experts == lists(r.value.value.generation)
  {
    FeedKeepsFrom(lists, a, feed[..n], maxExperts, size);
    AddKeepsFrom(lists, FeedAll(a, feed[..n], maxExperts, size), feed[n], maxExperts, size);
  }

  /** The first part is one of the list; from then on its parts come in any order and as often as
      they like, with parts of older generations between them. */
  ghost predicate FeedOf(feed: seq<TargetPart>, generation: nat, targets: seq<TargetExpert>) {
    && feed != [] && IsPartOf(feed[0], generation, targets)
    && forall k :: 0 <= k < |feed| ==> IsPartOf(feed[k], generation, targets) || IsStale(feed[k], generation)
  }

  ghost predicate Arrived(feed: seq<TargetPart>, generation: nat, targets: seq<TargetExpert>, index: nat) {
    exists k :: 0 <= k < |feed| && IsPartOf(feed[k], generation, targets) && feed[k].index == index
  }

  /** A list the Worker can hold, in parts its transport can carry. */
  ghost predicate Fits(generation: nat, targets: seq<TargetExpert>, maxExperts: nat, size: Sizes) {
    && 0 < generation && |targets| <= maxExperts && 0 < maxExperts && DistinctTargets(targets)
    && forall i :: 0 <= i < PartCount(|targets|) ==> size(TargetParts(generation, targets)[i]) <= MAX_PART_BYTES
  }

  lemma CountFits(n: nat, maxExperts: nat)
    requires n <= maxExperts && 0 < maxExperts
    ensures PartCount(n) <= maxExperts
  {
  }

  lemma PartAccepted(part: TargetPart, generation: nat, targets: seq<TargetExpert>, maxExperts: nat, size: Sizes)
    requires Fits(generation, targets, maxExperts, size) && IsPartOf(part, generation, targets)
    ensures PartRefusal(part, maxExperts, size).None? && part.generation == generation && part.count == PartCount(|targets|)
  {
    CountFits(|targets|, maxExperts);
    assert size(TargetParts(generation, targets)[part.index]) <= MAX_PART_BYTES;
  }

  /** What is kept is exactly the parts that arrived. */
  ghost predicate Holds(a: Assembler, feed: seq<TargetPart>, generation: nat, targets: seq<TargetExpert>) {
    && a.generation == generation && a.current.Some? && a.current.value.count == PartCount(|targets|)
    && (forall i :: i in a.current.value.received ==>
          i < PartCount(|targets|) && a.current.value.received[i] == TargetParts(generation, targets)[i])
    && (forall i: nat :: i in a.current.value.received <==> Arrived(feed, generation, targets, i))
  }

  lemma ArrivedMore(feed: seq<TargetPart>, part: TargetPart, generation: nat, targets: seq<TargetExpert>, i: nat)
    ensures Arrived(feed + [part], generation, targets, i)
            <==> Arrived(feed, generation, targets, i) || (IsPartOf(part, generation, targets) && part.index == i)
  {
    var more := feed + [part];
    if Arrived(feed, generation, targets, i) {
      var k :| 0 <= k < |feed| && IsPartOf(feed[k], generation, targets) && feed[k].index == i;
      assert more[k] == feed[k];
    }
    if IsPartOf(part, generation, targets) && part.index == i { assert more[|feed|] == part; }
  }

  lemma FirstPart(a: Assembler, part: TargetPart, generation: nat, targets: seq<TargetExpert>, maxExperts: nat, size: Sizes)
    requires Fits(generation, targets, maxExperts, size) && IsPartOf(part, generation, targets) && a.generation < generation
    ensures Holds(AddPart(a, part, maxExperts, size).0, [part], generation, targets)
  {
    PartAccepted(part, generation, targets, maxExperts, size);
    forall i: nat ensures Arrived([part], generation, targets, i) <==> i == part.index {
      assert [] + [part] == [part];
      ArrivedMore([], part, generation, targets, i);
    }
  }

  lemma NextPart(a: Assembler, feed: seq<TargetPart>, part: TargetPart, generation: nat, targets: seq<TargetExpert>, maxExperts: nat, size: Sizes)
    requires Fits(generation, targets, maxExperts, size) && Holds(a, feed, generation, targets)
    requires IsPartOf(part, generation, targets) || IsStale(part, generation)
    ensures Holds(AddPart(a, part, maxExperts, size).0, feed + [part], generation, targets)
  {
    if IsPartOf(part, generation, targets) { PartAccepted(part, generation, targets, maxExperts, size); }
    forall i: nat
      ensures Arrived(feed + [part], generation, targets, i)
              <==> Arrived(feed, generation, targets, i) || (IsPartOf(part, generation, targets) && part.index == i)
    {
      ArrivedMore(feed, part, generation, targets, i);
    }
  }

  lemma {:induction false} FeedHolds(a: Assembler, feed: seq<TargetPart>, generation: nat, targets: seq<TargetExpert>, maxExperts: nat, size: Sizes)
    requires Fits(generation, targets, maxExperts, size) && FeedOf(feed, generation, targets) && a.generation < generation
    ensures Holds(FeedAll(a, feed, maxExperts, size), feed, generation, targets)
    decreases |feed|
  {
    var front, last := feed[..|feed| - 1], feed[|feed| - 1];
    assert feed == front + [last];
    if front == [] {
      FirstPart(a, last, generation, targets, maxExperts, size);
    } else {
      FeedHolds(a, front, generation, targets, maxExperts, size);
      NextPart(FeedAll(a, front, maxExperts, size), front, last, generation, targets, maxExperts, size);
    }
  }

  /** All parts kept: joined in index order they are the original list. */
  lemma JoinedIsOriginal(received: map<nat, TargetPart>, generation: nat, targets: seq<TargetExpert>)
    requires forall i :: 0 <= i < PartCount(|targets|) ==> i in received && received[i] == TargetParts(generation, targets)[i]
    ensures JoinedTargets(received, PartCount(|targets|)) == targets
  {
    var count := PartCount(|targets|);
    assert Listed(received, count) == SplitParts(targets);
    PartsRejoin(targets);
  }

  ghost predicate AllArrived(feed: seq<TargetPart>, generation: nat, targets: seq<TargetExpert>) {
    forall i: nat :: i < PartCount(|targets|) ==> Arrived(feed, generation, targets, i)
  }

  lemma CompleteMeansAll(a: Assembler, feed: seq<TargetPart>, generation: nat, targets: seq<TargetExpert>)
    requires Holds(a, feed, generation, targets)
    ensures |a.current.value.received| == PartCount(|targets|) <==> AllArrived(feed, generation, targets)
  {
    var received, count := a.current.value.received, PartCount(|targets|);
    CountedIndexes(received.Keys, count);
    assert |received| == |received.Keys|;
    if AllArrived(feed, generation, targets) {
      assert forall i: nat :: i < count ==> i in received.Keys;
    }
  }

  /** The answer to the last part of any feed: the original list exactly when that part belongs to it
      and nothing is missing any more; otherwise nothing, and never an error. */
  lemma TargetsArriveExactly(a: Assembler, feed: seq<TargetPart>, part: TargetPart, generation: nat, targets: seq<TargetExpert>,
                             maxExperts: nat, size: Sizes)
    requires Fits(generation, targets, maxExperts, size) && a.generation < generation
    requires FeedOf(feed + [part], generation, targets)
    ensures AddPart(FeedAll(a, feed, maxExperts, size), part, maxExperts, size).1
            == if IsPartOf(part, generation, targets) && AllArrived(feed + [part], generation, targets)
               then Ok(Some(PlacementTargets(generation, targets))) else Ok(None)
  {
    var before := FeedAll(a, feed, maxExperts, size);
    assert (feed + [part])[..|feed|] == feed;
    FeedHolds(a, feed + [part], generation, targets, maxExperts, size);
    if feed != [] {
      forall k | 0 <= k < |feed| ensures IsPartOf(feed[k], generation, targets) || IsStale(feed[k], generation) {
        assert (feed + [part])[k] == feed[k];
      }
      assert (feed + [part])[0] == feed[0];
      FeedHolds(a, feed, generation, targets, maxExperts, size);
    }
    if IsPartOf(part, generation, targets) {
      LastPart(a, before, feed, part, generation, targets, maxExperts, size);
    }
  }

  lemma LastPart(a: Assembler, before: Assembler, feed: seq<TargetPart>, part: TargetPart, generation: nat, targets: seq<TargetExpert>,
                 maxExperts: nat, size: Sizes)
    requires Fits(generation, targets, maxExperts, size) && IsPartOf(part, generation, targets)
    requires before.generation < generation || Holds(before, feed, generation, targets)
    requires Holds(AddPart(before, part, maxExperts, size).0, feed + [part], generation, targets)
    ensures AddPart(before, part, maxExperts, size).1
            == if AllArrived(feed + [part], generation, targets) then Ok(Some(PlacementTargets(generation, targets))) else Ok(None)
  {
    PartAccepted(part, generation, targets, maxExperts, size);
    var after := AddPart(before, part, maxExperts, size).0;
    var grown := Receive(CurrentParts(before, part), part);
    assert after == Assembler(generation, Some(grown));
    CompleteMeansAll(after, feed + [part], generation, targets);
    if AllArrived(feed + [part], generation, targets) {
      JoinedIsOriginal(grown.received, generation, targets);
      assert Finished(generation, grown, maxExperts) == Ok(Some(PlacementTargets(generation, targets)));
    }
  }

  // ---------------------------------------------------------------- the assembler object

  function TargetKeys(targets: seq<TargetExpert>): set<ExpertKey> {
    set i | 0 <= i < |targets| :: targets[i].key
  }

  lemma DistinctPrefix(targets: seq<TargetExpert>, more: seq<TargetExpert>)
    requires DistinctTargets(targets + more)
    ensures DistinctTargets(targets)
  {
    forall i, j | 0 <= i < j < |targets| ensures targets[i].key != targets[j].key {
      assert (targets + more)[i] == targets[i] && (targets + more)[j] == targets[j];
    }
  }

  lemma {:induction false} DistinctParts(listed: seq<seq<TargetExpert>>, n: nat)
    requires n <= |listed| && DistinctTargets(Flatten(listed))
    ensures DistinctTargets(Flatten(listed[..n]))
    decreases |listed|
  {
    if n == |listed| {
      assert listed[..n] == listed;
    } else {
      var front := listed[..|listed| - 1];
      DistinctPrefix(Flatten(front), listed[|listed| - 1]);
      assert front[..n] == listed[..n];
      DistinctParts(front, n);
    }
  }

  lemma RepeatStays(listed: seq<seq<TargetExpert>>, n: nat)
    requires n <= |listed| && !DistinctTargets(Flatten(listed[..n]))
    ensures !DistinctTargets(Flatten(listed))
  {
    if DistinctTargets(Flatten(listed)) { DistinctParts(listed, n); }
  }

  lemma FlattenOneMore(listed: seq<seq<TargetExpert>>, n: nat)
    requires n < |listed|
    ensures Flatten(listed[..n + 1]) == Flatten(listed[..n]) + listed[n]
  {
    assert listed[..n + 1][..n] == listed[..n];
  }

  lemma KeysOneMore(targets: seq<TargetExpert>, target: TargetExpert)
    ensures TargetKeys(targets + [target]) == TargetKeys(targets) + {target.key}
  {
    var more := targets + [target];
    forall key | key in TargetKeys(targets) + {target.key} ensures key in TargetKeys(more) {
      if key == target.key {
        assert more[|targets|].key == key;
      } else {
        var i :| 0 <= i < |targets| && targets[i].key == key;
        assert more[i].key == key;
      }
    }
  }

  class TargetListAssembler {
    const maxExperts: nat
    const size: Sizes
    var generation: nat
    var current: Option<Parts>

    function View(): Assembler reads this { Assembler(generation, current) }

    /** Kept parts carry indexes of their list. */
    ghost predicate Valid() reads this {
      current.Some? ==> forall i :: i in current.value.received ==> i < current.value.count
    }

    constructor (maxExperts: nat, size: Sizes)
      requires maxExperts > 0
      ensures Valid() && View() == Assembler(0, None) && this.maxExperts == maxExperts && this.size == size
    {
      this.maxExperts, this.size := maxExperts, size;
      generation, current := 0, None;
    }

    /** Append the targets of one part, stopping at the first repeated expert. */
    method AppendTargets(targets: seq<TargetExpert>, keys: set<ExpertKey>, more: seq<TargetExpert>)
      returns (r: seq<TargetExpert>, seen: set<ExpertKey>, distinct: bool)
      requires DistinctTargets(targets) && keys == TargetKeys(targets)
      ensures distinct <==> DistinctTargets(targets + more)
      ensures distinct ==> r == targets + more && seen == TargetKeys(r)
    {
      r, seen := targets, keys;
      for n := 0 to |more|
        invariant r == targets + more[..n] && DistinctTargets(r) && seen == TargetKeys(r)
      {
        KeysOneMore(r, more[n]);
        if more[n].key in seen {
          var i :| 0 <= i < |r| && r[i].key == more[n].key;
          assert (targets + more)[i] == r[i] && (targets + more)[|r|] == more[n];
          return r, seen, false;
        }
        r, seen := r + [more[n]], seen + {more[n].key};
      }
      assert more[..|more|] == more;
      distinct := true;
    }

    method Collect(parts: Parts) returns (r: Result<Option<PlacementTargets>, PartError>)
      requires forall i :: 0 <= i < parts.count ==> i in parts.received
      ensures r == Finished(generation, parts, maxExperts)
    {
      var targets, seen, distinct := [], {}, true;
      ghost var listed := Listed(parts.received, parts.count);
      for n := 0 to parts.count
        invariant targets == Flatten(listed[..n]) && DistinctTargets(targets) && seen == TargetKeys(targets)
      {
        FlattenOneMore(listed, n);
        targets, seen, distinct := AppendTargets(targets, seen, parts.received[n].experts);
        if !distinct {
          RepeatStays(listed, n + 1);
          return Err(DuplicateExpert);
        }
      }
      assert listed[..parts.count] == listed;
      if |targets| > maxExperts { return Err(TooManyTargets); }
      return Ok(Some(PlacementTargets(generation, targets)));
    }

    method Add(part: TargetPart) returns (r: Result<Option<PlacementTargets>, PartError>)
      requires Valid()
      modifies this
      ensures Valid() && (View(), r) == AddPart(old(View()), part, maxExperts, size)
    {
      if part.generation == 0 { return Err(GenerationNotPositive); }
      if part.generation < generation { return Ok(None); }
      var refusal := PartRefusal(part, maxExperts, size);
      if refusal.Some? { return Err(refusal.value); }
      if part.generation > generation || current.None? {
        generation, current := part.generation, Some(Parts(part.count, map[]));
      }
      var parts := current.value;
      if parts.count != part.count { return Err(CountsDisagree); }
      if part.index in parts.received && parts.received[part.index] != part { return Err(PartChanged); }
      if part.index !in parts.received {
        parts := parts.(received := parts.received[part.index := part]);
        current := Some(parts);
      }
      if |parts.received| != parts.count { return Ok(None); }
      assert |parts.received| == |parts.received.Keys|;
      CountedIndexes(parts.received.Keys, parts.count);
      r := Collect(parts);
    }
  }
}
