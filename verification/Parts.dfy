/** Bounded parts of a control message: every list the Controller sends is cut into parts of at
    most 64 entries, and an empty list still travels as one empty part. */
module ControlParts {

  const MAX_ENTRIES_PER_PART: nat := 64

  function Min(a: int, b: int): int { if a <= b then a else b }

  /** ceil(n / 64), but at least one. */
  function PartCount(n: nat): (count: nat)
    ensures count >= 1
    ensures n <= count * MAX_ENTRIES_PER_PART
    ensures count == 1 || (count - 1) * MAX_ENTRIES_PER_PART < n
  {
    var c := (n + MAX_ENTRIES_PER_PART - 1) / MAX_ENTRIES_PER_PART;
    if c < 1 then 1 else c
  }

  function Part<T>(entries: seq<T>, index: nat): (part: seq<T>)
    requires index < PartCount(|entries|)
    ensures |part| <= MAX_ENTRIES_PER_PART
  {
    var start := index * MAX_ENTRIES_PER_PART;
    var end := Min(start + MAX_ENTRIES_PER_PART, |entries|);
    entries[start..end]
  }

  function Flatten<T>(parts: seq<seq<T>>): seq<T> {
    if parts == [] then [] else Flatten(parts[..|parts| - 1]) + parts[|parts| - 1]
  }

  function SplitParts<T>(entries: seq<T>): (parts: seq<seq<T>>)
    ensures |parts| == PartCount(|entries|)
  {
    seq(PartCount(|entries|), i requires 0 <= i < PartCount(|entries|) => Part(entries, i))
  }

  lemma {:induction false} PrefixOfParts<T>(entries: seq<T>, n: nat)
    requires n <= PartCount(|entries|)
    ensures Flatten(SplitParts(entries)[..n]) == entries[..Min(n * MAX_ENTRIES_PER_PART, |entries|)]
    decreases n
  {
    var parts := SplitParts(entries);
    if n > 0 {
      PrefixOfParts(entries, n - 1);
      assert parts[..n][..n - 1] == parts[..n - 1];
      assert parts[..n][n - 1] == Part(entries, n - 1);
    }
  }

  /** Joining the parts in index order gives back the whole list. */
  lemma PartsRejoin<T>(entries: seq<T>)
    ensures Flatten(SplitParts(entries)) == entries
  {
    PrefixOfParts(entries, PartCount(|entries|));
    assert SplitParts(entries)[..PartCount(|entries|)] == SplitParts(entries);
  }

  /** As many indexes below `count` as `count`: all of them. */
  lemma {:induction false} CountedIndexes(s: set<nat>, count: nat)
    requires forall i :: i in s ==> i < count
    ensures |s| <= count
    ensures |s| == count <==> forall i: nat :: i < count ==> i in s
    decreases count
  {
    if count == 0 {
      assert s == {};
    } else {
      var rest := s - {count - 1};
      CountedIndexes(rest, count - 1);
      assert forall i: nat :: i < count - 1 ==> (i in rest <==> i in s);
      if count - 1 in s { assert |rest| == |s| - 1; } else { assert rest == s; }
    }
  }
}
