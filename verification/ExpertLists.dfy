/** Exact expert lists per row chunk, from one flat histogram. */
module ExpertLists {
  import opened Arithmetic
  import opened RoutedBatch

  function ChunkCount(rows: nat, size: nat): nat
    requires size > 0
  {
    (rows + size - 1) / size
  }

  function ChunkStop(rows: nat, size: nat, c: nat): nat {
    if c * size + size <= rows then c * size + size else rows
  }

  /** Rows `c * size` up to the next chunk. */
  function Chunk(rows: seq<Row>, size: nat, c: nat): seq<Row>
    requires c * size <= |rows|
  {
    rows[c * size..ChunkStop(|rows|, size, c)]
  }

  lemma ChunkStarts(rows: nat, size: nat, c: nat)
    requires size > 0 && c < ChunkCount(rows, size)
    ensures c * size < rows
  {
    MulOrder(c, ChunkCount(rows, size), size);
  }

  lemma ChunkOfRow(row: nat, size: nat, c: nat)
    requires size > 0
    ensures row / size == c <==> c * size <= row < c * size + size
  {
    var q := row / size;
    assert q * size <= row < q * size + size;
    if q < c { MulOrder(q, c, size); }
    if q > c { MulOrder(c, q, size); }
  }

  lemma RowHasChunk(row: nat, rows: nat, size: nat)
    requires size > 0 && row < rows
    ensures row / size < ChunkCount(rows, size)
  {
    var q, count := row / size, ChunkCount(rows, size);
    assert rows + size - 1 < count * size + size;
    assert q * size <= row;
    if count < q { MulOrder(count, q, size); }
  }

  /** Position of expert `e` of chunk `c` in the flat count buffer. */
  function Flat(c: nat, e: nat, width: nat): nat { c * width + e }

  lemma FlatInRange(c: nat, e: nat, width: nat, count: nat)
    requires c < count && e < width
    ensures Flat(c, e, width) < count * width
  {
    MulOrder(c, count, width);
  }

  /** Different experts or chunks never share a counter. */
  lemma FlatInjective(c: nat, e: nat, d: nat, g: nat, width: nat)
    requires e < width && g < width && Flat(c, e, width) == Flat(d, g, width)
    ensures c == d && e == g
  {
    if c < d { MulOrder(c, d, width); }
    if d < c { MulOrder(d, c, width); }
  }

  ghost predicate InRow(row: Row, k: nat, e: nat) {
    exists s :: 0 <= s < k && s < |row| && row[s].expert == e
  }

  /** Some row before `n` that falls into chunk `c` names `e`. */
  ghost predicate Seen(rows: seq<Row>, n: nat, size: nat, c: nat, e: nat)
    requires size > 0
  {
    exists r :: 0 <= r < n && r < |rows| && r / size == c && InRow(rows[r], |rows[r]|, e)
  }

  /** Count the assignments of one row into the counters of its chunk. */
  method CountRow(counts: array<nat>, row: Row, base: nat, width: nat)
    requires base + width <= counts.Length && width > 0
    requires forall s :: 0 <= s < |row| ==> row[s].expert < width
    modifies counts
    ensures forall i :: 0 <= i < counts.Length ==>
                          (counts[i] > 0 <==> old(counts[i]) > 0 || (i >= base && InRow(row, |row|, i - base)))
  {
    for k := 0 to |row|
      invariant forall i :: 0 <= i < counts.Length ==>
                              (counts[i] > 0 <==> old(counts[i]) > 0 || (i >= base && InRow(row, k, i - base)))
    {
      var safe := if row[k].expert >= 0 then row[k].expert else 0;
      var one := if row[k].expert >= 0 then 1 else 0;
      counts[base + safe] := counts[base + safe] + one;
      forall e: nat ensures InRow(row, k + 1, e) <==> InRow(row, k, e) || row[k].expert == e {
      }
    }
  }

  lemma SeenStep(rows: seq<Row>, n: nat, size: nat, c: nat, e: nat)
    requires size > 0 && n < |rows|
    ensures Seen(rows, n + 1, size, c, e) <==> Seen(rows, n, size, c, e) || (n / size == c && InRow(rows[n], |rows[n]|, e))
  {
  }

  lemma SeenGivesName(rows: seq<Row>, size: nat, c: nat, e: nat)
    requires size > 0 && c * size <= |rows| && Seen(rows, |rows|, size, c, e)
    ensures Names(Chunk(rows, size, c), e)
  {
    var chunk := Chunk(rows, size, c);
    var r :| 0 <= r < |rows| && r / size == c && InRow(rows[r], |rows[r]|, e);
    ChunkOfRow(r, size, c);
    assert chunk[r - c * size] == rows[r];
    var s :| 0 <= s < |rows[r]| && rows[r][s].expert == e;
    assert chunk[r - c * size][s].expert == e;
  }

  lemma NameGivesSeen(rows: seq<Row>, size: nat, c: nat, e: nat)
    requires size > 0 && c * size <= |rows| && Names(Chunk(rows, size, c), e)
    ensures Seen(rows, |rows|, size, c, e)
  {
    var chunk: seq<Row> := Chunk(rows, size, c);
    var i, s :| 0 <= i < |chunk| && 0 <= s < |chunk[i]| && chunk[i][s].expert == e;
    var r := c * size + i;
    ChunkOfRow(r, size, c);
    assert chunk[i] == rows[r] && InRow(rows[r], |rows[r]|, e);
  }

  /** Seen in chunk `c` of all rows is named by the rows of that chunk. */
  lemma SeenIsNamed(rows: seq<Row>, size: nat, c: nat, e: nat)
    requires size > 0 && c < ChunkCount(|rows|, size)
    ensures c * size <= |rows| && (Seen(rows, |rows|, size, c, e) <==> Names(Chunk(rows, size, c), e))
  {
    ChunkStarts(|rows|, size, c);
    if Seen(rows, |rows|, size, c, e) { SeenGivesName(rows, size, c, e); }
    if Names(Chunk(rows, size, c), e) { NameGivesSeen(rows, size, c, e); }
  }

  /** Read one chunk's list out of its counters. */
  method ListChunk(counts: seq<nat>, base: nat, width: nat) returns (ids: seq<nat>)
    requires base + width <= |counts|
    ensures StrictlyIncreasing(ids)
    ensures forall e: nat :: e in ids <==> e < width && counts[base + e] > 0
  {
    ids := [];
    for e := 0 to width
      invariant StrictlyIncreasing(ids)
      invariant forall g: nat :: g in ids <==> g < e && counts[base + g] > 0
    {
      if counts[base + e] > 0 {
        assert forall i :: 0 <= i < |ids| ==> ids[i] in ids;
        ids := ids + [e];
      }
    }
  }

  ghost predicate Histogram(counts: seq<nat>, rows: seq<Row>, n: nat, size: nat, width: nat)
    requires size > 0
  {
    && |counts| == ChunkCount(|rows|, size) * width
    && forall c: nat, e: nat :: c < ChunkCount(|rows|, size) && e < width && Flat(c, e, width) < |counts| ==>
                                  (counts[Flat(c, e, width)] > 0 <==> Seen(rows, n, size, c, e))
  }

  lemma HistogramStep(before: seq<nat>, after: seq<nat>, rows: seq<Row>, n: nat, size: nat, width: nat)
    requires size > 0 && n < |rows| && Histogram(before, rows, n, size, width) && |after| == |before|
    requires forall s :: 0 <= s < |rows[n]| ==> rows[n][s].expert < width
    requires forall i :: 0 <= i < |after| ==>
                           (after[i] > 0 <==> before[i] > 0 ||
                                              (i >= Flat(n / size, 0, width) && InRow(rows[n], |rows[n]|, i - Flat(n / size, 0, width))))
    ensures Histogram(after, rows, n + 1, size, width)
  {
    var base := Flat(n / size, 0, width);
    forall c: nat, e: nat | c < ChunkCount(|rows|, size) && e < width && Flat(c, e, width) < |after|
      ensures after[Flat(c, e, width)] > 0 <==> Seen(rows, n + 1, size, c, e)
    {
      SeenStep(rows, n, size, c, e);
      var i := Flat(c, e, width);
      if i >= base && InRow(rows[n], |rows[n]|, i - base) {
        FlatInjective(c, e, n / size, i - base, width);
      }
    }
  }

  lemma WidthIsEnough(rows: seq<Row>, distinct: seq<nat>)
    requires ExactExperts(rows, distinct) && distinct != []
    ensures forall r, s :: 0 <= r < |rows| && 0 <= s < |rows[r]| ==> rows[r][s].expert < distinct[|distinct| - 1] + 1
  {
    forall r, s | 0 <= r < |rows| && 0 <= s < |rows[r]| && rows[r][s].expert >= 0
      ensures rows[r][s].expert < distinct[|distinct| - 1] + 1
    {
      var e: nat := rows[r][s].expert;
      assert Names(rows, e);
      var i :| 0 <= i < |distinct| && distinct[i] == e;
    }
  }

  method CountAll(rows: seq<Row>, size: nat, width: nat) returns (counts: array<nat>)
    requires size > 0 && width > 0
    requires forall r, s :: 0 <= r < |rows| && 0 <= s < |rows[r]| ==> rows[r][s].expert < width
    ensures fresh(counts) && Histogram(counts[..], rows, |rows|, size, width)
  {
    var count := ChunkCount(|rows|, size);
    counts := new nat[count * width](_ => 0);
    for n := 0 to |rows|
      invariant Histogram(counts[..], rows, n, size, width)
    {
      CountNext(counts, rows, n, size, width);
    }
  }

  method CountNext(counts: array<nat>, rows: seq<Row>, n: nat, size: nat, width: nat)
    requires size > 0 && width > 0 && n < |rows| && Histogram(counts[..], rows, n, size, width)
    requires forall s :: 0 <= s < |rows[n]| ==> rows[n][s].expert < width
    modifies counts
    ensures Histogram(counts[..], rows, n + 1, size, width)
  {
    RowHasChunk(n, |rows|, size);
    FlatInRange(n / size, width - 1, width, ChunkCount(|rows|, size));
    ghost var before := counts[..];
    CountRow(counts, rows[n], n / size * width, width);
    HistogramStep(before, counts[..], rows, n, size, width);
  }

  /** The exact sorted expert list of every chunk of `size` rows. */
  method DistinctExpertsByChunk(rows: seq<Row>, size: nat, distinct: seq<nat>) returns (lists: seq<seq<nat>>)
    requires size > 0 && ExactExperts(rows, distinct)
    ensures |lists| == ChunkCount(|rows|, size)
    ensures forall c :: 0 <= c < |lists| ==> c * size <= |rows| && ExactExperts(Chunk(rows, size, c), lists[c])
  {
    var count := ChunkCount(|rows|, size);
    if distinct == [] {
      lists := seq(count, _ => []);
      forall c | 0 <= c < count ensures c * size <= |rows| && ExactExperts(Chunk(rows, size, c), []) {
        ChunkStarts(|rows|, size, c);
        NothingNamed(rows, size, c, distinct);
      }
      return;
    }
    var width := distinct[|distinct| - 1] + 1;
    WidthIsEnough(rows, distinct);
    lists := ListAll(rows, size, width);
  }

  method ListAll(rows: seq<Row>, size: nat, width: nat) returns (lists: seq<seq<nat>>)
    requires size > 0 && width > 0
    requires forall r, s :: 0 <= r < |rows| && 0 <= s < |rows[r]| ==> rows[r][s].expert < width
    ensures |lists| == ChunkCount(|rows|, size)
    ensures forall c :: 0 <= c < |lists| ==> c * size <= |rows| && ExactExperts(Chunk(rows, size, c), lists[c])
  {
    var count := ChunkCount(|rows|, size);
    var buffer := CountAll(rows, size, width);
    var counts := buffer[..];
    lists := [];
    for c := 0 to count
      invariant |lists| == c
      invariant forall d :: 0 <= d < c ==> d * size <= |rows| && ExactExperts(Chunk(rows, size, d), lists[d])
    {
      MulOrder(c, count, width);
      var ids := ListChunk(counts, c * width, width);
      ListedIsExact(counts, rows, size, width, c, ids);
      lists := lists + [ids];
    }
  }

  lemma NothingNamed(rows: seq<Row>, size: nat, c: nat, distinct: seq<nat>)
    requires size > 0 && c * size <= |rows| && ExactExperts(rows, distinct) && distinct == []
    ensures ExactExperts(Chunk(rows, size, c), [])
  {
    forall e: nat ensures !Names(Chunk(rows, size, c), e) { ChunkNames(rows, size, c, e); }
  }

  lemma ChunkNames(rows: seq<Row>, size: nat, c: nat, e: nat)
    requires size > 0 && c * size <= |rows|
    ensures Names(Chunk(rows, size, c), e) ==> Names(rows, e)
  {
    var chunk := Chunk(rows, size, c);
    if Names(chunk, e) {
      var i, s :| 0 <= i < |chunk| && 0 <= s < |chunk[i]| && chunk[i][s].expert == e;
      assert rows[c * size + i][s].expert == e;
    }
  }

  lemma ListedIsExact(counts: seq<nat>, rows: seq<Row>, size: nat, width: nat, c: nat, ids: seq<nat>)
    requires size > 0 && width > 0 && c < ChunkCount(|rows|, size) && Histogram(counts, rows, |rows|, size, width)
    requires c * width + width <= |counts|
    requires forall r, s :: 0 <= r < |rows| && 0 <= s < |rows[r]| ==> rows[r][s].expert < width
    requires StrictlyIncreasing(ids) && forall e: nat :: e in ids <==> e < width && counts[c * width + e] > 0
    ensures c * size <= |rows| && ExactExperts(Chunk(rows, size, c), ids)
  {
    ChunkStarts(|rows|, size, c);
    var chunk := Chunk(rows, size, c);
    forall e: nat ensures e in ids <==> Names(chunk, e) {
      SeenIsNamed(rows, size, c, e);
      if e < width {
        assert counts[Flat(c, e, width)] > 0 <==> Seen(rows, |rows|, size, c, e);
      }
    }
  }
}
