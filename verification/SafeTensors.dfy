/** Shapes and byte ranges of a SafeTensors header, after its JSON has been decoded. */
module SafeTensors {
  import opened Arithmetic
  import opened Ordering
  import opened Sums
  import opened Topology

  const MAX_TENSOR_BYTES: nat := 0x7FFF_FFFF_FFFF_FFFF

  datatype DType = Fp16 | Bf16 | Fp32

  function ElementBytes(dtype: DType): nat { if dtype == Fp32 then 4 else 2 }

  /** One header entry; `dtype` is missing when its name is not supported. */
  datatype TensorEntry = TensorEntry(name: string, dtype: Option<DType>, shape: seq<int>, start: int, end: int)

  datatype Region = Region(name: string, dtype: DType, shape: seq<int>, start: nat, end: nat)

  datatype FormatError =
    | EmptyName | UnsupportedDType | NegativeDimension | ShapeOverflow | ByteOverflow | OffsetsOutOfBounds
    | LengthMismatch | NoTensors | Overlap | Hole | TrailingBytes

  // ---------------------------------------------------------------- shapes

  function Product(shape: seq<int>): int {
    if shape == [] then 1 else Product(shape[..|shape| - 1]) * shape[|shape| - 1]
  }

  /** Every dimension is nonnegative and every partial product is in range. */
  ghost predicate ShapeFits(shape: seq<int>) {
    && (forall i :: 0 <= i < |shape| ==> shape[i] >= 0)
    && (forall n :: 0 <= n <= |shape| ==> 0 <= Product(shape[..n]) <= MAX_TENSOR_BYTES)
  }

  /** The division test is the overflow test. */
  lemma OverflowTest(count: nat, dimension: nat)
    requires dimension > 0
    ensures count > MAX_TENSOR_BYTES / dimension <==> count * dimension > MAX_TENSOR_BYTES
  {
    var q := MAX_TENSOR_BYTES / dimension;
    assert q * dimension <= MAX_TENSOR_BYTES < q * dimension + dimension;
    if count > q {
      MulOrder(q, count, dimension);
    } else if count < q {
      MulOrder(count, q, dimension);
    }
  }

  method CheckedElementCount(shape: seq<int>) returns (r: Result<nat, FormatError>)
    ensures r.Ok? <==> ShapeFits(shape)
    ensures r.Ok? ==> r.value == Product(shape) <= MAX_TENSOR_BYTES
  {
    var count: nat := 1;
    for n := 0 to |shape|
      invariant count == Product(shape[..n]) && ShapeFits(shape[..n])
    {
      assert shape[..n + 1][..n] == shape[..n];
      if shape[n] < 0 { return Err(NegativeDimension); }
      if shape[n] != 0 {
        OverflowTest(count, shape[n]);
        if count > MAX_TENSOR_BYTES / shape[n] {
          assert Product(shape[..n + 1]) > MAX_TENSOR_BYTES;
          return Err(ShapeOverflow);
        }
      }
      FitsOneMore(shape, n);
      count := count * shape[n];
    }
    assert shape[..|shape|] == shape;
    return Ok(count);
  }

  lemma FitsOneMore(shape: seq<int>, n: nat)
    requires n < |shape| && ShapeFits(shape[..n]) && shape[n] >= 0 && Product(shape[..n]) * shape[n] <= MAX_TENSOR_BYTES
    ensures ShapeFits(shape[..n + 1]) && Product(shape[..n + 1]) == Product(shape[..n]) * shape[n]
  {
    var more := shape[..n + 1];
    assert more[..n] == shape[..n];
    assert shape[..n][..n] == shape[..n];
    forall k | 0 <= k <= |more| ensures 0 <= Product(more[..k]) <= MAX_TENSOR_BYTES {
      if k <= n {
        assert more[..k] == shape[..n][..k];
      } else {
        assert more[..k] == more;
        assert 0 <= Product(shape[..n]) * shape[n];
      }
    }
  }

  // ---------------------------------------------------------------- ranges

  datatype Range = Range(start: nat, end: nat, name: string)

  /** By start, then end, then name. */
  predicate RangeLe(a: Range, b: Range) {
    a.start < b.start || (a.start == b.start && (a.end < b.end || (a.end == b.end && StringLe(a.name, b.name))))
  }

  function InsertRange(sorted: seq<Range>, r: Range): (out: seq<Range>)
    ensures forall x :: x in out <==> x in sorted || x == r
  {
    if sorted == [] || !RangeLe(sorted[0], r) then [r] + sorted
    else
      assert sorted == [sorted[0]] + sorted[1..];
      [sorted[0]] + InsertRange(sorted[1..], r)
  }

  function SortRanges(ranges: seq<Range>): (out: seq<Range>)
    ensures forall x :: x in out <==> x in ranges
  {
    if ranges == [] then []
    else
      assert ranges == ranges[..|ranges| - 1] + [ranges[|ranges| - 1]];
      InsertRange(SortRanges(ranges[..|ranges| - 1]), ranges[|ranges| - 1])
  }

  /** Sorted as far as the scan cares: by start, then end. */
  ghost predicate ByPosition(s: seq<Range>) {
    forall i, j :: 0 <= i < j < |s| ==> s[i].start < s[j].start || (s[i].start == s[j].start && s[i].end <= s[j].end)
  }

  lemma {:induction false} InsertByPosition(sorted: seq<Range>, r: Range)
    requires ByPosition(sorted)
    ensures ByPosition(InsertRange(sorted, r))
    decreases |sorted|
  {
    if sorted == [] {
    } else if !RangeLe(sorted[0], r) {
      StringOrder();
    } else {
      var rest := InsertRange(sorted[1..], r);
      InsertByPosition(sorted[1..], r);
      forall i | 0 <= i < |rest| ensures sorted[0].start < rest[i].start || (sorted[0].start == rest[i].start && sorted[0].end <= rest[i].end) {
        assert rest[i] in rest;
        if rest[i] != r {
          var j :| 0 <= j < |sorted[1..]| && sorted[1..][j] == rest[i];
          assert sorted[j + 1] == rest[i];
        }
      }
    }
  }

  lemma {:induction false} SortByPosition(ranges: seq<Range>)
    ensures ByPosition(SortRanges(ranges))
    decreases |ranges|
  {
    if ranges != [] {
      SortByPosition(ranges[..|ranges| - 1]);
      InsertByPosition(SortRanges(ranges[..|ranges| - 1]), ranges[|ranges| - 1]);
    }
  }

  /** One for a range that holds byte `b`. */
  function HoldsByte(b: nat): Range -> nat { (r: Range) => if r.start <= b < r.end then 1 else 0 }

  lemma {:induction false} InsertCount(sorted: seq<Range>, r: Range, weight: Range -> nat)
    ensures Total(InsertRange(sorted, r), weight) == Total(sorted, weight) + weight(r)
    decreases |sorted|
  {
    if sorted != [] && RangeLe(sorted[0], r) {
      InsertCount(sorted[1..], r, weight);
      assert ([sorted[0]] + InsertRange(sorted[1..], r))[1..] == InsertRange(sorted[1..], r);
    } else {
      assert ([r] + sorted)[1..] == sorted;
    }
  }

  lemma {:induction false} SortCount(ranges: seq<Range>, weight: Range -> nat)
    ensures Total(SortRanges(ranges), weight) == Total(ranges, weight)
    decreases |ranges|
  {
    if ranges != [] {
      var front, last := ranges[..|ranges| - 1], ranges[|ranges| - 1];
      SortCount(front, weight);
      InsertCount(SortRanges(front), last, weight);
      assert ranges == front + [last];
      TotalAdds(front, [last], weight);
      TotalOne(last, weight);
    }
  }

  // ---------------------------------------------------------------- the scan

  function Scan(sorted: seq<Range>, cursor: nat, size: nat): Option<FormatError> {
    if sorted == [] then (if cursor == size then None else Some(TrailingBytes))
    else if sorted[0].start < cursor then Some(Overlap)
    else if sorted[0].start > cursor then Some(Hole)
    else Scan(sorted[1..], sorted[0].end, size)
  }

  /** An empty range sits at a border, never inside another range. */
  ghost predicate NoneInside(ranges: seq<Range>) {
    forall e, r :: e in ranges && r in ranges && e.start == e.end ==> !(r.start < e.start < r.end)
  }

  /** From `cursor` on, every byte belongs to exactly one range, and all ranges lie there. */
  ghost predicate Tiles(ranges: seq<Range>, cursor: nat, size: nat) {
    && cursor <= size
    && (forall r :: r in ranges ==> cursor <= r.start <= r.end <= size)
    && (forall b: nat :: cursor <= b < size ==> Total(ranges, HoldsByte(b)) == 1)
    && NoneInside(ranges)
  }

  lemma {:induction false} NotHeld(ranges: seq<Range>, b: nat)
    requires forall r :: r in ranges ==> b < r.start || r.end <= b
    ensures Total(ranges, HoldsByte(b)) == 0
    decreases |ranges|
  {
    if ranges != [] {
      assert ranges[0] in ranges;
      assert forall r :: r in ranges[1..] ==> r in ranges;
      NotHeld(ranges[1..], b);
    }
  }

  lemma {:induction false} HeldBy(ranges: seq<Range>, r: Range, b: nat)
    requires r in ranges && r.start <= b < r.end
    ensures Total(ranges, HoldsByte(b)) >= 1
    decreases |ranges|
  {
    if ranges[0] != r {
      assert ranges == [ranges[0]] + ranges[1..];
      HeldBy(ranges[1..], r, b);
    }
  }

  ghost predicate Bounded(ranges: seq<Range>, size: nat) {
    forall r :: r in ranges ==> r.start <= r.end <= size
  }

  /** An accepted scan tiles. */
  lemma {:induction false} AcceptedTiles(sorted: seq<Range>, cursor: nat, size: nat)
    requires Bounded(sorted, size) && cursor <= size && Scan(sorted, cursor, size).None?
    ensures Tiles(sorted, cursor, size)
    decreases |sorted|
  {
    if sorted != [] {
      var first, rest := sorted[0], sorted[1..];
      assert first in sorted && sorted == [first] + rest;
      AcceptedTiles(rest, first.end, size);
      forall b: nat | cursor <= b < size ensures Total(sorted, HoldsByte(b)) == 1 {
        if b < first.end { NotHeld(rest, b); }
      }
    }
  }

  /** In a tiling the first range starts at the cursor. */
  lemma FirstStarts(sorted: seq<Range>, cursor: nat, size: nat)
    requires sorted != [] && ByPosition(sorted) && Tiles(sorted, cursor, size)
    ensures sorted[0].start == cursor
  {
    var first := sorted[0];
    assert first in sorted;
    if first.start > cursor {
      forall r | r in sorted ensures cursor < r.start {
        var i :| 0 <= i < |sorted| && sorted[i] == r;
      }
      NotHeld(sorted, cursor);
    }
  }

  /** And every later range starts where it ends, or after. */
  lemma RestFollows(sorted: seq<Range>, cursor: nat, size: nat, r: Range)
    requires sorted != [] && ByPosition(sorted) && Tiles(sorted, cursor, size) && r in sorted[1..]
    ensures r.start >= sorted[0].end
  {
    var first, rest := sorted[0], sorted[1..];
    var i :| 0 <= i < |rest| && rest[i] == r;
    assert sorted[i + 1] == r && r in sorted && first in sorted;
    if r.start < first.end && r.start < r.end {
      HeldBy(rest, r, r.start);
    }
  }

  lemma RestTiles(sorted: seq<Range>, cursor: nat, size: nat)
    requires sorted != [] && ByPosition(sorted) && Tiles(sorted, cursor, size)
    ensures Tiles(sorted[1..], sorted[0].end, size)
  {
    var first, rest := sorted[0], sorted[1..];
    assert first in sorted && sorted == [first] + rest;
    forall r | r in rest ensures first.end <= r.start <= r.end <= size {
      assert r in sorted;
      RestFollows(sorted, cursor, size, r);
    }
    forall b: nat | first.end <= b < size ensures Total(rest, HoldsByte(b)) == 1 {
      assert Total(sorted, HoldsByte(b)) == 1;
    }
    InsideFewer(sorted, rest);
  }

  lemma InsideFewer(ranges: seq<Range>, fewer: seq<Range>)
    requires NoneInside(ranges) && forall r :: r in fewer ==> r in ranges
    ensures NoneInside(fewer)
  {
  }

  /** A tiling, sorted, is accepted. */
  lemma {:induction false} TilingAccepted(sorted: seq<Range>, cursor: nat, size: nat)
    requires ByPosition(sorted) && Tiles(sorted, cursor, size)
    ensures Scan(sorted, cursor, size).None?
    decreases |sorted|
  {
    if sorted == [] {
      assert cursor < size ==> Total(sorted, HoldsByte(cursor)) == 1;
    } else {
      FirstStarts(sorted, cursor, size);
      RestTiles(sorted, cursor, size);
      TilingAccepted(sorted[1..], sorted[0].end, size);
    }
  }

  /** The scan accepts exactly the range lists, in whatever order, that give every byte to exactly one
      tensor and put no empty tensor inside another. */
  lemma ScanIsExact(ranges: seq<Range>, size: nat)
    requires Bounded(ranges, size)
    ensures Scan(SortRanges(ranges), 0, size).None? <==> Tiles(ranges, 0, size)
  {
    SortByPosition(ranges);
    var sorted := SortRanges(ranges);
    forall b: nat ensures Total(sorted, HoldsByte(b)) == Total(ranges, HoldsByte(b)) { SortCount(ranges, HoldsByte(b)); }
    if Scan(sorted, 0, size).None? { AcceptedTiles(sorted, 0, size); }
    if Tiles(ranges, 0, size) { TilingAccepted(sorted, 0, size); }
  }

  /** Giving every byte to exactly one tensor is not enough: an empty tensor inside another is an overlap. */
  lemma EmptyInsideIsRejected()
    ensures var ranges := [Range(0, 10, "a"), Range(5, 5, "b")];
            && Bounded(ranges, 10) && (forall b: nat :: b < 10 ==> Total(ranges, HoldsByte(b)) == 1)
            && Scan(SortRanges(ranges), 0, 10) == Some(Overlap)
  {
    var ranges := [Range(0, 10, "a"), Range(5, 5, "b")];
    assert ranges[..1] == [ranges[0]] && ranges[..1][..0] == [];
    assert SortRanges(ranges[..1]) == InsertRange(SortRanges([]), ranges[0]) == [ranges[0]];
    assert SortRanges(ranges) == InsertRange([ranges[0]], ranges[1]) == ranges;
    forall b: nat | b < 10 ensures Total(ranges, HoldsByte(b)) == 1 {
      assert ranges[1..][1..] == [];
    }
    assert Scan(ranges[1..], 10, 10) == Some(Overlap);
  }

  // ---------------------------------------------------------------- parsing

  /** What one entry must satisfy on its own. */
  ghost predicate EntryFits(entry: TensorEntry, size: nat) {
    && entry.name != "" && entry.dtype.Some? && ShapeFits(entry.shape)
    && Product(entry.shape) * ElementBytes(entry.dtype.value) <= MAX_TENSOR_BYTES
    && 0 <= entry.start <= entry.end <= size
    && entry.end - entry.start == Product(entry.shape) * ElementBytes(entry.dtype.value)
  }

  method ParseTensor(entry: TensorEntry, size: nat) returns (r: Result<Region, FormatError>)
    ensures r.Ok? <==> EntryFits(entry, size)
    ensures r.Ok? ==> r.value == Region(entry.name, entry.dtype.value, entry.shape, entry.start, entry.end)
  {
    if entry.name == "" { return Err(EmptyName); }
    if entry.dtype.None? { return Err(UnsupportedDType); }
    var width := ElementBytes(entry.dtype.value);
    var count := CheckedElementCount(entry.shape);
    if count.Err? { return Err(count.error); }
    OverflowTest(count.value, width);
    if count.value > MAX_TENSOR_BYTES / width { return Err(ByteOverflow); }
    if entry.start < 0 || entry.end < entry.start || entry.end > size { return Err(OffsetsOutOfBounds); }
    if entry.end - entry.start != count.value * width { return Err(LengthMismatch); }
    return Ok(Region(entry.name, entry.dtype.value, entry.shape, entry.start, entry.end));
  }

  function RangeOf(entry: TensorEntry): Range
    requires 0 <= entry.start && 0 <= entry.end
  {
    Range(entry.start, entry.end, entry.name)
  }

  /** The ranges of entries that fit. */
  function RangesOf(entries: seq<TensorEntry>): (ranges: seq<Range>)
    requires forall i :: 0 <= i < |entries| ==> 0 <= entries[i].start && 0 <= entries[i].end
    ensures |ranges| == |entries| && forall i :: 0 <= i < |entries| ==> ranges[i] == RangeOf(entries[i])
  {
    seq(|entries|, i requires 0 <= i < |entries| => RangeOf(entries[i]))
  }

  method ScanRanges(ranges: seq<Range>, size: nat) returns (error: Option<FormatError>)
    ensures error == Scan(SortRanges(ranges), 0, size)
  {
    var sorted := SortRanges(ranges);
    var cursor := 0;
    for n := 0 to |sorted|
      invariant Scan(sorted, 0, size) == Scan(sorted[n..], cursor, size)
    {
      assert sorted[n..][1..] == sorted[n + 1..];
      if sorted[n].start != cursor { return Some(if sorted[n].start < cursor then Overlap else Hole); }
      cursor := sorted[n].end;
    }
    if cursor != size { return Some(TrailingBytes); }
    return None;
  }

  /** A header is accepted exactly when it has tensors, each entry fits on its own, and the tensors tile
      the data section. */
  ghost predicate WellFormed(entries: seq<TensorEntry>, size: nat) {
    && entries != [] && (forall i :: 0 <= i < |entries| ==> EntryFits(entries[i], size))
    && Tiles(RangesOf(entries), 0, size)
  }

  method ParseEntries(entries: seq<TensorEntry>, size: nat) returns (r: Result<seq<Region>, FormatError>)
    ensures r.Ok? <==> forall i :: 0 <= i < |entries| ==> EntryFits(entries[i], size)
    ensures r.Ok? ==> |r.value| == |entries| && forall i :: 0 <= i < |entries| ==>
                        r.value[i] == Region(entries[i].name, entries[i].dtype.value, entries[i].shape, entries[i].start, entries[i].end)
  {
    var regions := [];
    for n := 0 to |entries|
      invariant |regions| == n && forall i :: 0 <= i < n ==> EntryFits(entries[i], size)
      invariant forall i :: 0 <= i < n ==>
                  regions[i] == Region(entries[i].name, entries[i].dtype.value, entries[i].shape, entries[i].start, entries[i].end)
    {
      var region := ParseTensor(entries[n], size);
      if region.Err? { return Err(region.error); }
      regions := regions + [region.value];
    }
    return Ok(regions);
  }

  method ParseSafetensors(entries: seq<TensorEntry>, size: nat) returns (r: Result<seq<Region>, FormatError>)
    ensures r.Ok? <==> WellFormed(entries, size)
    ensures r.Ok? ==> |r.value| == |entries| && forall i :: 0 <= i < |entries| ==>
                        r.value[i] == Region(entries[i].name, entries[i].dtype.value, entries[i].shape, entries[i].start, entries[i].end)
  {
    var regions := ParseEntries(entries, size);
    if regions.Err? { return Err(regions.error); }
    if entries == [] { return Err(NoTensors); }
    var ranges := RangesOf(entries);
    assert Bounded(ranges, size) by {
      forall x | x in ranges ensures x.start <= x.end <= size {
        var i :| 0 <= i < |ranges| && ranges[i] == x;
        assert EntryFits(entries[i], size);
      }
    }
    ScanIsExact(ranges, size);
    var error := ScanRanges(ranges, size);
    if error.Some? { return Err(error.value); }
    return regions;
  }
}
