/**
 * The per-row damage bitmap of the editor (`DirtyTracker`): one bit per grid
 * row, packed into 64-bit chunks, plus a "whole grid" flag.
 *
 * Row `r` lives in chunk `r / 64`, bit `r % 64`. Bits past `rowCount` in the
 * last chunk may be set (by `MarkAll`, which fills whole chunks) but are never
 * reported as dirty rows.
 */
module Dirty {
  const AllOnes: bv64 := 0xFFFF_FFFF_FFFF_FFFF

  /** Number of 64-bit chunks needed for `rows` rows: `(rows + 63) / 64`. */
  function ChunkCount(rows: nat): (k: nat)
    ensures k * 64 >= rows && (rows == 0 <==> k == 0)
    ensures k > 0 ==> (k - 1) * 64 < rows
  {
    (rows + 63) / 64
  }

  /** Bit `b` of `x`, tested as `x & (1 << b) != 0`. */
  predicate BitSet(x: bv64, b: bv7)
    requires b < 64
  {
    x & (1 << b) != 0
  }

  /** The bit position of a row inside its chunk. */
  function BitOf(row: nat): (b: bv7)
    ensures b < 64
  {
    (row % 64) as bv7
  }

  /** The raw bit for `row`, whether or not the row is tracked. */
  predicate RawBit(chunks: seq<bv64>, row: nat)
  {
    row / 64 < |chunks| && BitSet(chunks[row / 64], BitOf(row))
  }

  /** Whether `row` reads as dirty: it is tracked and its bit is set. */
  predicate RowDirty(chunks: seq<bv64>, rowCount: nat, row: nat)
  {
    row < rowCount && RawBit(chunks, row)
  }

  /** The chunks after setting the bit of `row` (no bounds check). */
  function SetRowBit(chunks: seq<bv64>, row: nat): (r: seq<bv64>)
    requires row / 64 < |chunks|
    ensures |r| == |chunks|
  {
    chunks[row / 64 := chunks[row / 64] | (1 << BitOf(row))]
  }

  /** `k` chunks with every bit set. */
  function Filled(k: nat): (r: seq<bv64>)
    ensures |r| == k && forall i :: 0 <= i < k ==> r[i] == AllOnes
  {
    seq(k, _ => AllOnes)
  }

  /** `k` chunks with no bit set. */
  function Zeroed(k: nat): (r: seq<bv64>)
    ensures |r| == k && forall i :: 0 <= i < k ==> r[i] == 0
  {
    seq(k, _ => 0)
  }

  /** Whether some chunk is non-zero (`has_dirty`). */
  predicate AnyChunkSet(chunks: seq<bv64>)
  {
    exists i :: 0 <= i < |chunks| && chunks[i] != 0
  }

  /** Every chunk is all ones. */
  predicate Saturated(chunks: seq<bv64>)
  {
    forall i :: 0 <= i < |chunks| ==> chunks[i] == AllOnes
  }

  /** No bit at or beyond `rowCount` is set. */
  ghost predicate NoStrayBits(chunks: seq<bv64>, rowCount: nat)
  {
    forall row :: rowCount <= row ==> !RawBit(chunks, row)
  }

  /** The representation invariant: right number of chunks, and the bits past
      the last row are either all set (after `mark_all`) or all clear. */
  ghost predicate WellFormed(chunks: seq<bv64>, rowCount: nat)
  {
    |chunks| == ChunkCount(rowCount) && (Saturated(chunks) || NoStrayBits(chunks, rowCount))
  }

  lemma BitShift(x: bv64, b: bv7)
    requires b < 64
    ensures BitSet(x, b) == ((x >> b) & 1 != 0)
  {
  }

  /** A non-zero suffix whose lowest bit is clear stays non-zero one place further up. */
  lemma ShiftStep(x: bv64, b: bv7)
    requires b < 64 && x >> b != 0 && (x >> b) & 1 == 0
    ensures b < 63 && x >> (b + 1) != 0
  {
  }

  /** A non-zero suffix `x >> b` has a set bit at some position `>= b`. */
  lemma {:induction false} SetBitAbove(x: bv64, b: bv7)
    requires b < 64 && x >> b != 0
    ensures exists c: bv7 :: b <= c < 64 && BitSet(x, c)
    decreases 64 - b
  {
    BitShift(x, b);
    if !BitSet(x, b) {
      ShiftStep(x, b);
      SetBitAbove(x, b + 1);
    }
  }

  lemma BitOfInjective(r: nat, row: nat)
    requires r / 64 == row / 64
    ensures (BitOf(r) == BitOf(row)) == (r == row)
  {
    var a, b := r % 64, row % 64;
    assert r == 64 * (r / 64) + a && row == 64 * (row / 64) + b;
    SmallBitsDistinct(a, b);
  }

  lemma SmallBitsDistinct(a: nat, b: nat)
    requires a < 64 && b < 64
    ensures (a as bv7 == b as bv7) == (a == b)
  {
    Bv7RoundTrip(a);
    Bv7RoundTrip(b);
  }

  lemma Bv7RoundTrip(a: nat)
    requires a < 64
    ensures (a as bv7) as int == a
  {
  }

  /** Row `i * 64 + c` is bit `c` of chunk `i`. */
  lemma RowOfBit(i: nat, c: bv7)
    requires c < 64
    ensures (i * 64 + c as int) / 64 == i && BitOf(i * 64 + c as int) == c
  {
  }

  lemma SetBitOrSame(x: bv64, b: bv7, c: bv7, same: bool)
    requires b < 64 && c < 64 && (b == c) == same
    ensures BitSet(x | (1 << b), c) == (same || BitSet(x, c))
  {
  }

  lemma SetRowBitSameChunk(chunks: seq<bv64>, row: nat, r: nat)
    requires row / 64 < |chunks| && r / 64 == row / 64
    requires (BitOf(row) == BitOf(r)) == (r == row)
    ensures RawBit(SetRowBit(chunks, row), r) == (r == row || RawBit(chunks, r))
  {
    var i, b, c := row / 64, BitOf(row), BitOf(r);
    var x := chunks[i];
    SetBitOrSame(x, b, c, r == row);
    assert SetRowBit(chunks, row)[i] == x | (1 << b);
    assert RawBit(SetRowBit(chunks, row), r) == BitSet(x | (1 << b), c);
    assert RawBit(chunks, r) == BitSet(x, c);
  }

  /** Setting the bit of `row` sets exactly that raw bit. */
  lemma SetRowBitRaw(chunks: seq<bv64>, row: nat, r: nat)
    requires row / 64 < |chunks|
    ensures RawBit(SetRowBit(chunks, row), r) == (r == row || RawBit(chunks, r))
  {
    if r / 64 == row / 64 {
      BitOfInjective(r, row);
      SetRowBitSameChunk(chunks, row, r);
    } else if r / 64 < |chunks| {
      assert SetRowBit(chunks, row)[r / 64] == chunks[r / 64];
    }
  }

  /** mark_row on the bitmap: exactly `row` becomes dirty (when tracked), nothing else changes. */
  lemma SetRowBitRows(chunks: seq<bv64>, rowCount: nat, row: nat, r: nat)
    requires row / 64 < |chunks|
    ensures RowDirty(SetRowBit(chunks, row), rowCount, r) == (RowDirty(chunks, rowCount, r) || (r == row && row < rowCount))
  {
    SetRowBitRaw(chunks, row, r);
  }

  /** Setting the bit of a tracked row keeps the representation invariant. */
  lemma SetRowBitWellFormed(chunks: seq<bv64>, rowCount: nat, row: nat)
    requires WellFormed(chunks, rowCount) && row < rowCount
    ensures row / 64 < |chunks| && WellFormed(SetRowBit(chunks, row), rowCount)
  {
    var s := SetRowBit(chunks, row);
    if Saturated(chunks) {
      assert chunks[row / 64] | (1 << BitOf(row)) == AllOnes;
      assert Saturated(s);
    } else {
      forall r | rowCount <= r
        ensures !RawBit(s, r)
      {
        SetRowBitRaw(chunks, row, r);
      }
    }
  }

  /** After filling, every tracked row is dirty. */
  lemma FilledAllDirty(rowCount: nat, r: nat)
    requires r < rowCount
    ensures WellFormed(Filled(ChunkCount(rowCount)), rowCount)
    ensures RowDirty(Filled(ChunkCount(rowCount)), rowCount, r)
  {
    assert AllOnes & (1 << BitOf(r)) != 0;
  }

  /** After zeroing, no row is dirty and no chunk is set. */
  lemma ZeroedNoneDirty(rowCount: nat, r: nat)
    ensures WellFormed(Zeroed(ChunkCount(rowCount)), rowCount)
    ensures !RowDirty(Zeroed(ChunkCount(rowCount)), rowCount, r)
    ensures !AnyChunkSet(Zeroed(ChunkCount(rowCount)))
  {
    var z := Zeroed(ChunkCount(rowCount));
    forall row | rowCount <= row
      ensures !RawBit(z, row)
    {
      if row / 64 < |z| {
        assert (0 as bv64) & (1 << BitOf(row)) == 0;
      }
    }
  }

  /** `has_dirty` (some chunk non-zero) agrees with "some tracked row is dirty"
      on every well-formed bitmap. */
  lemma {:induction false} AnyChunkSetIffDirtyRow(chunks: seq<bv64>, rowCount: nat)
    requires WellFormed(chunks, rowCount)
    ensures AnyChunkSet(chunks) <==> exists r: nat :: RowDirty(chunks, rowCount, r)
  {
    if AnyChunkSet(chunks) {
      var i :| 0 <= i < |chunks| && chunks[i] != 0;
      if Saturated(chunks) {
        SaturatedChunkDirty(chunks, rowCount, i);
      } else {
        SetChunkDirty(chunks, rowCount, i);
      }
    }
    if r: nat :| RowDirty(chunks, rowCount, r) {
      assert chunks[r / 64] != 0;
    }
  }

  /** In a saturated bitmap, the first row of every chunk is dirty. */
  lemma SaturatedChunkDirty(chunks: seq<bv64>, rowCount: nat, i: nat)
    requires |chunks| == ChunkCount(rowCount) && Saturated(chunks) && i < |chunks|
    ensures RowDirty(chunks, rowCount, i * 64)
  {
    RowOfBit(i, 0);
    assert i * 64 <= (|chunks| - 1) * 64;
    assert AllOnes & (1 << BitOf(i * 64)) != 0;
  }

  /** Without stray bits, a non-zero chunk holds a dirty row. */
  lemma SetChunkDirty(chunks: seq<bv64>, rowCount: nat, i: nat)
    requires NoStrayBits(chunks, rowCount) && i < |chunks| && chunks[i] != 0
    ensures exists r: nat :: RowDirty(chunks, rowCount, r)
  {
    SetBitAbove(chunks[i], 0);
    var c: bv7 :| 0 <= c < 64 && BitSet(chunks[i], c);
    var row := RawBitOfChunk(chunks, i, c);
    assert RowDirty(chunks, rowCount, row);
  }

  /** A set bit `c` of chunk `i` is the raw bit of row `i * 64 + c`. */
  lemma RawBitOfChunk(chunks: seq<bv64>, i: nat, c: bv7) returns (row: nat)
    requires i < |chunks| && c < 64 && BitSet(chunks[i], c)
    ensures row == i * 64 + c as int && RawBit(chunks, row)
  {
    row := i * 64 + c as int;
    RowOfBit(i, c);
  }

  class DirtyTracker {
    var chunks: seq<bv64>
    var rowCount: nat
    var fullDirty: bool

    ghost predicate Valid()
      reads this
    {
      WellFormed(chunks, rowCount)
    }

    /** A tracker for `rows` rows with every row dirty (`new`). */
    constructor(rows: nat)
      ensures Valid() && rowCount == rows && fullDirty
      ensures chunks == Filled(ChunkCount(rows))
    {
      chunks := Filled(ChunkCount(rows));
      rowCount := rows;
      fullDirty := true;
      new;
      assert Saturated(chunks);
    }

    /** `is_row_dirty`: false for untracked rows, else the row's bit. */
    function IsRowDirty(row: nat): (d: bool)
      requires Valid()
      reads this
      ensures d ==> row < rowCount
      ensures d == RowDirty(chunks, rowCount, row)
    {
      if row >= rowCount then false
      else BitSet(chunks[row / 64], BitOf(row))
    }

    /** `has_dirty`: whether any chunk is non-zero. */
    function HasDirty(): (d: bool)
      requires Valid()
      reads this
      ensures d <==> exists r: nat :: RowDirty(chunks, rowCount, r)
    {
      AnyChunkSetIffDirtyRow(chunks, rowCount);
      AnyChunkSet(chunks)
    }

    /** `mark_row`: sets the bit of a tracked row; ignores other rows. */
    method MarkRow(row: nat)
      requires Valid()
      modifies this
      ensures Valid() && rowCount == old(rowCount) && fullDirty == old(fullDirty)
      ensures chunks == if row < rowCount then SetRowBit(old(chunks), row) else old(chunks)
    {
      if row < rowCount {
        SetRowBitWellFormed(chunks, rowCount, row);
        chunks := SetRowBit(chunks, row);
      }
    }

    /** `mark_rows`: marks exactly the rows `[min(start, n), min(end, n))`. */
    method MarkRows(start: nat, end: nat)
      requires Valid()
      modifies this
      ensures Valid() && rowCount == old(rowCount) && fullDirty == old(fullDirty)
      ensures forall r: nat :: RowDirty(chunks, rowCount, r) == (RowDirty(old(chunks), rowCount, r) || (start <= r < end && r < rowCount))
    {
      var lo := if start < rowCount then start else rowCount;
      var hi := if end < rowCount then end else rowCount;
      var row := lo;
      while row < hi
        invariant row == lo || lo <= row <= hi
        invariant Valid() && rowCount == old(rowCount) && fullDirty == old(fullDirty)
        invariant forall r: nat :: RowDirty(chunks, rowCount, r) == (RowDirty(old(chunks), rowCount, r) || lo <= r < row)
      {
        ghost var before := chunks;
        MarkRow(row);
        forall r: nat
          ensures RowDirty(chunks, rowCount, r) == (RowDirty(before, rowCount, r) || r == row)
        {
          SetRowBitRows(before, rowCount, row, r);
        }
        row := row + 1;
      }
    }

    /** `mark_all`: every chunk becomes all ones and the full flag is set. */
    method MarkAll()
      requires |chunks| == ChunkCount(rowCount)
      modifies this
      ensures Valid() && rowCount == old(rowCount) && fullDirty
      ensures chunks == Filled(|old(chunks)|)
    {
      var i := 0;
      while i < |chunks|
        invariant 0 <= i <= |chunks| == |old(chunks)| && rowCount == old(rowCount)
        invariant forall k :: 0 <= k < i ==> chunks[k] == AllOnes
      {
        chunks := chunks[i := AllOnes];
        i := i + 1;
      }
      fullDirty := true;
      assert chunks == Filled(|old(chunks)|);
    }

    /** `clear`: every chunk becomes zero and the full flag is reset. */
    method Clear()
      requires Valid()
      modifies this
      ensures Valid() && rowCount == old(rowCount) && !fullDirty
      ensures chunks == Zeroed(|old(chunks)|)
    {
      var i := 0;
      while i < |chunks|
        invariant 0 <= i <= |chunks| == |old(chunks)| && rowCount == old(rowCount)
        invariant forall k :: 0 <= k < i ==> chunks[k] == 0
      {
        chunks := chunks[i := 0];
        i := i + 1;
      }
      fullDirty := false;
      assert chunks == Zeroed(|old(chunks)|);
      ZeroedNoneDirty(rowCount, 0);
    }

    /** `dirty_rows`: the dirty row indices, in increasing order. */
    method DirtyRows() returns (rows: seq<nat>)
      requires Valid()
      ensures forall r: nat :: r in rows <==> IsRowDirty(r)
      ensures forall i, j :: 0 <= i < j < |rows| ==> rows[i] < rows[j]
    {
      rows := [];
      var row := 0;
      while row < rowCount
        invariant 0 <= row <= rowCount
        invariant forall r: nat :: r in rows <==> (r < row && IsRowDirty(r))
        invariant forall i, j :: 0 <= i < j < |rows| ==> rows[i] < rows[j]
        invariant forall i :: 0 <= i < |rows| ==> rows[i] < row
      {
        if IsRowDirty(row) {
          rows := rows + [row];
        }
        row := row + 1;
      }
    }

    /** `resize`: adjusts the chunk count (new chunks all ones), stores the new
        row count and marks everything dirty. */
    method Resize(rows: nat)
      requires Valid()
      modifies this
      ensures Valid() && rowCount == rows && fullDirty
      ensures chunks == Filled(ChunkCount(rows))
    {
      var k := ChunkCount(rows);
      if k <= |chunks| {
        chunks := chunks[..k];
      } else {
        chunks := chunks + Filled(k - |chunks|);
      }
      rowCount := rows;
      MarkAll();
    }
  }

  /** After `new`, `resize` or `mark_all`, every tracked row is dirty. */
  lemma AllRowsDirtyAfterFill(t: DirtyTracker)
    requires t.Valid() && t.chunks == Filled(ChunkCount(t.rowCount))
    ensures forall r: nat :: r < t.rowCount ==> t.IsRowDirty(r)
  {
    forall r: nat | r < t.rowCount
      ensures t.IsRowDirty(r)
    {
      FilledAllDirty(t.rowCount, r);
    }
  }

  /** After `clear`, no row is dirty and `has_dirty` is false. */
  lemma NoRowDirtyAfterClear(t: DirtyTracker)
    requires t.Valid() && t.chunks == Zeroed(ChunkCount(t.rowCount))
    ensures forall r: nat :: !t.IsRowDirty(r)
    ensures !t.HasDirty()
  {
    forall r: nat
      ensures !t.IsRowDirty(r)
    {
      ZeroedNoneDirty(t.rowCount, r);
    }
  }
}
