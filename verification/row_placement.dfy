/**
 * Where the loaders of SAMPLES/UTILS.C and SAMPLES/STRETCH.C put bitmap
 * lines in memory.  Bitmap files store the bottom line first, so the
 * loaders start at the last row of the surface and step back one stride
 * per line read: line i of the file goes to base + (height - 1 - i) * stride.
 * Memory is a byte sequence; writing a line replaces the bytes it covers.
 */
module RowPlacement {
  import opened BmpFile
  import opened MulFacts

  /** A line buffer after a read that delivered `got`: the rest of the buffer keeps its old bytes. */
  function Overlay(buf: seq<bv8>, got: seq<bv8>): (r: seq<bv8>)
    requires |got| <= |buf|
    ensures |r| == |buf|
  {
    got + buf[|got|..]
  }

  /** The file position after `n` successive reads of `bpl` bytes and their padding. */
  function ReadsCursor(file: Cursor, bpl: nat, n: nat): (c: Cursor)
    ensures c.data == file.data
  {
    if n == 0 then file else ReadLine(ReadsCursor(file, bpl, n - 1), bpl).2
  }

  /** The line buffer after `n` successive reads of `bpl` bytes into it, starting from `raw0`. */
  function LineBuffer(file: Cursor, bpl: nat, raw0: seq<bv8>, n: nat): (b: seq<bv8>)
    requires |raw0| == bpl
    ensures |b| == bpl
  {
    if n == 0 then raw0
    else Overlay(LineBuffer(file, bpl, raw0, n - 1), ReadLine(ReadsCursor(file, bpl, n - 1), bpl).1)
  }

  /**
   * The line buffer's contents after each of `n` successive reads of `bpl`
   * bytes (starting from `raw0`), and the file position after them.
   */
  function Reads(file: Cursor, bpl: nat, raw0: seq<bv8>, n: nat): (r: (seq<seq<bv8>>, Cursor))
    requires |raw0| == bpl
    ensures |r.0| == n
    ensures forall i :: 0 <= i < n ==> |r.0[i]| == bpl
    ensures r.1.data == file.data
  {
    (seq(n, i requires 0 <= i < n => LineBuffer(file, bpl, raw0, i + 1)), ReadsCursor(file, bpl, n))
  }

  /** Reading more lines leaves the buffers of the earlier reads as they were. */
  lemma ReadsPrefix(file: Cursor, bpl: nat, raw0: seq<bv8>, n: nat, i: nat)
    requires |raw0| == bpl && i < n
    ensures Reads(file, bpl, raw0, n).0[i] == Reads(file, bpl, raw0, i + 1).0[i]
  {
  }

  /** The file position after `n` complete padded lines. */
  lemma {:induction false} ReadsPosition(file: Cursor, bpl: nat, n: nat)
    requires file.pos + n * RoundUp4(bpl) <= |file.data|
    ensures ReadsCursor(file, bpl, n) == file.(pos := file.pos + n * RoundUp4(bpl))
  {
    if n > 0 {
      var line := RoundUp4(bpl);
      assert (n - 1) * line + line == n * line by {
        MulAdd(n - 1, 1, line);
      }
      ReadsPosition(file, bpl, n - 1);
      ReadLineSkipsPadding(ReadsCursor(file, bpl, n - 1), bpl);
    }
  }

  /** In a file that holds every line with its padding, the buffer after read i + 1 is the i-th padded line of the file. */
  lemma ReadsOfCompleteFile(file: Cursor, bpl: nat, raw0: seq<bv8>, n: nat, i: nat)
    requires |raw0| == bpl
    requires file.pos + n * RoundUp4(bpl) <= |file.data|
    requires i < n
    ensures file.pos + i * RoundUp4(bpl) + bpl <= |file.data|
    ensures LineBuffer(file, bpl, raw0, i + 1) == file.data[file.pos + i * RoundUp4(bpl)..file.pos + i * RoundUp4(bpl) + bpl]
  {
    var line := RoundUp4(bpl);
    var p := file.pos + i * line;
    assert p + line <= file.pos + n * line by {
      MulAdd(i, 1, line);
      MulLe(i + 1, n, line);
    }
    ReadsPosition(file, bpl, i);
    assert ReadsCursor(file, bpl, i).pos == p;
    ReadsLastLine(file, bpl, raw0, i);
  }

  /** A line the file holds in full fills the whole buffer with the file's next bytes. */
  lemma ReadsLastLine(file: Cursor, bpl: nat, raw0: seq<bv8>, i: nat)
    requires |raw0| == bpl
    requires ReadsCursor(file, bpl, i).pos + bpl <= |file.data|
    ensures var p := ReadsCursor(file, bpl, i).pos;
            LineBuffer(file, bpl, raw0, i + 1) == file.data[p..p + bpl]
  {
    FullLine(ReadsCursor(file, bpl, i), bpl, LineBuffer(file, bpl, raw0, i));
  }

  /** Reading a line the file holds in full over a buffer of that size leaves exactly the line's bytes. */
  lemma FullLine(c: Cursor, bpl: nat, buf: seq<bv8>)
    requires |buf| == bpl && c.pos + bpl <= |c.data|
    ensures Overlay(buf, ReadLine(c, bpl).1) == c.data[c.pos..c.pos + bpl]
  {
    var got := ReadLine(c, bpl).1;
    assert got == c.data[c.pos..c.pos + bpl];
    OverlayWhole(buf, got);
  }

  /** Line i of the reads is the buffer after read i + 1. */
  lemma ReadsLine(file: Cursor, bpl: nat, raw0: seq<bv8>, n: nat, i: nat)
    requires |raw0| == bpl && i < n
    ensures Reads(file, bpl, raw0, n).0[i] == LineBuffer(file, bpl, raw0, i + 1)
  {
  }

  /** A read that fills the buffer replaces all of it. */
  lemma OverlayWhole(buf: seq<bv8>, got: seq<bv8>)
    requires |got| == |buf|
    ensures Overlay(buf, got) == got
  {
    assert buf[|got|..] == [];
  }

  /** `data` written into `m` at `at`. */
  function Write(m: seq<bv8>, at: nat, data: seq<bv8>): (r: seq<bv8>)
    requires at + |data| <= |m|
    ensures |r| == |m|
    ensures forall j :: 0 <= j < |m| && !(at <= j < at + |data|) ==> r[j] == m[j]
    ensures forall k :: 0 <= k < |data| ==> r[at + k] == data[k]
  {
    m[..at] + data + m[at + |data|..]
  }

  /** The address of file line i of a surface `height` lines high whose first line starts at `base`. */
  function RowStart(base: nat, stride: nat, height: nat, i: nat): nat
    requires i < height
  {
    base + (height - 1 - i) * stride
  }

  /** Every line, written where it belongs, stays inside memory. */
  predicate RowsFit(m: seq<bv8>, base: nat, stride: nat, rows: seq<seq<bv8>>)
  {
    forall i :: 0 <= i < |rows| ==> RowStart(base, stride, |rows|, i) + |rows[i]| <= |m|
  }

  /** Memory after the first `n` lines of `rows` are written, last line of the surface first. */
  function PlaceRows(m: seq<bv8>, base: nat, stride: nat, rows: seq<seq<bv8>>, n: nat): (r: seq<bv8>)
    requires n <= |rows| && RowsFit(m, base, stride, rows)
    ensures |r| == |m|
  {
    if n == 0 then m
    else Write(PlaceRows(m, base, stride, rows, n - 1), RowStart(base, stride, |rows|, n - 1), rows[n - 1])
  }

  /** A byte no placed line covers keeps its old value. */
  lemma {:induction false} PlaceRowsUntouched(m: seq<bv8>, base: nat, stride: nat, rows: seq<seq<bv8>>, n: nat, j: nat)
    requires n <= |rows| && RowsFit(m, base, stride, rows) && j < |m|
    requires forall r :: 0 <= r < n ==> !(RowStart(base, stride, |rows|, r) <= j < RowStart(base, stride, |rows|, r) + |rows[r]|)
    ensures PlaceRows(m, base, stride, rows, n)[j] == m[j]
  {
    if n > 0 {
      PlaceRowsUntouched(m, base, stride, rows, n - 1, j);
    }
  }

  /** Lines read later sit lower in memory, a whole number of strides apart. */
  lemma RowsApart(base: nat, stride: nat, height: nat, r: nat, s: nat)
    requires r < s < height
    ensures RowStart(base, stride, height, s) + stride <= RowStart(base, stride, height, r)
  {
    var a, d := height - 1 - s, s - r;
    MulAdd(a, d, stride);
    MulAtLeast(d, stride);
  }

  /**
   * Every line lies between base and base + height * stride + over when no
   * line is longer than the stride plus `over`.
   */
  lemma RowInRegion(base: nat, stride: nat, height: nat, i: nat, len: nat, over: nat)
    requires i < height && len <= stride + over
    ensures base <= RowStart(base, stride, height, i)
    ensures RowStart(base, stride, height, i) + len <= base + height * stride + over
  {
    MulAdd(height - 1 - i, 1, stride);
    MulLe(height - i, height, stride);
  }

  /** `after` is `m` with the first `n` of `rows`, none longer than the stride, written in place. */
  ghost predicate RowsPlaced(m: seq<bv8>, after: seq<bv8>, base: nat, stride: nat, rows: seq<seq<bv8>>, n: nat)
  {
    n <= |rows| && RowsFit(m, base, stride, rows) && (forall i :: 0 <= i < |rows| ==> |rows[i]| <= stride) &&
    after == PlaceRows(m, base, stride, rows, n)
  }

  /** Every line placed can be read back whole from where it was written. */
  lemma PlacedReadBack(m: seq<bv8>, after: seq<bv8>, base: nat, stride: nat, rows: seq<seq<bv8>>, n: nat,
                       r: nat, k: nat)
    requires RowsPlaced(m, after, base, stride, rows, n)
    requires r < n && k < |rows[r]|
    ensures RowStart(base, stride, |rows|, r) + k < |after|
    ensures after[RowStart(base, stride, |rows|, r) + k] == rows[r][k]
  {
    PlaceRowsReadBack(m, after, base, stride, rows, n, r, k, 0);
  }

  /**
   * When no line runs more than `over` bytes past the stride, a line
   * written can be read back from `after`, the memory once the first `n`
   * lines are written, except for its first `over` bytes, which the next
   * line down may overwrite.  With `over` = 0 the lines do not overlap at all.
   */
  lemma {:induction false} PlaceRowsReadBack(m: seq<bv8>, after: seq<bv8>, base: nat, stride: nat,
                                             rows: seq<seq<bv8>>, n: nat, r: nat, k: nat, over: nat)
    requires n <= |rows| && RowsFit(m, base, stride, rows) && after == PlaceRows(m, base, stride, rows, n)
    requires forall i :: 0 <= i < |rows| ==> |rows[i]| <= stride + over
    requires r < n && over <= k < |rows[r]|
    ensures RowStart(base, stride, |rows|, r) + k < |after|
    ensures after[RowStart(base, stride, |rows|, r) + k] == rows[r][k]
    decreases n
  {
    RowFits(m, base, stride, rows, r);
    if r == n - 1 {
      LastRowWritten(m, after, base, stride, rows, n, k);
    } else {
      var before := PlaceRows(m, base, stride, rows, n - 1);
      PlaceRowsReadBack(m, before, base, stride, rows, n - 1, r, k, over);
      LaterRowMissesEarlier(m, before, after, base, stride, rows, n, r, k, over);
    }
  }

  /**
   * Writing line n - 1, which turns `before` into `after`, leaves byte k of
   * an earlier line r alone when k is at least `over`: line n - 1 starts a
   * stride or more before line r and is at most `over` bytes longer than
   * the stride.
   */
  lemma LaterRowMissesEarlier(m: seq<bv8>, before: seq<bv8>, after: seq<bv8>, base: nat, stride: nat,
                              rows: seq<seq<bv8>>, n: nat, r: nat, k: nat, over: nat)
    requires r < n - 1 && n <= |rows| && RowsFit(m, base, stride, rows)
    requires before == PlaceRows(m, base, stride, rows, n - 1) && after == PlaceRows(m, base, stride, rows, n)
    requires |rows[n - 1]| <= stride + over && over <= k && RowStart(base, stride, |rows|, r) + k < |m|
    ensures after[RowStart(base, stride, |rows|, r) + k] == before[RowStart(base, stride, |rows|, r) + k]
  {
    RowsApart(base, stride, |rows|, r, n - 1);
    RowFits(m, base, stride, rows, n - 1);
    WriteOutside(before, RowStart(base, stride, |rows|, n - 1), rows[n - 1], RowStart(base, stride, |rows|, r) + k);
  }

  /**
   * All `rows`, each `len` bytes long with len >= stride, placed: the next
   * row down overwrites at most the first len - stride bytes of a row, so
   * every later byte reads back.
   */
  lemma LongRowsReadBack(m: seq<bv8>, after: seq<bv8>, base: nat, stride: nat, len: nat, rows: seq<seq<bv8>>,
                         height: nat, r: nat, k: nat)
    requires |rows| == height && RowsFit(m, base, stride, rows) && after == PlaceRows(m, base, stride, rows, height)
    requires stride <= len && forall i :: 0 <= i < |rows| ==> |rows[i]| == len
    requires r < height && len - stride <= k < len
    ensures RowStart(base, stride, height, r) + k < |after|
    ensures after[RowStart(base, stride, height, r) + k] == rows[r][k]
  {
    PlaceRowsReadBack(m, after, base, stride, rows, height, r, k, len - stride);
  }

  /** The line written last, which made `after`, can be read back whole. */
  lemma LastRowWritten(m: seq<bv8>, after: seq<bv8>, base: nat, stride: nat, rows: seq<seq<bv8>>, n: nat, k: nat)
    requires 0 < n <= |rows| && RowsFit(m, base, stride, rows) && after == PlaceRows(m, base, stride, rows, n)
    requires k < |rows[n - 1]|
    ensures RowStart(base, stride, |rows|, n - 1) + k < |after|
    ensures after[RowStart(base, stride, |rows|, n - 1) + k] == rows[n - 1][k]
  {
    RowFits(m, base, stride, rows, n - 1);
    WriteInside(PlaceRows(m, base, stride, rows, n - 1), RowStart(base, stride, |rows|, n - 1), rows[n - 1], k);
  }

  /** Line r, written where it belongs, stays inside memory. */
  lemma RowFits(m: seq<bv8>, base: nat, stride: nat, rows: seq<seq<bv8>>, r: nat)
    requires RowsFit(m, base, stride, rows) && r < |rows|
    ensures RowStart(base, stride, |rows|, r) + |rows[r]| <= |m|
  {
  }

  /** A byte the write does not cover keeps its value. */
  lemma WriteOutside(m: seq<bv8>, at: nat, data: seq<bv8>, j: nat)
    requires at + |data| <= |m| && j < |m| && !(at <= j < at + |data|)
    ensures Write(m, at, data)[j] == m[j]
  {
  }

  /** Byte k of the data written lands at at + k. */
  lemma WriteInside(m: seq<bv8>, at: nat, data: seq<bv8>, k: nat)
    requires at + |data| <= |m| && k < |data|
    ensures Write(m, at, data)[at + k] == data[k]
  {
  }

  /**
   * Bytes outside base .. base + height * stride + over are never written
   * when no line is longer than the stride plus `over`.
   */
  lemma PlaceRowsOutsideRegion(m: seq<bv8>, base: nat, stride: nat, rows: seq<seq<bv8>>, j: nat, over: nat)
    requires RowsFit(m, base, stride, rows)
    requires forall i :: 0 <= i < |rows| ==> |rows[i]| <= stride + over
    requires j < |m| && (j < base || base + |rows| * stride + over <= j)
    ensures PlaceRows(m, base, stride, rows, |rows|)[j] == m[j]
  {
    forall r | 0 <= r < |rows|
      ensures !(RowStart(base, stride, |rows|, r) <= j < RowStart(base, stride, |rows|, r) + |rows[r]|)
    {
      RowInRegion(base, stride, |rows|, r, |rows[r]|, over);
    }
    PlaceRowsUntouched(m, base, stride, rows, |rows|, j);
  }
}
