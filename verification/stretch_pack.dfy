/**
 * The half-size loaders of SAMPLES/STRETCH.C.  A bitmap line is converted,
 * then thinned in place to every ratio-th pixel (sampleBuffer); bitmaps and
 * textures are packed into the memory left over in the primary surface
 * when it is big enough, and get a surface of their own otherwise.
 */
module StretchPack {
  import opened Toolkit
  import opened SurfaceAlloc
  import opened BmpFile
  import opened PixelConvert
  import opened RowPlacement
  import opened SurfaceLoad
  import opened MulFacts

  /**
   * The first `n` kept pixels of `s`: byte b of pixel q of the result is
   * byte b of pixel q * ratio of `s`.
   */
  function Sample(s: seq<bv8>, ratio: nat, bpp: nat, n: nat): (r: seq<bv8>)
    requires ratio >= 1 && n * ratio * bpp <= |s|
    ensures |r| == n * bpp
  {
    seq(n * bpp, j requires 0 <= j < n * bpp => SourceInside(ratio, bpp, n, j); s[j / bpp * ratio * bpp + j % bpp])
  }

  /** Byte j of the first n kept pixels comes from inside the first n * ratio pixels. */
  lemma SourceInside(ratio: nat, bpp: nat, n: nat, j: nat)
    requires ratio >= 1 && j < n * bpp
    ensures bpp > 0 && 0 <= j / bpp * ratio * bpp + j % bpp < n * ratio * bpp
  {
    var q := j / bpp;
    assert q < n by {
      if q >= n { MulLe(n, q, bpp); }
    }
    PixelIndex(ratio, bpp, n, q, j % bpp);
  }

  /** Byte b of pixel i sits at i * bpp + b: the quotient by bpp is i and the remainder b. */
  lemma PixelOfByte(i: nat, bpp: nat, b: nat)
    requires b < bpp
    ensures (i * bpp + b) / bpp == i && (i * bpp + b) % bpp == b
  {
    var q: nat := (i * bpp + b) / bpp;
    MulAdd(q, 1, bpp);
    MulAdd(i, 1, bpp);
    MulOrder(q + 1, i, bpp);
    MulOrder(i + 1, q, bpp);
  }

  /** The buffer after thinning: the kept pixels, then the rest of the buffer as it was. */
  function Sampled(s: seq<bv8>, ratio: nat, bpp: nat, n: nat): (r: seq<bv8>)
    requires ratio >= 1 && n * ratio * bpp <= |s|
    ensures |r| == |s|
  {
    SampleLess(ratio, bpp, n);
    Sample(s, ratio, bpp, n) + s[n * bpp..]
  }

  /** Pixel i of a line after the next one starts: i * ratio * bpp + bpp <= (i + 1) * ratio * bpp. */
  lemma SampleStep(ratio: nat, bpp: nat, i: nat)
    requires ratio >= 1
    ensures i * ratio * bpp + bpp <= (i + 1) * ratio * bpp
    ensures (i + 1) * ratio * bpp == i * ratio * bpp + ratio * bpp
    ensures (i + 1) * bpp == i * bpp + bpp
  {
    MulAdd(i * ratio, ratio, bpp);
    assert (i + 1) * ratio == i * ratio + ratio;
    MulAtLeast(ratio, bpp);
  }

  /** The output pointer never passes the input pointer. */
  lemma SampleLess(ratio: nat, bpp: nat, i: nat)
    requires ratio >= 1
    ensures i * bpp <= i * ratio * bpp
  {
    MulLe(1, ratio, i);
    MulLe(i, i * ratio, bpp);
  }

  /** Kept pixel i is pixel i * ratio of the original line, byte for byte. */
  lemma SamplePixel(s: seq<bv8>, ratio: nat, bpp: nat, n: nat, i: nat, b: nat)
    requires ratio >= 1 && n * ratio * bpp <= |s|
    requires i < n && b < bpp
    ensures 0 <= i * ratio * bpp && i * bpp + b < n * bpp && i * ratio * bpp + b < |s|
    ensures Sample(s, ratio, bpp, n)[i * bpp + b] == s[i * ratio * bpp + b]
  {
    PixelIndex(ratio, bpp, n, i, b);
    PixelOfByte(i, bpp, b);
  }

  /** Keeping one more pixel appends pixel n * ratio of the line to the kept pixels. */
  lemma SampleSnoc(s: seq<bv8>, ratio: nat, bpp: nat, n: nat)
    requires ratio >= 1 && (n + 1) * ratio * bpp <= |s|
    ensures n * ratio * bpp + bpp <= |s|
    ensures Sample(s, ratio, bpp, n + 1) == Sample(s, ratio, bpp, n) + s[n * ratio * bpp..n * ratio * bpp + bpp]
  {
    SampleStep(ratio, bpp, n);
    var p := n * ratio * bpp;
    var r := Sample(s, ratio, bpp, n + 1);
    var t := Sample(s, ratio, bpp, n) + s[p..p + bpp];
    forall j | 0 <= j < (n + 1) * bpp
      ensures r[j] == t[j]
    {
      if j < n * bpp {
        assert r[j] == Sample(s, ratio, bpp, n)[j];
      } else {
        SamplePixel(s, ratio, bpp, n + 1, n, j - n * bpp);
      }
    }
  }

  /** Byte b of kept pixel i lies inside the first n kept pixels, and inside the first n * ratio pixels. */
  lemma PixelIndex(ratio: nat, bpp: nat, n: nat, i: nat, b: nat)
    requires ratio >= 1 && i < n && b < bpp
    ensures 0 <= i * ratio * bpp
    ensures i * bpp + b < n * bpp && i * ratio * bpp + b < n * ratio * bpp
  {
    SampleStep(ratio, bpp, i);
    MulLe(i + 1, n, bpp);
    MulLe(i + 1, n, ratio);
    MulLe((i + 1) * ratio, n * ratio, bpp);
  }

  /** Thinning a line of `initWidth` pixels to `finalWidth`: the kept pixels lie inside the line. */
  lemma SampleFits(initWidth: nat, finalWidth: nat, bpp: nat)
    requires 0 < finalWidth <= initWidth
    ensures initWidth / finalWidth >= 1
    ensures finalWidth * (initWidth / finalWidth) * bpp <= initWidth * bpp
  {
    var ratio := initWidth / finalWidth;
    assert finalWidth * ratio <= initWidth;
    MulLe(finalWidth * ratio, initWidth, bpp);
  }

  /**
   * sampleBuffer: keeps every ratio-th pixel of the line, ratio =
   * initWidth / finalWidth, packing the kept pixels at the front of the
   * buffer; the bytes after them are left alone.
   */
  method SampleBuffer(initWidth: nat, finalWidth: nat, bpp: nat, buffer: array<bv8>)
    requires 0 < finalWidth <= initWidth && initWidth * bpp <= buffer.Length
    modifies buffer
    ensures initWidth / finalWidth >= 1 && finalWidth * (initWidth / finalWidth) * bpp <= buffer.Length
    ensures buffer[..] == Sampled(old(buffer[..]), initWidth / finalWidth, bpp, finalWidth)
  {
    var ratio := initWidth / finalWidth;
    SampleFits(initWidth, finalWidth, bpp);
    ghost var s := buffer[..];
    var inp, outp := 0, 0;
    var i := 0;
    while i < finalWidth
      invariant i <= finalWidth
      invariant outp == i * bpp && inp == i * ratio * bpp
      invariant Kept(buffer[..], s, ratio, bpp, i)
    {
      outp, inp := KeepPixel(buffer, s, ratio, bpp, finalWidth, i, outp, inp);
      i := i + 1;
    }
    KeptAll(buffer[..], s, ratio, bpp, finalWidth);
  }

  /** After i pixels: the first i kept pixels at the front, every byte from there on as it was. */
  ghost predicate Kept(buf: seq<bv8>, s: seq<bv8>, ratio: nat, bpp: nat, i: nat)
  {
    ratio >= 1 && i * ratio * bpp <= |s| == |buf| &&
    buf[..i * bpp] == Sample(s, ratio, bpp, i) &&
    forall j :: i * bpp <= j < |buf| ==> buf[j] == s[j]
  }

  /** Once every pixel is kept the buffer is the thinned line. */
  lemma KeptAll(buf: seq<bv8>, s: seq<bv8>, ratio: nat, bpp: nat, n: nat)
    requires Kept(buf, s, ratio, bpp, n)
    ensures buf == Sampled(s, ratio, bpp, n)
  {
    SampleLess(ratio, bpp, n);
    assert buf == buf[..n * bpp] + buf[n * bpp..];
  }

  /** One pass of the outer loop of sampleBuffer: pixel i moves down to the output pointer, the input pointer skips ratio pixels. */
  method KeepPixel(buffer: array<bv8>, ghost s: seq<bv8>, ratio: nat, bpp: nat, finalWidth: nat, i: nat,
                   outp: nat, inp: nat)
    returns (outp': nat, inp': nat)
    requires i < finalWidth && finalWidth * ratio * bpp <= |s|
    requires outp == i * bpp && inp == i * ratio * bpp
    requires Kept(buffer[..], s, ratio, bpp, i)
    modifies buffer
    ensures outp' == (i + 1) * bpp && inp' == (i + 1) * ratio * bpp
    ensures Kept(buffer[..], s, ratio, bpp, i + 1)
  {
    SampleBounds(ratio, bpp, i, finalWidth);
    ghost var before := buffer[..];
    outp', inp' := CopyPixel(buffer, outp, inp, bpp);
    KeptStep(before, buffer[..], s, ratio, bpp, i);
    inp' := inp' + (ratio - 1) * bpp;
    assert (ratio - 1) * bpp + bpp == ratio * bpp;
  }

  /** Copying pixel i down to its kept place extends the kept pixels by one. */
  lemma KeptStep(before: seq<bv8>, after: seq<bv8>, s: seq<bv8>, ratio: nat, bpp: nat, i: nat)
    requires Kept(before, s, ratio, bpp, i) && (i + 1) * ratio * bpp <= |s|
    requires |after| == |before| && i * bpp + bpp <= i * ratio * bpp + bpp <= |before|
    requires after[..i * bpp + bpp] == before[..i * bpp] + before[i * ratio * bpp..i * ratio * bpp + bpp]
    requires forall j :: i * bpp + bpp <= j < |after| ==> after[j] == before[j]
    ensures Kept(after, s, ratio, bpp, i + 1)
  {
    var p := i * ratio * bpp;
    SampleStep(ratio, bpp, i);
    SampleSnoc(s, ratio, bpp, i);
    assert before[p..p + bpp] == s[p..p + bpp];
    assert after[..(i + 1) * bpp] == Sample(s, ratio, bpp, i + 1);
  }

  /** The pointers of pixel i of `finalWidth`: input at or past output, the whole pixel inside the kept part. */
  lemma SampleBounds(ratio: nat, bpp: nat, i: nat, finalWidth: nat)
    requires ratio >= 1 && i < finalWidth
    ensures i * bpp <= i * ratio * bpp
    ensures i * ratio * bpp + bpp <= (i + 1) * ratio * bpp <= finalWidth * ratio * bpp
    ensures (i + 1) * ratio * bpp == i * ratio * bpp + ratio * bpp
    ensures (i + 1) * bpp == i * bpp + bpp
  {
    SampleStep(ratio, bpp, i);
    SampleLess(ratio, bpp, i);
    MulLe(i + 1, finalWidth, ratio * bpp);
    assert (i + 1) * (ratio * bpp) == (i + 1) * ratio * bpp;
    assert finalWidth * (ratio * bpp) == finalWidth * ratio * bpp;
  }

  /** The inner loop of sampleBuffer: copies one pixel from `inp` down to `outp`, byte by byte. */
  method CopyPixel(buffer: array<bv8>, outp: nat, inp: nat, bpp: nat) returns (outp': nat, inp': nat)
    requires outp <= inp && inp + bpp <= buffer.Length
    modifies buffer
    ensures outp' == outp + bpp && inp' == inp + bpp
    ensures buffer[..outp'] == old(buffer[..outp]) + old(buffer[inp..inp + bpp])
    ensures forall j :: outp' <= j < buffer.Length ==> buffer[j] == old(buffer[j])
  {
    outp', inp' := outp, inp;
    var bytes := 0;
    while bytes < bpp
      invariant bytes <= bpp
      invariant outp' == outp + bytes && inp' == inp + bytes
      invariant buffer[..outp'] == old(buffer[..outp]) + old(buffer[inp..inp'])
      invariant forall j :: outp' <= j < buffer.Length ==> buffer[j] == old(buffer[j])
    {
      buffer[outp'] := buffer[inp'];
      outp', inp' := outp' + 1, inp' + 1;
      bytes := bytes + 1;
    }
  }

  /** The thinned line is the kept pixels: the front of Sampled. */
  lemma SampledFront(s: seq<bv8>, ratio: nat, bpp: nat, n: nat)
    requires ratio >= 1 && n * ratio * bpp <= |s|
    ensures n * bpp <= |s|
    ensures Sampled(s, ratio, bpp, n)[..n * bpp] == Sample(s, ratio, bpp, n)
  {
    SampleLess(ratio, bpp, n);
  }

  /** PSWIDTH * PSHEIGHT * (PSDDBD / 8): the bytes of the 640 x 480, 8-bit primary surface. */
  const PrimarySize: nat := 640 * 480 * (8 / 8)

  /** bmpLoadSurfaceHalf's theBufferSize: half the bytes of the full-size image. */
  function HalfBufferSize(width: nat, height: nat, bpp: nat): nat
  {
    width * height * bpp / 2
  }

  /** The stride of a packed half-size bitmap: theWidth / 2 * theBpp. */
  function HalfStride(width: nat, bpp: nat): nat
  {
    width / 2 * bpp
  }

  /**
   * memcpy's length on the packed path as the code has it, theDstHalfBPL =
   * theWidth * theDstBPP / 2, which exceeds the stride when the width is odd.
   */
  function AsWrittenCopyLength(width: nat, bpp: nat): nat
  {
    width * bpp / 2
  }

  /** The rows of a packed half-size bitmap, one stride apart, never need more than the bytes reserved for it. */
  lemma HalfFits(width: nat, height: nat, bpp: nat)
    ensures height * HalfStride(width, bpp) <= HalfBufferSize(width, height, bpp)
    ensures width % 2 == 0 ==> height * HalfStride(width, bpp) == HalfBufferSize(width, height, bpp)
  {
    var half := width / 2;
    assert 2 * half <= width;
    assert 2 * (height * (half * bpp)) == (2 * half) * height * bpp;
    MulLe(2 * half, width, height * bpp);
    assert (2 * half) * (height * bpp) == (2 * half) * height * bpp;
    assert width * (height * bpp) == width * height * bpp;
  }

  /**
   * Even when every row is copied theDstHalfBPL bytes long, the last byte
   * written, at (height - 1) * stride + theDstHalfBPL, stays inside
   * theBufferSize.
   */
  lemma HalfCopiesFit(width: nat, height: nat, bpp: nat)
    requires height > 0
    ensures height * HalfStride(width, bpp) + AsWrittenCopyLength(width, bpp) <=
            HalfBufferSize(width, height, bpp) + HalfStride(width, bpp)
  {
    var half := width / 2;
    CopyLengthVersusStride(width, bpp);
    if width % 2 == 0 {
      HalfFits(width, height, bpp);
    } else {
      assert width == 2 * half + 1;
      OddRows(half, height, bpp);
      MulAtLeast(height, bpp);
    }
  }

  /** theBufferSize's product for an odd width 2 * half + 1: twice the packed rows plus one more line's worth. */
  lemma OddRows(half: nat, height: nat, bpp: nat)
    ensures (2 * half + 1) * height * bpp == 2 * (height * (half * bpp)) + height * bpp
  {
    MulAdd(2 * half, 1, height * bpp);
    assert (2 * half + 1) * height * bpp == (2 * half + 1) * (height * bpp);
    assert (2 * half) * (height * bpp) == 2 * (height * (half * bpp));
  }

  /**
   * The written copy length is never shorter than the stride: equal for an
   * even width, longer for an odd one with at least two bytes per pixel,
   * and never more than the whole line.
   */
  lemma CopyLengthVersusStride(width: nat, bpp: nat)
    ensures HalfStride(width, bpp) <= AsWrittenCopyLength(width, bpp) <= width * bpp
    ensures AsWrittenCopyLength(width, bpp) == HalfStride(width, bpp) + (width % 2) * bpp / 2
    ensures width % 2 == 0 ==> AsWrittenCopyLength(width, bpp) == HalfStride(width, bpp)
    ensures width % 2 == 1 && bpp >= 2 ==> AsWrittenCopyLength(width, bpp) > HalfStride(width, bpp)
  {
    var half, odd := width / 2, width % 2;
    var x := half * bpp;
    assert width == 2 * half + odd;
    MulAdd(2 * half, odd, bpp);
    assert (2 * half) * bpp == 2 * x;
    assert width * bpp == 2 * x + odd * bpp;
    if odd == 1 && bpp >= 2 {
      assert (2 * x + bpp) / 2 >= x + 1;
    }
  }

  /**
   * On the packed path with an odd width and at least two bytes per pixel,
   * rows copied with the written length overlap: the second line read (one
   * stride lower) runs into the first, whose first byte becomes a byte of
   * the second line's left-over pixels.
   */
  lemma AsWrittenRowsOverlap(m: seq<bv8>, at: nat, width: nat, bpp: nat, rows: seq<seq<bv8>>)
    requires width % 2 == 1 && bpp >= 2
    requires |rows| == 2 && |rows[0]| == |rows[1]| == AsWrittenCopyLength(width, bpp)
    requires RowsFit(m, at, HalfStride(width, bpp), rows)
    ensures var stride := HalfStride(width, bpp);
            stride < |rows[1]| &&
            PlaceRows(m, at, stride, rows, 2)[RowStart(at, stride, 2, 0)] == rows[1][stride]
  {
    var stride := width / 2 * bpp;
    CopyLengthVersusStride(width, bpp);
    assert RowStart(at, stride, 2, 0) == at + stride && RowStart(at, stride, 2, 1) == at;
    var first := PlaceRows(m, at, stride, rows, 1);
    assert PlaceRows(m, at, stride, rows, 2) == Write(first, at, rows[1]);
  }

  /**
   * A packed row as the code copies it: the line converted to `bpp` bytes
   * per pixel and thinned in place by sampleBuffer, then its first
   * theDstHalfBPL = theWidth * theDstBPP / 2 bytes.
   */
  function HalfLine(width: nat, bpp: nat, line: seq<bv8>): (r: seq<bv8>)
    requires width >= 2 && width * bpp <= |line|
    ensures |r| == AsWrittenCopyLength(width, bpp)
  {
    SampleFits(width, width / 2, bpp);
    CopyLengthVersusStride(width, bpp);
    Sampled(line, width / (width / 2), bpp, width / 2)[..AsWrittenCopyLength(width, bpp)]
  }

  /**
   * A packed row starts with the kept pixels, one stride of them; any bytes
   * after that are the converted line's own bytes at the same place, left
   * over from before the thinning.
   */
  lemma HalfLineParts(width: nat, bpp: nat, line: seq<bv8>)
    requires width >= 2 && width * bpp <= |line|
    ensures width / (width / 2) >= 1 && width / 2 * (width / (width / 2)) * bpp <= |line|
    ensures HalfStride(width, bpp) <= AsWrittenCopyLength(width, bpp) <= |line|
    ensures HalfLine(width, bpp, line)[..HalfStride(width, bpp)] == Sample(line, width / (width / 2), bpp, width / 2)
    ensures HalfLine(width, bpp, line)[HalfStride(width, bpp)..] ==
            line[HalfStride(width, bpp)..AsWrittenCopyLength(width, bpp)]
  {
    var ratio, n := width / (width / 2), width / 2;
    SampleFits(width, n, bpp);
    CopyLengthVersusStride(width, bpp);
    SampleLess(ratio, bpp, n);
    var sampled := Sampled(line, ratio, bpp, n);
    assert sampled == Sample(line, ratio, bpp, n) + line[n * bpp..];
    assert sampled[..n * bpp] == Sample(line, ratio, bpp, n);
  }

  /** The packed rows of a half-size bitmap, in file order. */
  function HalfRows(info: BmpInfo, bpp: nat, raw0: seq<bv8>): (rows: seq<seq<bv8>>)
    requires info.bpp in {1, 3} && 1 <= bpp <= 4 && |raw0| == info.width * info.bpp
    requires info.height > 0 ==> info.width >= 2
    ensures |rows| == info.height
    ensures forall i :: 0 <= i < |rows| ==> |rows[i]| == AsWrittenCopyLength(info.width, bpp)
  {
    var full := BitmapRows(info, bpp, raw0);
    seq(info.height, i requires 0 <= i < info.height => HalfLine(info.width, bpp, full[i]))
  }

  /**
   * `after` is `before` with the half-size rows written from `at` on, one
   * stride apart, bottom row first, each theDstHalfBPL bytes long.
   */
  ghost predicate HalfPlaced(before: seq<bv8>, after: seq<bv8>, at: nat, info: BmpInfo, bpp: nat, raw0: seq<bv8>)
  {
    info.bpp in {1, 3} && 1 <= bpp <= 4 && |raw0| == info.width * info.bpp &&
    (info.height > 0 ==> info.width >= 2) &&
    RowsFit(before, at, HalfStride(info.width, bpp), HalfRows(info, bpp, raw0)) &&
    after == PlaceRows(before, at, HalfStride(info.width, bpp), HalfRows(info, bpp, raw0), info.height)
  }

  /** What HalfPlaced says about the rows, in the terms of RowPlacement: all theDstHalfBPL long, one stride apart. */
  lemma HalfPlacedRows(before: seq<bv8>, after: seq<bv8>, at: nat, info: BmpInfo, bpp: nat, raw0: seq<bv8>)
    requires HalfPlaced(before, after, at, info, bpp, raw0)
    ensures |HalfRows(info, bpp, raw0)| == info.height
    ensures RowsFit(before, at, HalfStride(info.width, bpp), HalfRows(info, bpp, raw0))
    ensures after == PlaceRows(before, at, HalfStride(info.width, bpp), HalfRows(info, bpp, raw0), info.height)
    ensures HalfStride(info.width, bpp) <= AsWrittenCopyLength(info.width, bpp)
    ensures forall i :: 0 <= i < |HalfRows(info, bpp, raw0)| ==> |HalfRows(info, bpp, raw0)[i]| == AsWrittenCopyLength(info.width, bpp)
  {
    CopyLengthVersusStride(info.width, bpp);
  }

  /**
   * A packed row can be read back from where it was copied, except for its
   * first theDstHalfBPL - stride bytes (none for an even width), which the
   * copy of the next line down overwrites.
   */
  lemma HalfRowsReadBack(before: seq<bv8>, after: seq<bv8>, at: nat, info: BmpInfo, bpp: nat, raw0: seq<bv8>,
                         r: nat, k: nat)
    requires HalfPlaced(before, after, at, info, bpp, raw0)
    requires r < info.height && k < AsWrittenCopyLength(info.width, bpp)
    requires AsWrittenCopyLength(info.width, bpp) - HalfStride(info.width, bpp) <= k
    ensures RowStart(at, HalfStride(info.width, bpp), info.height, r) + k < |after|
    ensures after[RowStart(at, HalfStride(info.width, bpp), info.height, r) + k] == HalfRows(info, bpp, raw0)[r][k]
  {
    HalfPlacedRows(before, after, at, info, bpp, raw0);
    LongRowsReadBack(before, after, at, HalfStride(info.width, bpp), AsWrittenCopyLength(info.width, bpp),
                     HalfRows(info, bpp, raw0), info.height, r, k);
  }

  /** The row copied last, the top row of the surface, can be read back whole. */
  lemma TopHalfRowReadBack(before: seq<bv8>, after: seq<bv8>, at: nat, info: BmpInfo, bpp: nat, raw0: seq<bv8>,
                           k: nat)
    requires HalfPlaced(before, after, at, info, bpp, raw0)
    requires info.height > 0 && k < AsWrittenCopyLength(info.width, bpp)
    ensures RowStart(at, HalfStride(info.width, bpp), info.height, info.height - 1) + k < |after|
    ensures after[RowStart(at, HalfStride(info.width, bpp), info.height, info.height - 1) + k] ==
            HalfRows(info, bpp, raw0)[info.height - 1][k]
  {
    HalfPlacedRows(before, after, at, info, bpp, raw0);
    LastRowWritten(before, after, at, HalfStride(info.width, bpp), HalfRows(info, bpp, raw0), info.height, k);
  }

  /** With an even width the packed rows, one stride long, do not overlap: every row can be read back whole. */
  lemma EvenHalfRowsReadBack(before: seq<bv8>, after: seq<bv8>, at: nat, info: BmpInfo, bpp: nat, raw0: seq<bv8>,
                             r: nat, k: nat)
    requires HalfPlaced(before, after, at, info, bpp, raw0) && info.width % 2 == 0
    requires r < info.height && k < AsWrittenCopyLength(info.width, bpp)
    ensures RowStart(at, HalfStride(info.width, bpp), info.height, r) + k < |after|
    ensures after[RowStart(at, HalfStride(info.width, bpp), info.height, r) + k] == HalfRows(info, bpp, raw0)[r][k]
  {
    CopyLengthVersusStride(info.width, bpp);
    assert AsWrittenCopyLength(info.width, bpp) == HalfStride(info.width, bpp);
    HalfRowsReadBack(before, after, at, info, bpp, raw0, r, k);
  }

  /**
   * The intended packing copies one stride, theWidth / 2 * theDstBPP
   * bytes, per row: only the kept pixels.
   */
  function StrideRows(info: BmpInfo, bpp: nat, raw0: seq<bv8>): (rows: seq<seq<bv8>>)
    requires info.bpp in {1, 3} && 1 <= bpp <= 4 && |raw0| == info.width * info.bpp
    requires info.height > 0 ==> info.width >= 2
    ensures |rows| == info.height
    ensures forall i :: 0 <= i < |rows| ==> |rows[i]| == HalfStride(info.width, bpp)
  {
    CopyLengthVersusStride(info.width, bpp);
    var full := HalfRows(info, bpp, raw0);
    seq(info.height, i requires 0 <= i < info.height => full[i][..HalfStride(info.width, bpp)])
  }

  /**
   * With one-stride copies every row, of any width, can be read back whole:
   * the first stride of each packed row, the kept pixels (HalfLineParts).
   */
  lemma StrideRowsReadBack(before: seq<bv8>, after: seq<bv8>, at: nat, info: BmpInfo, bpp: nat, raw0: seq<bv8>,
                           r: nat, k: nat)
    requires info.bpp in {1, 3} && 1 <= bpp <= 4 && |raw0| == info.width * info.bpp
    requires info.height > 0 ==> info.width >= 2
    requires RowsPlaced(before, after, at, HalfStride(info.width, bpp), StrideRows(info, bpp, raw0), info.height)
    requires r < info.height && k < HalfStride(info.width, bpp)
    ensures RowStart(at, HalfStride(info.width, bpp), info.height, r) + k < |after|
    ensures k < |HalfRows(info, bpp, raw0)[r]|
    ensures after[RowStart(at, HalfStride(info.width, bpp), info.height, r) + k] == HalfRows(info, bpp, raw0)[r][k]
  {
    var stride := HalfStride(info.width, bpp);
    var rows := StrideRows(info, bpp, raw0);
    PlacedReadBack(before, after, at, stride, rows, info.height, r, k);
    CopyLengthVersusStride(info.width, bpp);
    assert rows[r] == HalfRows(info, bpp, raw0)[r][..stride];
  }

  /** Packing touches only the bytes reserved for the bitmap, theBufferSize of them from `at` on. */
  lemma HalfPlacedStaysInside(before: seq<bv8>, after: seq<bv8>, at: nat, info: BmpInfo, bpp: nat,
                              raw0: seq<bv8>, j: nat)
    requires HalfPlaced(before, after, at, info, bpp, raw0)
    requires j < |before| && (j < at || at + HalfBufferSize(info.width, info.height, bpp) <= j)
    ensures after[j] == before[j]
  {
    var stride, len := HalfStride(info.width, bpp), AsWrittenCopyLength(info.width, bpp);
    if info.height > 0 {
      HalfCopiesFit(info.width, info.height, bpp);
      CopyLengthVersusStride(info.width, bpp);
      PlaceRowsOutsideRegion(before, at, stride, HalfRows(info, bpp, raw0), j, len - stride);
    }
  }

  /**
   * One pass of the packed row loop: BMP_Readline, BMP_Convert,
   * sampleBuffer, then memcpy of theDstHalfBPL bytes of the thinned line to
   * `bits`.
   */
  method LoadHalfRow(target: array<bv8>, bits: nat, file: Cursor, rawImage: array<bv8>, image: array<bv8>,
                     width: nat, bpp: nat, palette: seq<bv8>, srcBpp: nat)
    returns (next: Cursor)
    requires srcBpp in {1, 3} && 1 <= bpp <= 4 && |palette| == QuadSize * PaletteEntries && width >= 2
    requires rawImage.Length == width * srcBpp && image.Length == width * bpp
    requires target != rawImage && target != image && rawImage != image
    requires bits + AsWrittenCopyLength(width, bpp) <= target.Length
    modifies target, rawImage, image
    ensures next == ReadLine(file, width * srcBpp).2
    ensures rawImage[..] == Overlay(old(rawImage[..]), ReadLine(file, width * srcBpp).1)
    ensures ConvertLine.requires(width, bpp, rawImage[..], palette, srcBpp)
    ensures target[..] == Write(old(target[..]), bits, HalfLine(width, bpp, ConvertLine(width, bpp, rawImage[..], palette, srcBpp)))
  {
    RawLineBytesOf(width, srcBpp);
    assert OutBytes(width, bpp) == image.Length;
    next := ReadInto(file, rawImage, width * srcBpp);
    Convert(width, bpp, rawImage[..], palette, image, srcBpp);
    ghost var line := image[..];
    assert line == ConvertLine(width, bpp, rawImage[..], palette, srcBpp);
    SampleBuffer(width, width / 2, bpp, image);
    CopyLengthVersusStride(width, bpp);
    CopyPrefix(target, bits, image, AsWrittenCopyLength(width, bpp));
  }

  /** memcpy of the first `n` bytes of a line buffer to `at`. */
  method CopyPrefix(dst: array<bv8>, at: nat, src: array<bv8>, n: nat)
    requires dst != src && n <= src.Length && at + n <= dst.Length
    modifies dst
    ensures dst[..] == Write(old(dst[..]), at, src[..n])
  {
    forall k | 0 <= k < n {
      dst[at + k] := src[k];
    }
  }

  /** Row i of the half-size bitmap is the line buffer after read i + 1, converted and thinned. */
  lemma RowOfHalf(info: BmpInfo, bpp: nat, raw0: seq<bv8>, i: nat)
    requires info.bpp in {1, 3} && 1 <= bpp <= 4 && |raw0| == info.width * info.bpp
    requires i < info.height && info.width >= 2
    ensures ConvertLine.requires(info.width, bpp, LineBuffer(info.file, info.width * info.bpp, raw0, i + 1),
                                 PaletteOf(info), info.bpp)
    ensures HalfRows(info, bpp, raw0)[i] ==
            HalfLine(info.width, bpp,
                     ConvertLine(info.width, bpp, LineBuffer(info.file, info.width * info.bpp, raw0, i + 1),
                                 PaletteOf(info), info.bpp))
  {
    RowOfBitmap(info, bpp, raw0, i);
  }

  /** One pass of the packed row loop takes the state after `i` lines to the state after `i + 1`. */
  lemma HalfStep(m0: seq<bv8>, base: nat, info: BmpInfo, bpp: nat, raw0: seq<bv8>, rows: seq<seq<bv8>>,
                 i: nat, c: Cursor, buf: seq<bv8>, m: seq<bv8>, c': Cursor, buf': seq<bv8>, m': seq<bv8>)
    requires info.bpp in {1, 3} && 1 <= bpp <= 4 && |raw0| == info.width * info.bpp && info.width >= 2
    requires rows == HalfRows(info, bpp, raw0) && i < |rows|
    requires RowsLoaded(m0, base, HalfStride(info.width, bpp), info.file, info.width * info.bpp, raw0, rows, i, c, buf, m)
    requires c' == ReadLine(c, info.width * info.bpp).2
    requires buf' == Overlay(buf, ReadLine(c, info.width * info.bpp).1)
    requires ConvertLine.requires(info.width, bpp, buf', PaletteOf(info), info.bpp)
    requires RowStart(base, HalfStride(info.width, bpp), |rows|, i) + AsWrittenCopyLength(info.width, bpp) <= |m|
    requires m' == Write(m, RowStart(base, HalfStride(info.width, bpp), |rows|, i),
                         HalfLine(info.width, bpp, ConvertLine(info.width, bpp, buf', PaletteOf(info), info.bpp)))
    ensures RowsLoaded(m0, base, HalfStride(info.width, bpp), info.file, info.width * info.bpp, raw0, rows, i + 1, c', buf', m')
  {
    ReadsStep(info.file, info.width * info.bpp, raw0, i, c, buf);
    RowOfHalf(info, bpp, raw0, i);
  }

  /**
   * One pass of the packed row loop, `theBits -= stride` included, with the
   * loop's invariant carried from `i` lines to `i + 1`.
   */
  method LoadNextHalfRow(target: array<bv8>, bits: int, file: Cursor, rawImage: array<bv8>, image: array<bv8>,
                         info: BmpInfo, bpp: nat, palette: seq<bv8>, ghost base: nat,
                         ghost raw0: seq<bv8>, ghost rows: seq<seq<bv8>>, ghost m0: seq<bv8>, ghost i: nat)
    returns (next: Cursor, nextBits: int)
    requires info.bpp in {1, 3} && 1 <= bpp <= 4 && |raw0| == info.width * info.bpp && palette == PaletteOf(info)
    requires info.width >= 2
    requires rawImage.Length == info.width * info.bpp && image.Length == info.width * bpp
    requires target != rawImage && target != image && rawImage != image
    requires rows == HalfRows(info, bpp, raw0) && i < info.height
    requires bits == RowStart(base, HalfStride(info.width, bpp), info.height, i)
    requires RowsLoaded(m0, base, HalfStride(info.width, bpp), info.file, info.width * info.bpp, raw0, rows, i, file,
                        rawImage[..], target[..])
    modifies target, rawImage, image
    ensures RowsLoaded(m0, base, HalfStride(info.width, bpp), info.file, info.width * info.bpp, raw0, rows, i + 1, next,
                       rawImage[..], target[..])
    ensures nextBits == bits - HalfStride(info.width, bpp)
    ensures i + 1 < info.height ==> nextBits == RowStart(base, HalfStride(info.width, bpp), info.height, i + 1)
  {
    RowFits(m0, base, HalfStride(info.width, bpp), rows, i);
    ghost var m, buf := target[..], rawImage[..];
    next := LoadHalfRow(target, bits, file, rawImage, image, info.width, bpp, palette, info.bpp);
    HalfStep(m0, base, info, bpp, raw0, rows, i, file, buf, m, next, rawImage[..], target[..]);
    nextBits := bits - info.width / 2 * bpp;
    if i + 1 < info.height {
      RowStartStep(base, HalfStride(info.width, bpp), info.height, i);
    }
  }

  /** Rows copied theDstHalfBPL bytes long, one stride apart, fit in memory that holds theBufferSize bytes from `base` on. */
  lemma HalfRowsFit(m: seq<bv8>, base: nat, info: BmpInfo, bpp: nat, raw0: seq<bv8>)
    requires info.bpp in {1, 3} && 1 <= bpp <= 4 && |raw0| == info.width * info.bpp
    requires info.height > 0 ==> info.width >= 2
    requires base + HalfBufferSize(info.width, info.height, bpp) <= |m|
    ensures RowsFit(m, base, HalfStride(info.width, bpp), HalfRows(info, bpp, raw0))
  {
    if info.height > 0 {
      var stride, len := HalfStride(info.width, bpp), AsWrittenCopyLength(info.width, bpp);
      HalfCopiesFit(info.width, info.height, bpp);
      CopyLengthVersusStride(info.width, bpp);
      RegionFits(m, base, stride, HalfRows(info, bpp, raw0), len, len - stride);
    }
  }

  /**
   * The packed path's row loop: rows `stride` = theWidth / 2 * theBpp apart
   * from `base` on, bottom row first, each copied theDstHalfBPL bytes long,
   * through the two line buffers it allocates.
   */
  method LoadHalfRows(target: array<bv8>, base: nat, info: BmpInfo, bpp: nat, raw0: seq<bv8>)
    requires info.bpp in {1, 3} && 1 <= bpp <= 4 && |raw0| == info.width * info.bpp
    requires info.height > 0 ==> info.width >= 2
    requires RowsFit(target[..], base, HalfStride(info.width, bpp), HalfRows(info, bpp, raw0))
    modifies target
    ensures HalfPlaced(old(target[..]), target[..], base, info, bpp, raw0)
  {
    var srcBpl := info.width * info.bpp;
    var rawImage := new bv8[srcBpl](k requires 0 <= k < srcBpl => raw0[k]);
    var image := new bv8[info.width * bpp];
    PackHalfRows(target, rawImage, image, base, info, bpp, raw0);
  }

  /** The row loop proper, over line buffers `rawImage` (holding `raw0`) and `image`. */
  method PackHalfRows(target: array<bv8>, rawImage: array<bv8>, image: array<bv8>, base: nat, info: BmpInfo, bpp: nat,
                      raw0: seq<bv8>)
    requires info.bpp in {1, 3} && 1 <= bpp <= 4 && |raw0| == info.width * info.bpp
    requires info.height > 0 ==> info.width >= 2
    requires rawImage[..] == raw0 && image.Length == info.width * bpp
    requires target != rawImage && target != image && rawImage != image
    requires RowsFit(target[..], base, HalfStride(info.width, bpp), HalfRows(info, bpp, raw0))
    modifies target, rawImage, image
    ensures HalfPlaced(old(target[..]), target[..], base, info, bpp, raw0)
  {
    var height := info.height;
    var palette := PaletteOf(info);
    ghost var rows := HalfRows(info, bpp, raw0);
    ghost var m0 := target[..];
    var bits: int := base + (height - 1) * (info.width / 2 * bpp);
    var file := info.file;
    var i := 0;
    while i < height
      invariant 0 <= i <= height
      invariant i < height ==> bits == RowStart(base, HalfStride(info.width, bpp), info.height, i)
      invariant RowsLoaded(m0, base, HalfStride(info.width, bpp), info.file, info.width * info.bpp, raw0, rows, i, file,
                           rawImage[..], target[..])
    {
      file, bits := LoadNextHalfRow(target, bits, file, rawImage, image, info, bpp, palette, base, raw0, rows, m0, i);
      i := i + 1;
    }
    HalfLoaded(m0, base, info, bpp, raw0, file, rawImage[..], target[..]);
  }

  /** Once every line has been through the packed row loop, the half-size rows are placed. */
  lemma HalfLoaded(m0: seq<bv8>, base: nat, info: BmpInfo, bpp: nat, raw0: seq<bv8>, c: Cursor, buf: seq<bv8>,
                   m: seq<bv8>)
    requires info.bpp in {1, 3} && 1 <= bpp <= 4 && |raw0| == info.width * info.bpp
    requires info.height > 0 ==> info.width >= 2
    requires RowsLoaded(m0, base, HalfStride(info.width, bpp), info.file, info.width * info.bpp, raw0,
                        HalfRows(info, bpp, raw0), info.height, c, buf, m)
    ensures HalfPlaced(m0, m, base, info, bpp, raw0)
  {
  }

  /** bmpLoadSurfaceHalf's theBufferSize for the bitmap in `data` (0 for a file BMP_Open refuses). */
  function HalfBitmapSize(data: seq<bv8>, bpp: nat): nat
  {
    if BmpOpen(data).Some? then HalfBufferSize(BmpOpen(data).value.width, BmpOpen(data).value.height, bpp) else 0
  }

  /**
   * bmpLoadSurfaceHalf packs into the primary surface: the bitmap is
   * accepted, no system-memory surface is asked for, and at least
   * theBufferSize bytes are left.
   */
  predicate PacksBitmap(data: seq<bv8>, bpp: nat, format: Format, used: nat, size: nat)
  {
    BitmapAccepted(data, bpp) && !format.system && used + HalfBitmapSize(data, bpp) <= size
  }

  /** LoadTexturePri's theBufferSize: width * height * bytes per texel, with no line alignment. */
  function TextureBufferSize(info: TexInfo): nat
  {
    info.width * info.height * info.bpp
  }

  /** LoadTexturePri packs into the primary surface: the file is a texture and at least theBufferSize bytes are left. */
  predicate PacksTexture(data: seq<bv8>, used: nat, size: nat)
  {
    TextureOpen(data).Some? && used + TextureBufferSize(TextureOpen(data).value) <= size
  }

  /** Texture rows one unaligned line apart fill exactly the bytes reserved. */
  lemma TextureFits(info: TexInfo)
    ensures info.height * (info.width * info.bpp) == TextureBufferSize(info)
  {
  }

  /** Packing a texture touches only the bytes reserved for it. */
  lemma TexturePlacedStaysInside(before: seq<bv8>, after: seq<bv8>, at: nat, info: TexInfo, raw0: seq<bv8>, j: nat)
    requires TexturePlaced(before, after, at, info.width * info.bpp, info, raw0)
    requires j < |before| && (j < at || at + TextureBufferSize(info) <= j)
    ensures after[j] == before[j]
  {
    TextureFits(info);
    PlaceRowsOutsideRegion(before, at, info.width * info.bpp, TextureRows(info, raw0), j, 0);
  }

  /**
   * The primary surface as STRETCH.C shares it out: sizePriSurf bytes, of
   * which the first memUsedPriSurf hold packed bitmaps and textures.
   * `base` is dummySurf.sfOffset, the surface's frame-buffer offset;
   * `memory` is its bytes from lpSurface on.  `packed` records each packed
   * image as (offset from lpSurface, bytes reserved).
   */
  class PrimarySurface {
    const size: nat
    const base: nat
    const memory: array<bv8>
    var memUsed: nat
    ghost var packed: seq<(nat, nat)>

    /** memUsedPriSurf never passes sizePriSurf, and the packed images lie below it, one after another. */
    ghost predicate Valid()
      reads this
    {
      memUsed <= size <= memory.Length &&
      (forall i :: 0 <= i < |packed| ==> packed[i].0 + packed[i].1 <= memUsed) &&
      (forall i, j :: 0 <= i < j < |packed| ==> packed[i].0 + packed[i].1 <= packed[j].0)
    }

    /** initMemoryBuffer: the primary surface is empty, sizePriSurf = 640 * 480 * 1 bytes. */
    constructor (base: nat, memory: array<bv8>)
      requires PrimarySize <= memory.Length
      ensures Valid() && size == PrimarySize && memUsed == 0 && packed == []
      ensures this.base == base && this.memory == memory
    {
      size := PrimarySize;
      this.base := base;
      this.memory := memory;
      memUsed := 0;
      packed := [];
    }

    /** Reserving `need` bytes at memUsed keeps the images below memUsed and apart. */
    method Reserve(need: nat)
      requires Valid() && memUsed + need <= size
      modifies this`memUsed, this`packed
      ensures Valid()
      ensures memUsed == old(memUsed) + need && packed == old(packed) + [(old(memUsed), need)]
    {
      packed := packed + [(memUsed, need)];
      memUsed := memUsed + need;
    }

    /**
     * bmpLoadSurfaceHalf: refuses a depth outside 1..4, a file BMP_Open
     * refuses, and an RGB bitmap for an indexed surface.  A surface half
     * the bitmap's width is packed into the primary surface when
     * PacksBitmap holds; otherwise DirectDraw creates one, at `created`
     * (None when it fails).  `lineBuffers` says whether the two line
     * buffers could be malloc'ed.
     */
    method LoadBitmapHalf(surf: Surface, data: seq<bv8>, bpp: nat, format: Format, created: Option<nat>,
                          lineBuffers: bool, raw0: seq<bv8>)
      returns (ok: bool, s: Surface)
      requires Valid()
      requires |raw0| == RawLineBytes(data)
      requires BitmapAccepted(data, bpp) && BmpOpen(data).value.height > 0 ==> BmpOpen(data).value.width >= 2
      modifies this`memUsed, this`packed, memory
      ensures Valid()
      ensures !BitmapAccepted(data, bpp) ==> !ok && s == surf
      ensures BitmapAccepted(data, bpp) ==> s.width == BmpOpen(data).value.width / 2 &&
                                            s.height == BmpOpen(data).value.height && s.format == format
      ensures PacksBitmap(data, bpp, format, old(memUsed), size) ==> s.offset == base + old(memUsed) && (ok <==> lineBuffers)
      ensures BitmapAccepted(data, bpp) && !PacksBitmap(data, bpp, format, old(memUsed), size) ==>
                s.offset == (if created.Some? then created.value else surf.offset) &&
                (ok <==> created.Some? && lineBuffers)
      ensures if PacksBitmap(data, bpp, format, old(memUsed), size) && lineBuffers
              then memUsed == old(memUsed) + HalfBitmapSize(data, bpp) &&
                   packed == old(packed) + [(old(memUsed), HalfBitmapSize(data, bpp))] &&
                   HalfPlaced(old(memory[..]), memory[..], old(memUsed), BmpOpen(data).value, bpp, raw0)
              else memUsed == old(memUsed) && packed == old(packed) && memory[..] == old(memory[..])
    {
      s := surf;
      if bpp < 1 || bpp > 4 {
        return false, s;
      }
      var header := BmpOpen(data);
      if header.None? {
        return false, s;
      }
      var info := header.value;
      if bpp == 1 && info.bpp != 1 {
        return false, s;
      }
      var bufferSize := info.width * info.height * bpp / 2;
      if format.system || size - memUsed < bufferSize {
        s := Surface(info.width / 2, info.height, format, if created.Some? then created.value else surf.offset);
        return created.Some? && lineBuffers, s;
      }
      s := Surface(info.width / 2, info.height, format, base + memUsed);
      if !lineBuffers {
        return false, s;
      }
      HalfRowsFit(memory[..], memUsed, info, bpp, raw0);
      LoadHalfRows(memory, memUsed, info, bpp, raw0);
      Reserve(bufferSize);
      return true, s;
    }

    /**
     * LoadTexturePri: refuses a file TextureOpen refuses; packs the texture
     * into the primary surface when PacksTexture holds, and has DirectDraw
     * create a surface for it otherwise, at `created` (None when that
     * fails).  `levels` is the mipmap level count TextureOpen reports, or
     * `levels0` when the file is refused; `lineBuffer` says whether the
     * line buffer could be malloc'ed.
     */
    method LoadTexturePri(surf: Surface, data: seq<bv8>, levels0: bv16, created: Option<nat>, lineBuffer: bool,
                          raw0: seq<bv8>)
      returns (ok: bool, s: Surface, levels: bv16)
      requires Valid()
      requires TextureOpen(data).Some? ==> |raw0| == TextureOpen(data).value.width * TextureOpen(data).value.bpp
      modifies this`memUsed, this`packed, memory
      ensures Valid()
      ensures TextureOpen(data).None? ==> !ok && s == surf && levels == levels0
      ensures TextureOpen(data).Some? ==> levels == TextureOpen(data).value.levels &&
                                          s.width == TextureOpen(data).value.width &&
                                          s.height == TextureOpen(data).value.height &&
                                          s.format == TextureOpen(data).value.format
      ensures PacksTexture(data, old(memUsed), size) ==> s.offset == base + old(memUsed) && (ok <==> lineBuffer)
      ensures TextureOpen(data).Some? && !PacksTexture(data, old(memUsed), size) ==>
                s.offset == (if created.Some? then created.value else surf.offset) &&
                (ok <==> created.Some? && lineBuffer)
      ensures if PacksTexture(data, old(memUsed), size) && lineBuffer
              then memUsed == old(memUsed) + TextureBufferSize(TextureOpen(data).value) &&
                   packed == old(packed) + [(old(memUsed), TextureBufferSize(TextureOpen(data).value))] &&
                   TexturePlaced(old(memory[..]), memory[..], old(memUsed),
                                 TextureOpen(data).value.width * TextureOpen(data).value.bpp,
                                 TextureOpen(data).value, raw0)
              else memUsed == old(memUsed) && packed == old(packed) && memory[..] == old(memory[..])
    {
      s, levels := surf, levels0;
      var header := TextureOpen(data);
      if header.None? {
        return false, s, levels;
      }
      var info := header.value;
      levels := info.levels;
      var bufferSize := info.width * info.height * info.bpp;
      if size - memUsed < bufferSize {
        s := Surface(info.width, info.height, info.format, if created.Some? then created.value else surf.offset);
        return created.Some? && lineBuffer, s, levels;
      }
      s := Surface(info.width, info.height, info.format, base + memUsed);
      if !lineBuffer {
        return false, s, levels;
      }
      TextureFits(info);
      LoadTextureRows(memory, memUsed, info.width * info.bpp, info, raw0);
      Reserve(bufferSize);
      return true, s, levels;
    }
  }
}
