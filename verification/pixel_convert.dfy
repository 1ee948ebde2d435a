/**
 * Converting one line of bitmap pixels to a surface's pixel format
 * (BMP_Convert in SAMPLES/UTILS.C, built with USE1555).
 *
 * A source pixel is a palette index (8-bit bitmaps) or three bytes blue,
 * green, red (24-bit bitmaps).  A destination pixel is two bytes of
 * 1555 colour, three bytes B G R, four bytes B G R 0, or nothing for any
 * other width; a one-byte destination copies the source bytes unchanged.
 */
module PixelConvert {
  import opened MulFacts

  /** Bytes per RGBQUAD palette entry: blue, green, red, reserved. */
  const QuadSize := 4
  const PaletteEntries := 256

  /** The blue, green and red of source pixel `x`. */
  function SourceBGR(src: seq<bv8>, x: nat, srcBpp: nat, palette: seq<bv8>): (bv8, bv8, bv8)
    requires |palette| == QuadSize * PaletteEntries
    requires srcBpp == 1 ==> x < |src|
    requires srcBpp != 1 ==> 3 * x + 3 <= |src|
  {
    if srcBpp == 1 then
      var index := src[x] as int;
      (palette[QuadSize * index], palette[QuadSize * index + 1], palette[QuadSize * index + 2])
    else
      (src[3 * x], src[3 * x + 1], src[3 * x + 2])
  }

  /**
   * The rounding step of the 555 case exactly as the C expression groups
   * it: `c & 0x07 > 3` is `c & (0x07 > 3)`, that is `c & 1`, and
   * `c & 0xF8 != 0xF8` is `c & 0`.
   */
  function RoundAsWritten(c: bv8): bv8
  {
    var lowTest: bv8 := if 0x07 > 3 then 1 else 0;
    var highTest: bv8 := if 0xF8 != 0xF8 then 1 else 0;
    if c & lowTest != 0 && c & highTest != 0 then c + 4 else c
  }

  /** As written, the rounding never happens: every channel is truncated to its top five bits. */
  lemma RoundAsWrittenNeverRounds(c: bv8)
    ensures RoundAsWritten(c) == c
  {
  }

  /** Red 7 is nearer to 5-bit level 1 (8) than to level 0, yet the written code yields level 0. */
  lemma RoundAsWrittenTruncatesSeven()
    ensures RoundAsWritten(7) >> 3 == 0
    ensures Round(7) >> 3 == 1
  {
  }

  /** The intended rounding: add half a step unless the channel is already in the top step. */
  function Round(c: bv8): (r: bv8)
    ensures r >= c
  {
    if c & 0x07 > 3 && c & 0xF8 != 0xF8 then c + 4 else c
  }

  /**
   * Rounding picks the nearest 5-bit level (ties upward) and saturates at
   * level 31: the level times eight is within four of the channel.
   */
  lemma RoundNearest(c: bv8)
    ensures var q := (Round(c) >> 3) as bv16;
            q <= 31 &&
            (c < 0xF8 ==> c as bv16 <= q * 8 + 3 && q * 8 <= c as bv16 + 4) &&
            (c >= 0xF8 ==> q == 31)
  {
  }

  /** Two bytes of 1555 colour: low byte GGGBBBBB, high byte 0RRRRRGG. */
  function Pack1555(b: bv8, g: bv8, r: bv8): (s: seq<bv8>)
    ensures |s| == 2
  {
    [(b >> 3) + ((g & 0x38) << 2), (g >> 6) + ((r & 0xF8) >> 1)]
  }

  /** Read as a little-endian word, the two bytes are 0 RRRRR GGGGG BBBBB. */
  lemma Pack1555Word(b: bv8, g: bv8, r: bv8)
    ensures var s := Pack1555(b, g, r);
            (s[1] as bv16 << 8) | s[0] as bv16 ==
            ((r >> 3) as bv16 << 10) | ((g >> 3) as bv16 << 5) | (b >> 3) as bv16
  {
  }

  /**
   * The bytes one source pixel becomes in a destination of `dstBpp` (2, 3
   * or 4) bytes per pixel; the 1555 case applies the rounding step as the
   * code writes it.
   */
  function PixelOut(dstBpp: nat, bgr: (bv8, bv8, bv8)): (s: seq<bv8>)
    ensures |s| == if dstBpp in {2, 3, 4} then dstBpp else 0
  {
    var (b, g, r) := bgr;
    if dstBpp == 2 then Pack1555(RoundAsWritten(b), RoundAsWritten(g), RoundAsWritten(r))
    else if dstBpp == 3 then [b, g, r]
    else if dstBpp == 4 then [b, g, r, 0]
    else []
  }

  /** A 1555 pixel, read as a little-endian word, holds the top five bits of each channel, truncated. */
  lemma PixelOutTruncates(b: bv8, g: bv8, r: bv8)
    ensures var s := PixelOut(2, (b, g, r));
            (s[1] as bv16 << 8) | s[0] as bv16 ==
            ((r >> 3) as bv16 << 10) | ((g >> 3) as bv16 << 5) | (b >> 3) as bv16
  {
    RoundAsWrittenNeverRounds(b);
    RoundAsWrittenNeverRounds(g);
    RoundAsWrittenNeverRounds(r);
    Pack1555Word(b, g, r);
  }

  /** Source bytes a line of `width` pixels occupies. */
  function SrcBytes(width: nat, srcBpp: nat): nat
  {
    if srcBpp == 1 then width else 3 * width
  }

  /** Destination bytes a converted line of `width` pixels occupies. */
  function OutBytes(width: nat, dstBpp: nat): nat
  {
    if dstBpp == 1 then width else if dstBpp in {2, 3, 4} then width * dstBpp else 0
  }

  /** The first `n` converted pixels of the line. */
  function ConvertPixels(n: nat, dstBpp: nat, src: seq<bv8>, palette: seq<bv8>, srcBpp: nat): (s: seq<bv8>)
    requires |palette| == QuadSize * PaletteEntries
    requires SrcBytes(n, srcBpp) <= |src|
    ensures |s| == OutBytes(n, if dstBpp in {2, 3, 4} then dstBpp else 0)
  {
    if n == 0 then []
    else ConvertPixels(n - 1, dstBpp, src, palette, srcBpp) + PixelOut(dstBpp, SourceBGR(src, n - 1, srcBpp, palette))
  }

  /** The converted line BMP_Convert writes. */
  function ConvertLine(width: nat, dstBpp: nat, src: seq<bv8>, palette: seq<bv8>, srcBpp: nat): (s: seq<bv8>)
    requires |palette| == QuadSize * PaletteEntries
    requires SrcBytes(width, srcBpp) <= |src| && width <= |src|
    ensures |s| == OutBytes(width, dstBpp)
  {
    if dstBpp != 1 then ConvertPixels(width, dstBpp, src, palette, srcBpp) else src[..width]
  }

  /** Pixel x of the line lands at bytes x*dstBpp .. x*dstBpp+dstBpp-1, converted on its own. */
  lemma {:induction false} ConvertPixelsPlacement(n: nat, dstBpp: nat, src: seq<bv8>, palette: seq<bv8>, srcBpp: nat,
                                                  x: nat, k: nat)
    requires |palette| == QuadSize * PaletteEntries
    requires SrcBytes(n, srcBpp) <= |src|
    requires dstBpp in {2, 3, 4} && x < n && k < dstBpp
    ensures x * dstBpp + k < |ConvertPixels(n, dstBpp, src, palette, srcBpp)|
    ensures ConvertPixels(n, dstBpp, src, palette, srcBpp)[x * dstBpp + k] ==
            PixelOut(dstBpp, SourceBGR(src, x, srcBpp, palette))[k]
  {
    var prev := ConvertPixels(n - 1, dstBpp, src, palette, srcBpp);
    assert |prev| == (n - 1) * dstBpp;
    if x < n - 1 {
      ConvertPixelsPlacement(n - 1, dstBpp, src, palette, srcBpp, x, k);
    } else {
      assert x * dstBpp + k == |prev| + k;
    }
  }

  /** The whole line: every pixel of a 2-, 3- or 4-byte destination is its own source pixel converted. */
  lemma ConvertLinePixels(width: nat, dstBpp: nat, src: seq<bv8>, palette: seq<bv8>, srcBpp: nat)
    requires |palette| == QuadSize * PaletteEntries
    requires SrcBytes(width, srcBpp) <= |src| && width <= |src|
    requires dstBpp in {2, 3, 4}
    ensures |ConvertLine(width, dstBpp, src, palette, srcBpp)| == width * dstBpp
    ensures forall x, k :: 0 <= x < width && 0 <= k < dstBpp ==>
              x * dstBpp + k < width * dstBpp &&
              ConvertLine(width, dstBpp, src, palette, srcBpp)[x * dstBpp + k] ==
              PixelOut(dstBpp, SourceBGR(src, x, srcBpp, palette))[k]
  {
    forall x, k | 0 <= x < width && 0 <= k < dstBpp
      ensures x * dstBpp + k < width * dstBpp
      ensures ConvertLine(width, dstBpp, src, palette, srcBpp)[x * dstBpp + k] ==
              PixelOut(dstBpp, SourceBGR(src, x, srcBpp, palette))[k]
    {
      ConvertPixelsPlacement(width, dstBpp, src, palette, srcBpp, x, k);
    }
  }

  /** A 24-bit destination gets the source colours unchanged: converting from 24 bits is a copy. */
  lemma TrueColourIsCopy(width: nat, src: seq<bv8>, palette: seq<bv8>)
    requires |palette| == QuadSize * PaletteEntries
    requires 3 * width <= |src|
    ensures ConvertLine(width, 3, src, palette, 3) == src[..3 * width]
  {
    TrueColourPixels(width, src, palette);
  }

  /** The first n pixels converted from 24 to 24 bits are the first 3 * n source bytes. */
  lemma {:induction false} TrueColourPixels(n: nat, src: seq<bv8>, palette: seq<bv8>)
    requires |palette| == QuadSize * PaletteEntries
    requires 3 * n <= |src|
    ensures ConvertPixels(n, 3, src, palette, 3) == src[..3 * n]
  {
    if n > 0 {
      TrueColourPixels(n - 1, src, palette);
      var at := 3 * (n - 1);
      assert PixelOut(3, SourceBGR(src, n - 1, 3, palette)) == src[at..at + 3];
      assert src[..at] + src[at..at + 3] == src[..3 * n];
    }
  }

  /**
   * BMP_Convert: walks the source with `bufptr` and the destination with
   * `outp`, one pixel at a time.  Bytes of `out` past the converted line
   * are left alone.
   */
  method Convert(width: nat, dstBpp: nat, src: seq<bv8>, palette: seq<bv8>, out: array<bv8>, srcBpp: nat)
    requires |palette| == QuadSize * PaletteEntries
    requires SrcBytes(width, srcBpp) <= |src| && width <= |src|
    requires OutBytes(width, dstBpp) <= out.Length
    modifies out
    ensures out[..OutBytes(width, dstBpp)] == ConvertLine(width, dstBpp, src, palette, srcBpp)
    ensures out[OutBytes(width, dstBpp)..] == old(out[OutBytes(width, dstBpp)..])
  {
    if dstBpp != 1 {
      ConvertPixelsInto(width, dstBpp, src, palette, out, srcBpp);
    } else {
      CopyLine(width, src, out);
    }
  }

  /** The converting loop of BMP_Convert, for destinations other than one byte per pixel. */
  method ConvertPixelsInto(width: nat, dstBpp: nat, src: seq<bv8>, palette: seq<bv8>, out: array<bv8>, srcBpp: nat)
    requires |palette| == QuadSize * PaletteEntries
    requires SrcBytes(width, srcBpp) <= |src|
    requires dstBpp != 1 && OutBytes(width, dstBpp) <= out.Length
    modifies out
    ensures out[..OutBytes(width, dstBpp)] == ConvertPixels(width, dstBpp, src, palette, srcBpp)
    ensures out[OutBytes(width, dstBpp)..] == old(out[OutBytes(width, dstBpp)..])
  {
    var outp := 0;
    var bufptr := 0;
    var x := 0;
    ghost var step := if dstBpp in {2, 3, 4} then dstBpp else 0;
    while x < width
      invariant 0 <= x <= width
      invariant bufptr == SrcBytes(x, srcBpp)
      invariant outp == x * step
      invariant LineDone(out[..], old(out[..]), x, step, dstBpp, src, palette, srcBpp)
    {
      var b, g, r;
      b, g, r, bufptr := ReadPixel(src, bufptr, srcBpp, palette, x);
      MulStep(x, width, step);
      ghost var before := out[..];
      outp := PutPixel(out, outp, dstBpp, b, g, r);
      LineDoneStep(before, out[..], old(out[..]), x, step, dstBpp, src, palette, srcBpp);
      x := x + 1;
    }
    LineDoneAll(out[..], old(out[..]), width, step, dstBpp, src, palette, srcBpp);
  }

  /** Reads source pixel x at `bufptr`: a palette lookup for 8-bit bitmaps, three bytes otherwise. */
  method ReadPixel(src: seq<bv8>, bufptr: nat, srcBpp: nat, palette: seq<bv8>, ghost x: nat)
    returns (b: bv8, g: bv8, r: bv8, next: nat)
    requires |palette| == QuadSize * PaletteEntries
    requires bufptr == SrcBytes(x, srcBpp) && SrcBytes(x + 1, srcBpp) <= |src|
    ensures (b, g, r) == SourceBGR(src, x, srcBpp, palette)
    ensures next == SrcBytes(x + 1, srcBpp)
  {
    if srcBpp == 1 {
      var index := src[bufptr] as int;
      b, g, r := palette[QuadSize * index], palette[QuadSize * index + 1], palette[QuadSize * index + 2];
      next := bufptr + 1;
    } else {
      b, g, r := src[bufptr], src[bufptr + 1], src[bufptr + 2];
      next := bufptr + 3;
    }
  }

  /** After the last pixel the whole line is converted and the bytes past it are as they were. */
  lemma LineDoneAll(o: seq<bv8>, o0: seq<bv8>, width: nat, step: nat, dstBpp: nat, src: seq<bv8>,
                    palette: seq<bv8>, srcBpp: nat)
    requires LineDone(o, o0, width, step, dstBpp, src, palette, srcBpp) && dstBpp != 1
    ensures OutBytes(width, dstBpp) == width * step <= |o| == |o0|
    ensures o[..OutBytes(width, dstBpp)] == ConvertPixels(width, dstBpp, src, palette, srcBpp)
    ensures o[OutBytes(width, dstBpp)..] == o0[OutBytes(width, dstBpp)..]
  {
  }

  /**
   * The loop's invariant: the first x pixels are converted into the first
   * x * step bytes of `o`, and every later byte is as it was in `o0`.
   */
  ghost predicate LineDone(o: seq<bv8>, o0: seq<bv8>, x: nat, step: nat, dstBpp: nat, src: seq<bv8>,
                           palette: seq<bv8>, srcBpp: nat)
  {
    |palette| == QuadSize * PaletteEntries && SrcBytes(x, srcBpp) <= |src| &&
    step == (if dstBpp in {2, 3, 4} then dstBpp else 0) &&
    x * step <= |o| == |o0| &&
    o[..x * step] == ConvertPixels(x, dstBpp, src, palette, srcBpp) &&
    forall j :: x * step <= j < |o| ==> o[j] == o0[j]
  }

  /** Writing the bytes of pixel x after the first x converts one more pixel. */
  lemma LineDoneStep(before: seq<bv8>, after: seq<bv8>, o0: seq<bv8>, x: nat, step: nat, dstBpp: nat,
                     src: seq<bv8>, palette: seq<bv8>, srcBpp: nat)
    requires LineDone(before, o0, x, step, dstBpp, src, palette, srcBpp)
    requires SrcBytes(x + 1, srcBpp) <= |src| && x * step + step <= |before| == |after|
    requires after[..x * step + step] == before[..x * step] + PixelOut(dstBpp, SourceBGR(src, x, srcBpp, palette))
    requires forall j :: x * step + step <= j < |after| ==> after[j] == before[j]
    ensures LineDone(after, o0, x + 1, step, dstBpp, src, palette, srcBpp)
  {
    assert (x + 1) * step == x * step + step;
  }

  /** The one-byte destination: the source bytes are copied as they are. */
  method CopyLine(width: nat, src: seq<bv8>, out: array<bv8>)
    requires width <= |src| && width <= out.Length
    modifies out
    ensures out[..width] == src[..width]
    ensures out[width..] == old(out[width..])
  {
    var x := 0;
    while x < width
      invariant 0 <= x <= width
      invariant out[..x] == src[..x]
      invariant out[x..] == old(out[x..])
    {
      out[x] := src[x];
      x := x + 1;
    }
  }

  /** One pass of the `switch (wDestBytePerPixel)`: writes pixel (b, g, r) at `outp` and returns the next position. */
  method PutPixel(out: array<bv8>, outp: nat, dstBpp: nat, b: bv8, g: bv8, r: bv8) returns (next: nat)
    requires outp + |PixelOut(dstBpp, (b, g, r))| <= out.Length
    modifies out
    ensures next == outp + |PixelOut(dstBpp, (b, g, r))|
    ensures out[..next] == old(out[..outp]) + PixelOut(dstBpp, (b, g, r))
    ensures forall j :: next <= j < out.Length ==> out[j] == old(out[j])
  {
    next := outp;
    if dstBpp == 2 {
      var word := Pack1555(RoundAsWritten(b), RoundAsWritten(g), RoundAsWritten(r));
      assert word == PixelOut(dstBpp, (b, g, r));
      out[next], out[next + 1] := word[0], word[1];
      next := next + 2;
      assert out[..next] == old(out[..outp]) + word;
    } else if dstBpp == 3 {
      out[next], out[next + 1], out[next + 2] := b, g, r;
      next := next + 3;
    } else if dstBpp == 4 {
      out[next], out[next + 1], out[next + 2], out[next + 3] := b, g, r, 0;
      next := next + 4;
    }
  }
}
