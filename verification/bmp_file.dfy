/**
 * Reading Windows bitmap files and S3d texture files (SAMPLES/UTILS.C).
 *
 * A file is its bytes plus the current file position; `read` returns the
 * bytes still in the file up to the count asked for and moves the position
 * past them, `lseek` sets the position.  Header fields are little-endian
 * and sit at fixed offsets: the 14-byte BITMAPFILEHEADER is followed by the
 * 40-byte BITMAPINFOHEADER.
 */
module BmpFile {
  import opened Toolkit
  import opened SurfaceAlloc

  /** An open file: its contents and the current position (which lseek may put past the end). */
  datatype Cursor = Cursor(data: seq<bv8>, pos: nat)

  function Remaining(c: Cursor): nat
  {
    if c.pos >= |c.data| then 0 else |c.data| - c.pos
  }

  /** read(fd, buf, n): at most n bytes, fewer at the end of the file. */
  function Read(c: Cursor, n: nat): (r: (seq<bv8>, Cursor))
    ensures |r.0| == if n <= Remaining(c) then n else Remaining(c)
    ensures r.1.data == c.data
    ensures r.1.pos == c.pos + |r.0|
    ensures |r.0| > 0 ==> c.pos + |r.0| <= |c.data| && r.0 == c.data[c.pos..c.pos + |r.0|]
  {
    var take := if n <= Remaining(c) then n else Remaining(c);
    if take == 0 then ([], c) else (c.data[c.pos..c.pos + take], c.(pos := c.pos + take))
  }

  // Little-endian words.

  function U16(s: seq<bv8>, i: nat): bv16
    requires i + 2 <= |s|
  {
    (s[i + 1] as bv16 << 8) | s[i] as bv16
  }

  /** The 32-bit word whose high and low halves are given. */
  function Join(hi: bv16, lo: bv16): bv32
  {
    (hi as bv32 << 16) | lo as bv32
  }

  function U32(s: seq<bv8>, i: nat): bv32
    requires i + 4 <= |s|
  {
    Join(U16(s, i + 2), U16(s, i))
  }

  function Le16(n: bv16): (s: seq<bv8>)
    ensures |s| == 2
  {
    [(n & 0xff) as bv8, (n >> 8) as bv8]
  }

  function Le32(n: bv32): (s: seq<bv8>)
    ensures |s| == 4
  {
    Le16((n & 0xffff) as bv16) + Le16((n >> 16) as bv16)
  }

  lemma U16OfLe16(n: bv16)
    ensures U16(Le16(n), 0) == n
  {
  }

  lemma U32OfLe32(n: bv32)
    ensures U32(Le32(n), 0) == n
  {
    U16OfLe16((n & 0xffff) as bv16);
    U16OfLe16((n >> 16) as bv16);
  }

  /** A word reads the same from any two sequences that agree on its bytes. */
  lemma U16Same(s: seq<bv8>, i: nat, t: seq<bv8>, j: nat)
    requires i + 2 <= |s| && j + 2 <= |t| && s[i] == t[j] && s[i + 1] == t[j + 1]
    ensures U16(s, i) == U16(t, j)
  {
  }

  lemma U32Same(s: seq<bv8>, i: nat, t: seq<bv8>, j: nat)
    requires i + 4 <= |s| && j + 4 <= |t|
    requires s[i] == t[j] && s[i + 1] == t[j + 1] && s[i + 2] == t[j + 2] && s[i + 3] == t[j + 3]
    ensures U32(s, i) == U32(t, j)
  {
    U16Same(s, i, t, j);
    U16Same(s, i + 2, t, j + 2);
  }

  // Header fields of a whole file, by offset.

  const HeaderSize := 54
  const PaletteSize := 1024

  function BfReserved1(d: seq<bv8>): bv16 requires |d| >= HeaderSize { U16(d, 6) }
  function BfOffBits(d: seq<bv8>): bv32 requires |d| >= HeaderSize { U32(d, 10) }
  function BiWidth(d: seq<bv8>): bv32 requires |d| >= HeaderSize { U32(d, 18) }
  function BiHeight(d: seq<bv8>): bv32 requires |d| >= HeaderSize { U32(d, 22) }
  function BiBitCount(d: seq<bv8>): bv16 requires |d| >= HeaderSize { U16(d, 28) }
  function BiCompression(d: seq<bv8>): bv32 requires |d| >= HeaderSize { U32(d, 30) }

  /** What BMP_Open reports about an accepted bitmap; `file` is positioned at the pixels. */
  datatype BmpInfo = BmpInfo(width: nat, height: nat, bpp: nat, palette: seq<bv8>, file: Cursor)

  /**
   * BMP_Open: reads both headers, accepts only uncompressed 8- and 24-bit
   * bitmaps, reads the 256-entry palette of an 8-bit bitmap and seeks to
   * the pixels.  None stands for the -1 return.
   */
  function BmpOpen(data: seq<bv8>): (r: Option<BmpInfo>)
    ensures r.Some? <==> |data| >= HeaderSize && BiBitCount(data) in {8, 24} && BiCompression(data) == 0 &&
                         (BiBitCount(data) == 8 ==> |data| >= HeaderSize + PaletteSize)
    ensures r.Some? ==> r.value == Bitmap(BiWidth(data), BiHeight(data), if BiBitCount(data) == 8 then 1 else 3,
                                          if BiBitCount(data) == 8 then data[HeaderSize..HeaderSize + PaletteSize] else [],
                                          data, BfOffBits(data))
  {
    var headers := ReadHeaders(data);
    if headers.None? then None
    else
      var (fh, ih, c2) := headers.value;
      HeaderParts(data, fh, ih);
      if (U16(ih, 14) != 8 && U16(ih, 14) != 24) || U32(ih, 16) != 0 then None
      else
        var bpp: nat := if U16(ih, 14) == 8 then 1 else 3;
        if bpp == 1 then
          var (palette, _) := Read(c2, PaletteSize);
          if |palette| != PaletteSize then None
          else Some(BmpInfo(U32(ih, 4) as nat, U32(ih, 8) as nat, bpp, palette, Cursor(data, U32(fh, 10) as nat)))
        else Some(BmpInfo(U32(ih, 4) as nat, U32(ih, 8) as nat, bpp, [], Cursor(data, U32(fh, 10) as nat)))
  }

  /**
   * The two reads both loaders start with: the 14-byte file header, then
   * the 40-byte info header; None when the file is too short for either.
   */
  function ReadHeaders(data: seq<bv8>): (r: Option<(seq<bv8>, seq<bv8>, Cursor)>)
    ensures r.Some? <==> |data| >= HeaderSize
    ensures r.Some? ==> r.value.0 == data[0..14] && r.value.1 == data[14..54] && r.value.2 == Cursor(data, 54)
  {
    var (fh, c1) := Read(Cursor(data, 0), 14);
    if |fh| != 14 then None
    else
      var (ih, c2) := Read(c1, 40);
      if |ih| != 40 then None
      else Some((fh, ih, c2))
  }

  /** The report on a bitmap with these header words, its file positioned at `offBits`. */
  function Bitmap(width: bv32, height: bv32, bpp: nat, palette: seq<bv8>, data: seq<bv8>, offBits: bv32): (r: BmpInfo)
    ensures r.width == width as nat && r.height == height as nat && r.bpp == bpp && r.palette == palette
    ensures r.file == Cursor(data, offBits as nat)
  {
    BmpInfo(width as nat, height as nat, bpp, palette, Cursor(data, offBits as nat))
  }

  /** The two header structures read from the start of the file hold the fields at their offsets. */
  lemma HeaderParts(data: seq<bv8>, fh: seq<bv8>, ih: seq<bv8>)
    requires |data| >= HeaderSize && fh == data[0..14] && ih == data[14..54]
    ensures U16(fh, 6) == BfReserved1(data) && U32(fh, 10) == BfOffBits(data)
    ensures U32(ih, 4) == BiWidth(data) && U32(ih, 8) == BiHeight(data)
    ensures U16(ih, 14) == BiBitCount(data) && U32(ih, 16) == BiCompression(data)
  {
    U16Same(fh, 6, data, 6);
    U32Same(fh, 10, data, 10);
    U32Same(ih, 4, data, 18);
    U32Same(ih, 8, data, 22);
    U16Same(ih, 14, data, 28);
    U32Same(ih, 16, data, 30);
  }

  // S3d texture files: a bitmap whose bfReserved1 describes the texels.

  /** The texel format and bytes per texel named by the low byte of bfReserved1. */
  function TexFormatOf(reserved1: bv16): (r: (FormatKind, nat))
    ensures r.1 == TextureBpp(Format(r.0, false, true))
  {
    match reserved1 & 0x00ff
    case 0 => (TexARGB8888, 4)
    case 1 => (TexARGB4444, 2)
    case 2 => (TexARGB1555, 2)
    case _ => (TexPalettized8, 1)
  }

  /** Mipmap levels: bits 8..11 of bfReserved1 when bit 15 is set, else 0. */
  function TexLevels(reserved1: bv16): (l: bv16)
    ensures l < 16
    ensures l != 0 ==> reserved1 & 0x8000 != 0
  {
    if reserved1 & 0x8000 != 0 then (reserved1 & 0x0f00) >> 8 else 0
  }

  /** What TextureOpen reports about an accepted texture file. */
  datatype TexInfo = TexInfo(width: nat, height: nat, bpp: nat, levels: bv16, format: Format, file: Cursor)

  /**
   * TextureOpen: a file is an S3d texture exactly when bfReserved1 is not
   * zero; the format, texel size and mipmap levels come from that word and
   * the file is positioned at the texels.
   */
  function TextureOpen(data: seq<bv8>): (r: Option<TexInfo>)
    ensures r.Some? <==> |data| >= HeaderSize && BfReserved1(data) != 0
    ensures r.Some? ==> r.value == Texture(BfReserved1(data), BiWidth(data), BiHeight(data), data, BfOffBits(data))
  {
    var headers := ReadHeaders(data);
    if headers.None? then None
    else
      var (fh, ih, _) := headers.value;
      HeaderParts(data, fh, ih);
      var reserved1 := U16(fh, 6);
      if reserved1 == 0 then None
      else
        Some(Texture(reserved1, U32(ih, 4), U32(ih, 8), data, U32(fh, 10)))
  }

  /**
   * The report on a texture with these header words: format, texel size
   * and mipmap levels from bfReserved1, the file positioned at `offBits`.
   */
  function Texture(reserved1: bv16, width: bv32, height: bv32, data: seq<bv8>, offBits: bv32): (r: TexInfo)
    ensures r.width == width as nat && r.height == height as nat
    ensures r.format == Format(TexFormatOf(reserved1).0, false, true) && r.bpp == TextureBpp(r.format)
    ensures r.levels == TexLevels(reserved1) && r.file == Cursor(data, offBits as nat)
  {
    var (kind, bpp) := TexFormatOf(reserved1);
    TexInfo(width as nat, height as nat, bpp, TexLevels(reserved1), Format(kind, false, true), Cursor(data, offBits as nat))
  }

  /** The low byte a texture tool writes for each texel format. */
  function TexCode(kind: FormatKind): bv16
  {
    match kind
    case TexARGB8888 => 0
    case TexARGB4444 => 1
    case TexARGB1555 => 2
    case _ => 3
  }

  /**
   * A bfReserved1 word for a texture of `kind` with `levels` mipmap levels.
   * With no levels, bit 8 is set so that the word is never zero: an
   * ARGB8888 texture marked only by its low byte would read as a plain bitmap.
   */
  function TexReserved(kind: FormatKind, levels: bv16): bv16
    requires levels < 16
  {
    if levels != 0 then 0x8000 | (levels << 8) | TexCode(kind) else 0x0100 | TexCode(kind)
  }

  /** Decoding bfReserved1 gives back the texel format and the mipmap levels it was written with. */
  lemma TexReservedRoundTrip(kind: FormatKind, levels: bv16)
    requires kind in {TexARGB8888, TexARGB4444, TexARGB1555, TexPalettized8}
    requires levels < 16
    ensures TexReserved(kind, levels) != 0
    ensures TexFormatOf(TexReserved(kind, levels)).0 == kind
    ensures TexLevels(TexReserved(kind, levels)) == levels
  {
  }

  /** The plain bitmap marker: an ARGB8888 texture without mip levels and no other bit set is refused. */
  lemma ZeroReservedIsNotTexture(data: seq<bv8>)
    requires |data| >= HeaderSize && BfReserved1(data) == 0
    ensures TextureOpen(data) == None
    ensures TexFormatOf(BfReserved1(data)).0 == TexARGB8888 && TexLevels(BfReserved1(data)) == 0
  {
  }

  // Encoding headers: the writer side of the same layout.

  /** BITMAPFILEHEADER with type "BM", the given reserved word and pixel offset. */
  function FileHeader(reserved1: bv16, offBits: bv32): (s: seq<bv8>)
    ensures |s| == 14
  {
    var r := Le16(reserved1);
    var o := Le32(offBits);
    [0x42, 0x4D, 0, 0, 0, 0, r[0], r[1], 0, 0, o[0], o[1], o[2], o[3]]
  }

  /** BITMAPINFOHEADER of a one-plane bitmap; the trailing size and colour-count fields are zero. */
  function InfoHeader(width: bv32, height: bv32, bitCount: bv16, compression: bv32): (s: seq<bv8>)
    ensures |s| == 40
  {
    InfoFields(width, height, bitCount, compression) + seq(20, _ => 0)
  }

  /** The first 20 bytes of BITMAPINFOHEADER: size, width, height, planes, bit count, compression. */
  function InfoFields(width: bv32, height: bv32, bitCount: bv16, compression: bv32): (s: seq<bv8>)
    ensures |s| == 20
  {
    [40, 0, 0, 0] + Le32(width) + Le32(height) + [1, 0] + Le16(bitCount) + Le32(compression)
  }

  lemma FileHeaderFields(reserved1: bv16, offBits: bv32)
    ensures U16(FileHeader(reserved1, offBits), 6) == reserved1
    ensures U32(FileHeader(reserved1, offBits), 10) == offBits
  {
    var f := FileHeader(reserved1, offBits);
    U16Same(f, 6, Le16(reserved1), 0);
    U16OfLe16(reserved1);
    U32Same(f, 10, Le32(offBits), 0);
    U32OfLe32(offBits);
  }

  lemma InfoHeaderFields(width: bv32, height: bv32, bitCount: bv16, compression: bv32)
    ensures var i := InfoHeader(width, height, bitCount, compression);
            U32(i, 4) == width && U32(i, 8) == height && U16(i, 14) == bitCount && U32(i, 16) == compression
  {
    var i := InfoHeader(width, height, bitCount, compression);
    var v := InfoFields(width, height, bitCount, compression);
    assert i[..20] == v;
    assert i[4..8] == v[4..8] == Le32(width);
    assert i[8..12] == v[8..12] == Le32(height);
    assert i[14..16] == v[14..16] == Le16(bitCount);
    assert i[16..20] == v[16..20] == Le32(compression);
    WordAt32(i, 4, width);
    WordAt32(i, 8, height);
    WordAt16(i, 14, bitCount);
    WordAt32(i, 16, compression);
  }

  /** Four bytes that are the little-endian encoding of `n` read back as `n`. */
  lemma WordAt32(s: seq<bv8>, i: nat, n: bv32)
    requires i + 4 <= |s| && s[i..i + 4] == Le32(n)
    ensures U32(s, i) == n
  {
    U32Same(s, i, Le32(n), 0);
    U32OfLe32(n);
  }

  /** Two bytes that are the little-endian encoding of `n` read back as `n`. */
  lemma WordAt16(s: seq<bv8>, i: nat, n: bv16)
    requires i + 2 <= |s| && s[i..i + 2] == Le16(n)
    ensures U16(s, i) == n
  {
    U16Same(s, i, Le16(n), 0);
    U16OfLe16(n);
  }

  /** The field readers recover what the header writers put in. */
  lemma HeaderRoundTrip(reserved1: bv16, offBits: bv32, width: bv32, height: bv32,
                        bitCount: bv16, compression: bv32, rest: seq<bv8>)
    ensures var d := FileHeader(reserved1, offBits) + InfoHeader(width, height, bitCount, compression) + rest;
            |d| >= HeaderSize &&
            BfReserved1(d) == reserved1 && BfOffBits(d) == offBits &&
            BiWidth(d) == width && BiHeight(d) == height &&
            BiBitCount(d) == bitCount && BiCompression(d) == compression
  {
    var f := FileHeader(reserved1, offBits);
    var i := InfoHeader(width, height, bitCount, compression);
    var d := f + i + rest;
    FileHeaderFields(reserved1, offBits);
    InfoHeaderFields(width, height, bitCount, compression);
    assert BfReserved1(d) == reserved1 by { U16Same(d, 6, f, 6); }
    assert BfOffBits(d) == offBits by { U32Same(d, 10, f, 10); }
    assert BiWidth(d) == width by { U32Same(d, 18, i, 4); }
    assert BiHeight(d) == height by { U32Same(d, 22, i, 8); }
    assert BiBitCount(d) == bitCount by { U16Same(d, 28, i, 14); }
    assert BiCompression(d) == compression by { U32Same(d, 30, i, 16); }
  }

  /** An uncompressed 24-bit bitmap written with these headers opens with the size and offset it was written with. */
  lemma BmpOpenOfWritten24(width: bv32, height: bv32, offBits: bv32, rest: seq<bv8>)
    ensures var d := FileHeader(0, offBits) + InfoHeader(width, height, 24, 0) + rest;
            BmpOpen(d) == Some(BmpInfo(width as nat, height as nat, 3, [], Cursor(d, offBits as nat)))
  {
    HeaderRoundTrip(0, offBits, width, height, 24, 0, rest);
  }

  /** A texture file written with TexReserved opens with its format, texel size and levels. */
  lemma TextureOpenOfWritten(kind: FormatKind, levels: bv16, width: bv32, height: bv32, offBits: bv32, rest: seq<bv8>)
    requires kind in {TexARGB8888, TexARGB4444, TexARGB1555, TexPalettized8}
    requires levels < 16
    ensures var d := FileHeader(TexReserved(kind, levels), offBits) + InfoHeader(width, height, 0, 0) + rest;
            TextureOpen(d).Some? &&
            TextureOpen(d).value.format == Format(kind, false, true) &&
            TextureOpen(d).value.bpp == TextureBpp(Format(kind, false, true)) &&
            TextureOpen(d).value.levels == levels &&
            TextureOpen(d).value.width == width as nat && TextureOpen(d).value.height == height as nat
  {
    HeaderRoundTrip(TexReserved(kind, levels), offBits, width, height, 0, 0, rest);
    TexReservedRoundTrip(kind, levels);
  }

  // Reading pixel lines.

  /** A line of `n` bytes padded to a four-byte boundary in the file. */
  function RoundUp4(n: nat): (r: nat)
    ensures n <= r < n + 4
  {
    if n % 4 != 0 then n + (4 - n % 4) else n
  }

  /** Padded lines end on a four-byte boundary, and a line already on one gets no padding. */
  lemma RoundUp4Aligned(n: nat)
    ensures RoundUp4(n) % 4 == 0
    ensures n % 4 == 0 ==> RoundUp4(n) == n
  {
  }

  /**
   * BMP_Readline and TextureReadline: read `width` bytes; on a full read
   * skip the padding up to the next four-byte boundary (as far as the file
   * goes) and report success.  The bytes of a short read are returned too:
   * they land in the caller's buffer.
   */
  function ReadLine(c: Cursor, width: nat): (r: (bool, seq<bv8>, Cursor))
    ensures r.2.data == c.data
    ensures r.0 <==> Remaining(c) >= width
    ensures r.0 ==> |r.1| == width
    ensures !r.0 ==> |r.1| == Remaining(c) && Remaining(r.2) == 0
    ensures |r.1| > 0 ==> c.pos + |r.1| <= |c.data| && r.1 == c.data[c.pos..c.pos + |r.1|]
  {
    var got := Read(c, width);
    if |got.0| != width then (false, got.0, got.1)
    else if width % 4 != 0 then (true, got.0, Read(got.1, 4 - width % 4).1)
    else (true, got.0, got.1)
  }

  /** A line followed by its padding moves the position to the next line. */
  lemma ReadLineSkipsPadding(c: Cursor, width: nat)
    requires c.pos + RoundUp4(width) <= |c.data|
    ensures ReadLine(c, width).0
    ensures ReadLine(c, width).1 == c.data[c.pos..c.pos + width]
    ensures ReadLine(c, width).2 == c.(pos := c.pos + RoundUp4(width))
  {
    var r := ReadLine(c, width);
    assert r.1 == c.data[c.pos..c.pos + width];
  }

  /** Padding missing at the end of the file is not an error: the line still reads. */
  lemma ReadLineLastPaddingOptional(c: Cursor, width: nat)
    requires c.pos + width <= |c.data| < c.pos + RoundUp4(width)
    ensures ReadLine(c, width).0
    ensures Remaining(ReadLine(c, width).2) == 0
  {
  }
}
