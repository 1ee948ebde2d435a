/**
 * Loading a bitmap file or an S3d texture file into a surface of the DOS
 * builds (bmpLoadSurface and LoadTexture in SAMPLES/UTILS.C).
 *
 * A video surface lives in the frame buffer at its offset; a system-memory
 * surface lives in the block malloc returned, modelled as an address into
 * `sysMem`.  Each line read from the file (converted, for a bitmap) is
 * copied to its row, bottom row first, one quad-word aligned stride apart.
 */
module SurfaceLoad {
  import opened Toolkit
  import opened SurfaceAlloc
  import opened BmpFile
  import opened PixelConvert
  import opened RowPlacement
  import opened MulFacts

  /** The palette BMP_Convert is handed: the file's for an 8-bit bitmap; a 24-bit bitmap never looks at it. */
  function PaletteOf(info: BmpInfo): (p: seq<bv8>)
    ensures |p| == QuadSize * PaletteEntries
    ensures info.bpp == 1 && |info.palette| == QuadSize * PaletteEntries ==> p == info.palette
  {
    if |info.palette| == QuadSize * PaletteEntries then info.palette else seq(QuadSize * PaletteEntries, _ => 0)
  }

  /** bmpLoadSurface's checks before it allocates: a supported depth, a readable bitmap, no RGB to indexed. */
  predicate BitmapAccepted(data: seq<bv8>, bpp: nat)
  {
    1 <= bpp <= 4 && BmpOpen(data).Some? && !(bpp == 1 && BmpOpen(data).value.bpp != 1)
  }

  /** Bytes of one raw line of the bitmap in `data` (0 for a file BMP_Open refuses). */
  function RawLineBytes(data: seq<bv8>): nat
  {
    if BmpOpen(data).Some? then BmpOpen(data).value.width * BmpOpen(data).value.bpp else 0
  }

  /** The surface memory allocSurf reserves for the bitmap in `data` at `bpp` bytes per pixel. */
  function BitmapBufSize(data: seq<bv8>, bpp: nat): nat
  {
    if BmpOpen(data).Some? then BufSize(BmpOpen(data).value.width, BmpOpen(data).value.height, bpp) else 0
  }

  /**
   * The surface rows of a bitmap, in file order: line i is the line buffer
   * after the i-th read, converted to `bpp` bytes per pixel.
   */
  function BitmapRows(info: BmpInfo, bpp: nat, raw0: seq<bv8>): (rows: seq<seq<bv8>>)
    requires info.bpp in {1, 3} && 1 <= bpp <= 4 && |raw0| == info.width * info.bpp
    ensures |rows| == info.height
    ensures forall i :: 0 <= i < |rows| ==> |rows[i]| == info.width * bpp
  {
    var lines := Reads(info.file, info.width * info.bpp, raw0, info.height).0;
    seq(info.height, i requires 0 <= i < info.height =>
      ConvertLine(info.width, bpp, lines[i], PaletteOf(info), info.bpp))
  }

  /** Rows of `len` bytes, `stride` apart with len <= stride + over, fit when the region plus `over` bytes does. */
  lemma RegionFits(m: seq<bv8>, base: nat, stride: nat, rows: seq<seq<bv8>>, len: nat, over: nat)
    requires len <= stride + over && forall i :: 0 <= i < |rows| ==> |rows[i]| == len
    requires base + |rows| * stride + over <= |m|
    ensures RowsFit(m, base, stride, rows)
  {
    forall i | 0 <= i < |rows|
      ensures RowStart(base, stride, |rows|, i) + |rows[i]| <= |m|
    {
      RowInRegion(base, stride, |rows|, i, len, over);
    }
  }

  /**
   * The row loop of bmpLoadSurface: read a line, convert it, copy it to
   * `theBits`, step `theBits` back one stride.
   */
  method LoadBitmapRows(target: array<bv8>, base: nat, stride: nat, info: BmpInfo, bpp: nat, raw0: seq<bv8>)
    requires info.bpp in {1, 3} && 1 <= bpp <= 4 && |raw0| == info.width * info.bpp
    requires info.width * bpp <= stride && base + info.height * stride <= target.Length
    modifies target
    ensures Placed(old(target[..]), target[..], base, stride, info, bpp, raw0)
  {
    var width, height := info.width, info.height;
    var srcBpl := width * info.bpp;
    var dstBpl := width * bpp;
    var palette := PaletteOf(info);
    var rawImage := new bv8[srcBpl](k requires 0 <= k < srcBpl => raw0[k]);
    var image := new bv8[dstBpl];
    ghost var rows := BitmapRows(info, bpp, raw0);
    ghost var m0 := target[..];
    assert height * stride <= target.Length - base;
    RegionFits(m0, base, stride, rows, dstBpl, 0);
    var bits: int := base + (height - 1) * stride;
    var file := info.file;
    var i := 0;
    while i < height
      invariant 0 <= i <= height
      invariant i < height ==> bits == RowStart(base, stride, info.height, i)
      invariant RowsLoaded(m0, base, stride, info.file, info.width * info.bpp, raw0, rows, i, file, rawImage[..], target[..])
    {
      file := LoadNextRow(target, bits, file, rawImage, image, info, bpp, palette, base, stride, raw0, rows, m0, i);
      if i + 1 < height {
        RowStartStep(base, stride, height, i);
      }
      bits := bits - stride;
      i := i + 1;
    }
  }

  /** One pass of the row loop, with the loop's invariant carried from `i` lines to `i + 1`. */
  method LoadNextRow(target: array<bv8>, bits: int, file: Cursor, rawImage: array<bv8>, image: array<bv8>,
                     info: BmpInfo, bpp: nat, palette: seq<bv8>, ghost base: nat, ghost stride: nat,
                     ghost raw0: seq<bv8>, ghost rows: seq<seq<bv8>>, ghost m0: seq<bv8>, ghost i: nat)
    returns (next: Cursor)
    requires info.bpp in {1, 3} && 1 <= bpp <= 4 && |raw0| == info.width * info.bpp && palette == PaletteOf(info)
    requires rawImage.Length == info.width * info.bpp && image.Length == info.width * bpp
    requires target != rawImage && target != image && rawImage != image
    requires info.width * bpp <= stride && base + info.height * stride <= target.Length
    requires rows == BitmapRows(info, bpp, raw0) && i < info.height && bits == RowStart(base, stride, info.height, i)
    requires RowsLoaded(m0, base, stride, info.file, info.width * info.bpp, raw0, rows, i, file, rawImage[..], target[..])
    modifies target, rawImage, image
    ensures RowsLoaded(m0, base, stride, info.file, info.width * info.bpp, raw0, rows, i + 1, next, rawImage[..], target[..])
  {
    RowInRegion(base, stride, info.height, i, info.width * bpp, 0);
    ghost var m, buf := target[..], rawImage[..];
    next := LoadRow(target, bits, file, rawImage, image, info.width, bpp, palette, info.bpp);
    LoadStep(m0, base, stride, info, bpp, raw0, rows, i, file, buf, m, next, rawImage[..], target[..]);
  }

  /**
   * `after` is `before` with every row of the bitmap written `stride` bytes
   * apart from `base` on, bottom row first, and no row reaches past the memory.
   */
  ghost predicate Placed(before: seq<bv8>, after: seq<bv8>, base: nat, stride: nat, info: BmpInfo, bpp: nat,
                         raw0: seq<bv8>)
  {
    info.bpp in {1, 3} && 1 <= bpp <= 4 && |raw0| == info.width * info.bpp &&
    RowsFit(before, base, stride, BitmapRows(info, bpp, raw0)) &&
    after == PlaceRows(before, base, stride, BitmapRows(info, bpp, raw0), info.height)
  }

  /** The next line read goes one stride lower. */
  lemma RowStartStep(base: nat, stride: nat, height: nat, i: nat)
    requires i + 1 < height
    ensures RowStart(base, stride, height, i + 1) == RowStart(base, stride, height, i) - stride
  {
    MulAdd(height - 1 - (i + 1), 1, stride);
  }

  /** The file position, raw line buffer and memory once the first `i` lines are loaded. */
  ghost predicate RowsLoaded(m0: seq<bv8>, base: nat, stride: nat, file: Cursor, bpl: nat, raw0: seq<bv8>,
                             rows: seq<seq<bv8>>, i: nat, c: Cursor, buf: seq<bv8>, m: seq<bv8>)
  {
    |raw0| == bpl && i <= |rows| && RowsFit(m0, base, stride, rows) &&
    c == Reads(file, bpl, raw0, i).1 &&
    buf == LineBuffer(file, bpl, raw0, i) &&
    m == PlaceRows(m0, base, stride, rows, i)
  }

  /** One pass of the row loop takes the state after `i` lines to the state after `i + 1`. */
  lemma LoadStep(m0: seq<bv8>, base: nat, stride: nat, info: BmpInfo, bpp: nat, raw0: seq<bv8>, rows: seq<seq<bv8>>,
                 i: nat, c: Cursor, buf: seq<bv8>, m: seq<bv8>, c': Cursor, buf': seq<bv8>, m': seq<bv8>)
    requires info.bpp in {1, 3} && 1 <= bpp <= 4 && |raw0| == info.width * info.bpp
    requires rows == BitmapRows(info, bpp, raw0) && i < |rows|
    requires RowsLoaded(m0, base, stride, info.file, info.width * info.bpp, raw0, rows, i, c, buf, m)
    requires c' == ReadLine(c, info.width * info.bpp).2
    requires buf' == Overlay(buf, ReadLine(c, info.width * info.bpp).1)
    requires ConvertLine.requires(info.width, bpp, buf', PaletteOf(info), info.bpp)
    requires RowStart(base, stride, |rows|, i) + info.width * bpp <= |m|
    requires m' == Write(m, RowStart(base, stride, |rows|, i),
                         ConvertLine(info.width, bpp, buf', PaletteOf(info), info.bpp))
    ensures RowsLoaded(m0, base, stride, info.file, info.width * info.bpp, raw0, rows, i + 1, c', buf', m')
  {
    var bpl := info.width * info.bpp;
    ReadsStep(info.file, bpl, raw0, i, c, buf);
    RowOfBitmap(info, bpp, raw0, i);
  }

  /** One more read: the position and line buffer of `i + 1` reads follow from those of `i`. */
  lemma ReadsStep(file: Cursor, bpl: nat, raw0: seq<bv8>, i: nat, c: Cursor, buf: seq<bv8>)
    requires |raw0| == bpl
    requires c == Reads(file, bpl, raw0, i).1 && buf == LineBuffer(file, bpl, raw0, i)
    ensures Reads(file, bpl, raw0, i + 1).1 == ReadLine(c, bpl).2
    ensures LineBuffer(file, bpl, raw0, i + 1) == Overlay(buf, ReadLine(c, bpl).1)
  {
  }

  /** Row i of the bitmap is the line buffer after read i + 1, converted. */
  lemma RowOfBitmap(info: BmpInfo, bpp: nat, raw0: seq<bv8>, i: nat)
    requires info.bpp in {1, 3} && 1 <= bpp <= 4 && |raw0| == info.width * info.bpp
    requires i < info.height
    ensures ConvertLine.requires(info.width, bpp, LineBuffer(info.file, info.width * info.bpp, raw0, i + 1),
                                 PaletteOf(info), info.bpp)
    ensures BitmapRows(info, bpp, raw0)[i] ==
            ConvertLine(info.width, bpp, LineBuffer(info.file, info.width * info.bpp, raw0, i + 1), PaletteOf(info), info.bpp)
  {
    var bpl := info.width * info.bpp;
    var line := LineBuffer(info.file, bpl, raw0, i + 1);
    assert line == Reads(info.file, bpl, raw0, i + 1).0[i];
    ReadsPrefix(info.file, bpl, raw0, info.height, i);
    assert line == Reads(info.file, bpl, raw0, info.height).0[i];
    RawLineBytesOf(info.width, info.bpp);
  }

  /** A raw line of `width` pixels holds every byte BMP_Convert reads from it. */
  lemma RawLineBytesOf(width: nat, srcBpp: nat)
    requires srcBpp in {1, 3}
    ensures SrcBytes(width, srcBpp) == width * srcBpp && width <= width * srcBpp
  {
  }

  /**
   * One pass of bmpLoadSurface's row loop: BMP_Readline into the raw line
   * buffer, BMP_Convert into the image buffer, memcpy of the image line to
   * `bits`.
   */
  method LoadRow(target: array<bv8>, bits: nat, file: Cursor, rawImage: array<bv8>, image: array<bv8>,
                 width: nat, bpp: nat, palette: seq<bv8>, srcBpp: nat)
    returns (next: Cursor)
    requires srcBpp in {1, 3} && 1 <= bpp <= 4 && |palette| == QuadSize * PaletteEntries
    requires rawImage.Length == width * srcBpp && image.Length == width * bpp
    requires target != rawImage && target != image && rawImage != image
    requires bits + width * bpp <= target.Length
    modifies target, rawImage, image
    ensures next == ReadLine(file, width * srcBpp).2
    ensures rawImage[..] == Overlay(old(rawImage[..]), ReadLine(file, width * srcBpp).1)
    ensures ConvertLine.requires(width, bpp, rawImage[..], palette, srcBpp)
    ensures target[..] == Write(old(target[..]), bits, ConvertLine(width, bpp, rawImage[..], palette, srcBpp))
  {
    RawLineBytesOf(width, srcBpp);
    assert OutBytes(width, bpp) == image.Length;
    next := ReadInto(file, rawImage, width * srcBpp);
    Convert(width, bpp, rawImage[..], palette, image, srcBpp);
    assert image[..] == image[..OutBytes(width, bpp)];
    CopyInto(target, bits, image);
  }

  /** BMP_Readline into a line buffer: the bytes read replace the front of the buffer. */
  method ReadInto(file: Cursor, buf: array<bv8>, bpl: nat) returns (next: Cursor)
    requires buf.Length == bpl
    modifies buf
    ensures next == ReadLine(file, bpl).2
    ensures buf[..] == Overlay(old(buf[..]), ReadLine(file, bpl).1)
  {
    var line := ReadLine(file, bpl);
    forall k | 0 <= k < |line.1| {
      buf[k] := line.1[k];
    }
    next := line.2;
  }

  /** memcpy of a whole line buffer to `at`. */
  method CopyInto(dst: array<bv8>, at: nat, src: array<bv8>)
    requires dst != src && at + src.Length <= dst.Length
    modifies dst
    ensures dst[..] == Write(old(dst[..]), at, src[..])
  {
    forall k | 0 <= k < src.Length {
      dst[at + k] := src[k];
    }
  }

  /**
   * bmpLoadSurface: refuses a depth outside 1..4, a file BMP_Open refuses,
   * and an RGB bitmap for an indexed surface; then allocates the surface
   * (size and format are written into it even if that fails), and fills
   * its rows.  `lineBuffers` says whether the two line buffers could be
   * malloc'ed; when not, the surface stays allocated and unfilled.
   */
  method BmpLoadSurface(vm: VideoMemory, sysMem: array<bv8>, surf: Surface, data: seq<bv8>, bpp: nat,
                        format: Format, malloced: Option<nat>, lineBuffers: bool, raw0: seq<bv8>)
    returns (ok: bool, s: Surface)
    requires vm.Valid() && sysMem != vm.frameBuffer
    requires malloced.Some? ==> malloced.value + BitmapBufSize(data, bpp) <= sysMem.Length
    requires |raw0| == RawLineBytes(data)
    modifies vm`memoryUsed, vm`regions, vm.frameBuffer, sysMem
    ensures vm.Valid()
    ensures !BitmapAccepted(data, bpp) ==> s == surf
    ensures BitmapAccepted(data, bpp) ==> s.width == BmpOpen(data).value.width && s.height == BmpOpen(data).value.height &&
                                          s.format == format
    ensures ok <==> BitmapAccepted(data, bpp) && Granted(old(vm.memoryUsed), vm.totalMemory, data, bpp, format, malloced) &&
                    lineBuffers
    ensures if BitmapAccepted(data, bpp) && Granted(old(vm.memoryUsed), vm.totalMemory, data, bpp, format, malloced) &&
               !format.system
            then s.offset == old(vm.memoryUsed) && vm.memoryUsed == old(vm.memoryUsed) + BitmapBufSize(data, bpp)
            else vm.memoryUsed == old(vm.memoryUsed)
    ensures ok && format.system ==> s.offset == malloced.value
    ensures BitmapAccepted(data, bpp) && format.system ==> s.offset == MallocAddress(malloced)
    ensures !ok || format.system ==> vm.frameBuffer[..] == old(vm.frameBuffer[..])
    ensures !ok || !format.system ==> sysMem[..] == old(sysMem[..])
    ensures ok && format.system ==> Filled(old(sysMem[..]), sysMem[..], s.offset, data, bpp, raw0)
    ensures ok && !format.system ==> Filled(old(vm.frameBuffer[..]), vm.frameBuffer[..], s.offset, data, bpp, raw0)
  {
    s := surf;
    if bpp < 1 || bpp > 4 {
      return false, s;
    }
    var header := BmpOpen(data);
    if header.None? {
      return false, s;
    }
    var info := header.value;
    if bpp == 1 && info.bpp != 1 {
      return false, s;
    }
    var granted;
    granted, s := vm.AllocSurf(surf, info.width, info.height, bpp, format, malloced);
    if !granted {
      return false, s;
    }
    if !lineBuffers {
      return false, s;
    }
    var stride := LineSize(info.width, bpp);
    BufSizeRows(info.width, info.height, bpp);
    LineHolds(info.width, bpp);
    if format.system {
      LoadBitmapRows(sysMem, s.offset, stride, info, bpp, raw0);
    } else {
      LoadBitmapRows(vm.frameBuffer, s.offset, stride, info, bpp, raw0);
    }
    return true, s;
  }

  /** An aligned line holds the whole line of pixels. */
  lemma LineHolds(width: nat, bpp: nat)
    ensures width * bpp <= LineSize(width, bpp)
  {
  }

  /** The surface memory is `height` aligned lines. */
  lemma BufSizeRows(width: nat, height: nat, bpp: nat)
    ensures BufSize(width, height, bpp) == height * LineSize(width, bpp)
  {
  }

  /** allocSurf succeeds for the bitmap in `data`: malloc returned memory, or the frame buffer has room. */
  predicate Granted(used: nat, total: nat, data: seq<bv8>, bpp: nat, format: Format, malloced: Option<nat>)
  {
    if format.system then MallocAddress(malloced) != 0 else used + BitmapBufSize(data, bpp) <= total
  }

  /** `after` is `before` with the bitmap in `data` loaded into the surface at `base`. */
  ghost predicate Filled(before: seq<bv8>, after: seq<bv8>, base: nat, data: seq<bv8>, bpp: nat, raw0: seq<bv8>)
  {
    BmpOpen(data).Some? &&
    Placed(before, after, base, LineSize(BmpOpen(data).value.width, bpp), BmpOpen(data).value, bpp, raw0)
  }

  /** The texture's rows, in file order: the line buffer after each read. */
  function TextureRows(info: TexInfo, raw0: seq<bv8>): (rows: seq<seq<bv8>>)
    requires |raw0| == info.width * info.bpp
    ensures |rows| == info.height
    ensures forall i :: 0 <= i < |rows| ==> |rows[i]| == info.width * info.bpp
  {
    Reads(info.file, info.width * info.bpp, raw0, info.height).0
  }

  /** `after` is `before` with every texture row written `stride` bytes apart from `base` on, bottom row first. */
  ghost predicate TexturePlaced(before: seq<bv8>, after: seq<bv8>, base: nat, stride: nat, info: TexInfo, raw0: seq<bv8>)
  {
    |raw0| == info.width * info.bpp &&
    RowsFit(before, base, stride, TextureRows(info, raw0)) &&
    after == PlaceRows(before, base, stride, TextureRows(info, raw0), info.height)
  }

  /** Row i of the texture is the line buffer after read i + 1. */
  lemma RowOfTexture(info: TexInfo, raw0: seq<bv8>, i: nat)
    requires |raw0| == info.width * info.bpp && i < info.height
    ensures TextureRows(info, raw0)[i] == LineBuffer(info.file, info.width * info.bpp, raw0, i + 1)
  {
    ReadsPrefix(info.file, info.width * info.bpp, raw0, info.height, i);
  }

  /** One pass of the texture row loop takes the state after `i` lines to the state after `i + 1`. */
  lemma TextureStep(m0: seq<bv8>, base: nat, stride: nat, info: TexInfo, raw0: seq<bv8>, rows: seq<seq<bv8>>,
                    i: nat, c: Cursor, buf: seq<bv8>, m: seq<bv8>, c': Cursor, buf': seq<bv8>, m': seq<bv8>)
    requires |raw0| == info.width * info.bpp
    requires rows == TextureRows(info, raw0) && i < |rows|
    requires RowsLoaded(m0, base, stride, info.file, info.width * info.bpp, raw0, rows, i, c, buf, m)
    requires c' == ReadLine(c, info.width * info.bpp).2
    requires buf' == Overlay(buf, ReadLine(c, info.width * info.bpp).1)
    requires RowStart(base, stride, |rows|, i) + |buf'| <= |m|
    requires m' == Write(m, RowStart(base, stride, |rows|, i), buf')
    ensures RowsLoaded(m0, base, stride, info.file, info.width * info.bpp, raw0, rows, i + 1, c', buf', m')
  {
    ReadsStep(info.file, info.width * info.bpp, raw0, i, c, buf);
    RowOfTexture(info, raw0, i);
  }

  /**
   * The row loop of LoadTexture: TextureReadline into the line buffer,
   * memcpy of the buffer to `theBits`, step `theBits` back one stride.
   */
  method LoadTextureRows(target: array<bv8>, base: nat, stride: nat, info: TexInfo, raw0: seq<bv8>)
    requires |raw0| == info.width * info.bpp
    requires info.width * info.bpp <= stride && base + info.height * stride <= target.Length
    modifies target
    ensures TexturePlaced(old(target[..]), target[..], base, stride, info, raw0)
  {
    var height := info.height;
    var bpl := info.width * info.bpp;
    var texture := new bv8[bpl](k requires 0 <= k < bpl => raw0[k]);
    ghost var rows := TextureRows(info, raw0);
    ghost var m0 := target[..];
    RegionFits(m0, base, stride, rows, bpl, 0);
    var bits: int := base + (height - 1) * stride;
    var file := info.file;
    var i := 0;
    while i < height
      invariant 0 <= i <= height
      invariant i < height ==> bits == RowStart(base, stride, info.height, i)
      invariant RowsLoaded(m0, base, stride, info.file, info.width * info.bpp, raw0, rows, i, file, texture[..], target[..])
    {
      file := LoadNextTextureRow(target, bits, file, texture, info, base, stride, raw0, rows, m0, i);
      if i + 1 < height {
        RowStartStep(base, stride, height, i);
      }
      bits := bits - stride;
      i := i + 1;
    }
  }

  /** One pass of the texture row loop, with the loop's invariant carried from `i` lines to `i + 1`. */
  method LoadNextTextureRow(target: array<bv8>, bits: int, file: Cursor, texture: array<bv8>, info: TexInfo,
                            ghost base: nat, ghost stride: nat, ghost raw0: seq<bv8>, ghost rows: seq<seq<bv8>>,
                            ghost m0: seq<bv8>, ghost i: nat)
    returns (next: Cursor)
    requires |raw0| == info.width * info.bpp && texture.Length == info.width * info.bpp && target != texture
    requires info.width * info.bpp <= stride && base + info.height * stride <= target.Length
    requires rows == TextureRows(info, raw0) && i < info.height && bits == RowStart(base, stride, info.height, i)
    requires RowsLoaded(m0, base, stride, info.file, info.width * info.bpp, raw0, rows, i, file, texture[..], target[..])
    modifies target, texture
    ensures RowsLoaded(m0, base, stride, info.file, info.width * info.bpp, raw0, rows, i + 1, next, texture[..], target[..])
  {
    RowInRegion(base, stride, info.height, i, info.width * info.bpp, 0);
    ghost var m, buf := target[..], texture[..];
    next := ReadInto(file, texture, info.width * info.bpp);
    CopyInto(target, bits, texture);
    TextureStep(m0, base, stride, info, raw0, rows, i, file, buf, m, next, texture[..], target[..]);
  }

  /**
   * LoadTexture: refuses a file TextureOpen refuses, allocates a video
   * surface for the texture (size and format are written into it even if
   * that fails) and fills its rows.  `levels` is the mipmap level count
   * TextureOpen reports, or `levels0` when the file is refused.
   * `lineBuffer` says whether the line buffer could be malloc'ed.
   */
  method LoadTexture(vm: VideoMemory, surf: Surface, data: seq<bv8>, levels0: bv16, lineBuffer: bool, raw0: seq<bv8>)
    returns (ok: bool, s: Surface, levels: bv16)
    requires vm.Valid()
    requires TextureOpen(data).Some? ==> |raw0| == TextureOpen(data).value.width * TextureOpen(data).value.bpp
    modifies vm`memoryUsed, vm`regions, vm.frameBuffer
    ensures vm.Valid()
    ensures TextureOpen(data).None? ==> !ok && s == surf && levels == levels0 && vm.memoryUsed == old(vm.memoryUsed)
    ensures TextureOpen(data).Some? ==>
              var info := TextureOpen(data).value;
              var size := BufSize(info.width, info.height, info.bpp);
              levels == info.levels &&
              s.width == info.width && s.height == info.height && s.format == info.format &&
              (ok <==> old(vm.memoryUsed) + size <= vm.totalMemory && lineBuffer) &&
              (old(vm.memoryUsed) + size <= vm.totalMemory ==>
                 s.offset == old(vm.memoryUsed) && vm.memoryUsed == old(vm.memoryUsed) + size) &&
              (old(vm.memoryUsed) + size > vm.totalMemory ==> vm.memoryUsed == old(vm.memoryUsed))
    ensures !ok ==> vm.frameBuffer[..] == old(vm.frameBuffer[..])
    ensures ok ==> TextureOpen(data).Some? &&
                   TexturePlaced(old(vm.frameBuffer[..]), vm.frameBuffer[..], s.offset,
                                 LineSize(TextureOpen(data).value.width, TextureOpen(data).value.bpp),
                                 TextureOpen(data).value, raw0)
  {
    s, levels := surf, levels0;
    var header := TextureOpen(data);
    if header.None? {
      return false, s, levels;
    }
    var info := header.value;
    levels := info.levels;
    var granted;
    granted, s := vm.AllocSurf(surf, info.width, info.height, info.bpp, info.format, None);
    if !granted {
      return false, s, levels;
    }
    if !lineBuffer {
      return false, s, levels;
    }
    var stride := LineSize(info.width, info.bpp);
    BufSizeRows(info.width, info.height, info.bpp);
    LineHolds(info.width, info.bpp);
    LoadTextureRows(vm.frameBuffer, s.offset, stride, info, raw0);
    return true, s, levels;
  }
}
