/**
 * The frame-buffer allocator of the DOS builds (allocSurf without DirectDraw,
 * SAMPLES/UTILS.C).  Video memory is handed out by bumping `memoryUsed`
 * towards `totalMemory`; every surface line is padded to a multiple of eight
 * bytes.  System-memory surfaces come from the C library's malloc, whose
 * result is a parameter here.
 *
 * The toolkit's numeric format codes are not part of this model: a format is
 * its kind plus the SYSTEM and TEXTURE flags, and the bytes-per-pixel tables
 * look at the kind only (in C they mask the flags off with 0x7fff).
 */
module SurfaceAlloc {
  import opened Toolkit
  import opened MulFacts

  datatype FormatKind =
    | VideoRGB8 | VideoRGB15 | VideoRGB24 | Z16
    | TexARGB8888 | TexARGB4444 | TexARGB1555 | TexPalettized8

  datatype Format = Format(kind: FormatKind, system: bool, texture: bool)

  /** S3DTK_SURFACE: size in pixels, format, and offset (frame-buffer offset, or address in system memory). */
  datatype Surface = Surface(width: nat, height: nat, format: Format, offset: nat)

  /** getTextureBpp: bytes per texel of a texture format, 0 for any other format. */
  function TextureBpp(f: Format): (b: nat)
    ensures b in {0, 1, 2, 4}
    ensures b != 0 <==> f.kind in {TexARGB8888, TexARGB4444, TexARGB1555, TexPalettized8}
  {
    match f.kind
    case TexARGB8888 => 4
    case TexARGB4444 => 2
    case TexARGB1555 => 2
    case TexPalettized8 => 1
    case _ => 0
  }

  /** getNonTextureBpp: bytes per pixel of a display or z-buffer format, 0 for any other format. */
  function NonTextureBpp(f: Format): (b: nat)
    ensures b in {0, 1, 2, 3}
    ensures b != 0 <==> f.kind in {VideoRGB8, VideoRGB15, VideoRGB24, Z16}
  {
    match f.kind
    case VideoRGB24 => 3
    case VideoRGB15 => 2
    case Z16 => 2
    case VideoRGB8 => 1
    case _ => 0
  }

  /** The two tables never both know a format. */
  lemma BppTablesDisjoint(f: Format)
    ensures TextureBpp(f) == 0 || NonTextureBpp(f) == 0
  {
  }

  /** (n + 7) & ~7: n rounded up to a multiple of eight. */
  function QuadAlign(n: nat): (r: nat)
    ensures r % 8 == 0 && n <= r < n + 8
  {
    (n + 7) - (n + 7) % 8
  }

  /** QuadAlign is the least multiple of eight that holds n. */
  lemma QuadAlignLeast(n: nat, m: nat)
    requires m % 8 == 0 && n <= m
    ensures QuadAlign(n) <= m
  {
  }

  /** Aligned sizes are left alone. */
  lemma QuadAlignIdempotent(n: nat)
    ensures QuadAlign(QuadAlign(n)) == QuadAlign(n)
  {
  }

  /** Bytes of one quad-word aligned line of `width` pixels of `bpp` bytes. */
  function LineSize(width: nat, bpp: nat): (n: nat)
    ensures n % 8 == 0 && width * bpp <= n < width * bpp + 8
  {
    QuadAlign(width * bpp)
  }

  /** Bytes allocSurf reserves: one aligned line per row. */
  function BufSize(width: nat, height: nat, bpp: nat): (n: nat)
    ensures n % 8 == 0
    ensures n >= width * bpp * height
  {
    MulMod8(LineSize(width, bpp), height);
    MulLe(width * bpp, LineSize(width, bpp), height);
    LineSize(width, bpp) * height
  }

  /** The pointer malloc returns as a number: NULL, written None, is 0. */
  function MallocAddress(malloced: Option<nat>): nat
  {
    if malloced.Some? then malloced.value else 0
  }

  /** The frame-buffer bump allocator: memoryUsed and totalMemory, over the linear frame buffer. */
  class VideoMemory {
    var memoryUsed: nat
    const totalMemory: nat
    /** frameBufferLinear: the frame buffer's bytes, as the samples address them. */
    const frameBuffer: array<bv8>
    /** Every video region handed out so far, as (offset, size). */
    ghost var regions: seq<(nat, nat)>

    ghost predicate Valid()
      reads this
    {
      memoryUsed <= totalMemory <= frameBuffer.Length &&
      forall i :: 0 <= i < |regions| ==> regions[i].0 + regions[i].1 <= memoryUsed
    }

    /** allocInit: nothing is allocated yet; the size comes from the toolkit. */
    constructor (totalMemory: nat, frameBuffer: array<bv8>)
      requires totalMemory <= frameBuffer.Length
      ensures Valid() && memoryUsed == 0 && regions == []
      ensures this.totalMemory == totalMemory && this.frameBuffer == frameBuffer
    {
      memoryUsed := 0;
      this.totalMemory := totalMemory;
      this.frameBuffer := frameBuffer;
      regions := [];
    }

    /**
     * allocSurf: writes the size and format into `surf` first, then takes
     * the memory.  `malloced` is the address malloc returns for a
     * system-memory surface (None or Some(0) for a NULL return).  The
     * source stores that address in the surface before testing it, so a
     * failed system allocation leaves offset 0, which is what the cleanup
     * code tests before freeing.
     */
    method AllocSurf(surf: Surface, width: nat, height: nat, bpp: nat, format: Format, malloced: Option<nat>)
      returns (ok: bool, s: Surface)
      requires Valid()
      modifies this`memoryUsed, this`regions
      ensures Valid()
      ensures s.width == width && s.height == height && s.format == format
      ensures format.system ==> memoryUsed == old(memoryUsed) && regions == old(regions) &&
                                s.offset == MallocAddress(malloced) && (ok <==> s.offset != 0)
      ensures !format.system ==> (ok <==> old(memoryUsed) + BufSize(width, height, bpp) <= totalMemory)
      ensures !format.system && ok ==> s.offset == old(memoryUsed) &&
                                       memoryUsed == old(memoryUsed) + BufSize(width, height, bpp) &&
                                       regions == old(regions) + [(s.offset, BufSize(width, height, bpp))]
      ensures !format.system && !ok ==> memoryUsed == old(memoryUsed) && regions == old(regions) &&
                                        s.offset == surf.offset
    {
      var bufsize := LineSize(width, bpp);
      bufsize := bufsize * height;
      s := Surface(width, height, format, surf.offset);
      if format.system {
        s := s.(offset := MallocAddress(malloced));
        if s.offset == 0 {
          return false, s;
        }
      } else {
        if memoryUsed + bufsize > totalMemory {
          return false, s;
        }
        s := s.(offset := memoryUsed);
        memoryUsed := memoryUsed + bufsize;
        regions := regions + [(s.offset, bufsize)];
      }
      return true, s;
    }
  }
}
