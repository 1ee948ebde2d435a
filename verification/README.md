# S3D Toolkit samples: the integer core, in Dafny

This project models the integer logic of the S3D Toolkit sample programs and
proves properties of it. The samples are small DOS and DirectDraw programs for
the S3 ViRGE 3D accelerator. The model covers:

- `EXAMPLE.C`: a rotating textured object over a background bitmap, with a
  frame-rate counter and option checkmarks.
- `STRETCH.C`: the same program on an overlay. Its half-size bitmaps and
  textures are packed into the spare memory of the primary surface.
- `SHOWTEXT.C`: a viewer that steps through the mip levels of an S3d
  texture file.
- `UTILS.C`: the support code the three programs share. It covers
  frame-buffer allocation, BMP and S3d texture file reading, pixel-format
  conversion and surface loading.
- `CUBE/WC/STEREO/DOSMAIN.C`: the DOS mode tables.

## Modules

| module | file | models |
|---|---|---|
| `Toolkit` | toolkit.dfy | Rectangles (`S3DTK_RECTAREA`) and toolkit calls. The calls a program makes are kept as a trace. `LastState` reads a state register's value back from that trace. |
| `BmpFile` | bmp_file.dfy | A file is its bytes plus a position. Covers `BMP_Open`, `TextureOpen`, `BMP_Readline` and `TextureReadline`, the header layout, and the texture word `bfReserved1`. |
| `SurfaceAlloc` | surface_alloc.dfy | `getTextureBpp` and `getNonTextureBpp`, quad-word alignment, and `allocSurf` as a bump allocator class over the frame buffer. |
| `PixelConvert` | pixel_convert.dfy | `BMP_Convert` as a method over an `array<bv8>`, specified by `ConvertLine`. |
| `RowPlacement` | row_placement.dfy | The loaders' row loops: how `n` lines are read, and where bottom-up rows land in memory (`PlaceRows`). |
| `SurfaceLoad` | surface_load.dfy | `bmpLoadSurface` and `LoadTexture`. Their row loops run over the frame-buffer array. |
| `StretchPack` | stretch_pack.dfy | `sampleBuffer` in place, plus `bmpLoadSurfaceHalf` and `LoadTexturePri` as methods of a `PrimarySurface` class. |
| `Layout` | layout.dfy | Centring of the background bitmap, heads-up rectangles, the object's bounding box, and the dirty-rectangle split. |
| `SampleApp` | sample_app.dfy | The `Sample` class holds the globals of EXAMPLE.C and STRETCH.C; a `Variant` chooses between the two programs. Its methods cover key handling, `setupTexture`, `displayFrameRate`, `displayOptionStatus`, `initBackground`, `transformObject` and `updateScreen`. |
| `TextureViewer` | texture_viewer.dfy | The `Viewer` class of SHOWTEXT.C: `initObject`, `nextLevel`, `previousLevel`, `updateScreen` and `processKey`. |
| `ModeTables` | mode_tables.dfy | `getScreenWidth`, `getScreenHeight` and `getScreenBpp`. |
| `CommandLine` | command_line.dfy | `processCmdLine` of EXAMPLE.C and SHOWTEXT.C, including the `%lx` conversion. |

Several things come from outside the model, so they are passed in as
parameters:

- File contents are a `seq<bv8>`.
- The address `malloc` returns, and whether it returned NULL.
- Whether DirectDraw created a surface.
- The clock reading.
- Each vertex's integer screen position after the floating-point transform.

The toolkit and DirectDraw calls that only draw are recorded in the trace
field, in order; their pixel effects are not modelled.

## Model

| member | source | states |
|---|---|---|
| BmpFile.Read | SAMPLES/UTILS.C:189-199 | `read` returns the requested bytes from the current position, or only what remains at the end of the file. The position moves past what was returned. |
| BmpFile.ReadHeaders | SAMPLES/UTILS.C:189-199 | Both header reads succeed exactly when the file holds the 14-byte file header and the 40-byte info header. They return exactly those bytes, with the position right after them. |
| BmpFile.BmpOpen | SAMPLES/UTILS.C:180-225 | A bitmap is accepted exactly when both headers are there, the bit count is 8 or 24, the compression is 0, and an 8-bit file also holds the 1024-byte palette. It reports width, height, bit count / 8 and the palette, and the file is left positioned at `bfOffBits`. |
| BmpFile.TextureOpen | SAMPLES/UTILS.C:441-503 | A file is accepted as an S3d texture exactly when both headers are there and `bfReserved1` is not zero. The report is `Texture` of the header words. |
| BmpFile.Texture | SAMPLES/UTILS.C:462-500 | Width and height come from the info header. The format comes from the low byte of `bfReserved1`, and the bytes per texel are `getTextureBpp` of that format. Levels come from the same word, and the position is `bfOffBits`. |
| BmpFile.TexFormatOf | SAMPLES/UTILS.C:468-486 | The byte count the texture switch assigns is the one `getTextureBpp` gives for the format it assigns. |
| BmpFile.TexLevels | SAMPLES/UTILS.C:488-491 | The mip level count is below 16, and non-zero only when bit 15 of `bfReserved1` is set. |
| BmpFile.TexReservedRoundTrip | SAMPLES/UTILS.C:465-491 | Decoding a reserved word written for a texel format and a level count (below 16) gives back both. The word written is never zero. |
| BmpFile.ZeroReservedIsNotTexture | SAMPLES/UTILS.C:465-497 | A zero `bfReserved1` is refused, although its low byte alone would name ARGB8888 with no levels. |
| BmpFile.HeaderRoundTrip | SAMPLES/UTILS.C:183-203 | The header fields read back at their offsets are the values the header writers put there. |
| BmpFile.BmpOpenOfWritten24 | SAMPLES/UTILS.C:180-225 | An uncompressed 24-bit bitmap opens with the width, height and pixel offset it was written with, at 3 bytes per pixel and with no palette. |
| BmpFile.TextureOpenOfWritten | SAMPLES/UTILS.C:441-503 | A texture file opens with the format, bytes per texel, level count and size it was written with. |
| BmpFile.RoundUp4 | SAMPLES/UTILS.C:242-247 | A line plus its padding is at least the line and less than the line + 4 bytes. |
| BmpFile.RoundUp4Aligned | SAMPLES/UTILS.C:242-247 | A padded line ends on a four-byte boundary. A line already on one gets no padding. |
| BmpFile.ReadLine | SAMPLES/UTILS.C:236-250 | A read succeeds exactly when `width` bytes remain, and then yields those bytes. A short read yields what is left and ends at the end of the file. This is also `TextureReadline` at UTILS.C:514-528. |
| BmpFile.ReadLineSkipsPadding | SAMPLES/UTILS.C:236-250 | A line followed by its padding moves the position to the start of the next line. |
| BmpFile.ReadLineLastPaddingOptional | SAMPLES/UTILS.C:242-248 | A last line with its padding missing still reads successfully. |
| SurfaceAlloc.TextureBpp | SAMPLES/UTILS.C:596-613 | The result is 1, 2 or 4 for exactly the four texture formats, and 0 for any other format. |
| SurfaceAlloc.NonTextureBpp | SAMPLES/UTILS.C:615-632 | The result is 1, 2 or 3 for exactly the display and z-buffer formats, and 0 for any other format. |
| SurfaceAlloc.BppTablesDisjoint | SAMPLES/UTILS.C:596-632 | No format is known to both tables. |
| SurfaceAlloc.QuadAlign | SAMPLES/UTILS.C:137 | `(n + 7) & 0xfffffff8` is a multiple of 8, at least `n` and below `n + 8`. |
| SurfaceAlloc.QuadAlignLeast | SAMPLES/UTILS.C:137 | It is the least multiple of 8 that holds `n`. |
| SurfaceAlloc.QuadAlignIdempotent | SAMPLES/UTILS.C:137 | Aligning an aligned size leaves it unchanged. |
| SurfaceAlloc.LineSize | SAMPLES/UTILS.C:137 | An aligned line is a multiple of 8 and holds `width * bpp` bytes, with less than 8 bytes to spare. |
| SurfaceAlloc.BufSize | SAMPLES/UTILS.C:137-138 | A surface buffer is a multiple of 8 and holds every pixel. |
| SurfaceAlloc.VideoMemory.constructor | SAMPLES/UTILS.C:42-53 | `allocInit`: nothing is allocated yet, and the size is the reported video memory size. |
| SurfaceAlloc.VideoMemory.AllocSurf | SAMPLES/UTILS.C:134-163 | Size and format are always written. A system surface takes `malloc`'s result as its offset before testing it, so it succeeds exactly when that result is not NULL, and a failed `malloc` leaves offset 0. A video surface succeeds exactly when `memoryUsed + bufsize <= totalMemory`; it then gets offset `memoryUsed` and the allocator moves up by `bufsize`. A failed video allocation leaves the offset unchanged. Every region handed out ends at or below `memoryUsed`, and each new one starts there, so regions do not overlap. |
| PixelConvert.RoundAsWrittenNeverRounds | SAMPLES/UTILS.C:287-293 | The rounding ifs, as C groups them, never change a channel. See Findings. |
| PixelConvert.RoundAsWrittenTruncatesSeven | SAMPLES/UTILS.C:288-289 | As written, red 7 becomes 5-bit level 0. The intended rounding gives level 1. |
| PixelConvert.Round | SAMPLES/UTILS.C:288-293 | The intended rounding never lowers a channel. |
| PixelConvert.RoundNearest | SAMPLES/UTILS.C:288-293 | The intended rounding picks a 5-bit level `q` with `q * 8` between 3 below and 4 above the channel, so a remainder of 4 rounds up. Channels from 0xF8 up give level 31. |
| PixelConvert.Pack1555Word | SAMPLES/UTILS.C:294-295 | The two bytes written, read as a little-endian word, are 0 RRRRR GGGGG BBBBB from the top five bits of each channel. |
| PixelConvert.PixelOut | SAMPLES/UTILS.C:284-322 | One pixel becomes 2, 3 or 4 bytes for those destination widths, and none for any other (the `default` case). The 16-bit case applies the rounding step as written. |
| PixelConvert.PixelOutTruncates | SAMPLES/UTILS.C:287-295 | As written, a 16-bit pixel, read as a little-endian word, holds `R >> 3`, `G >> 3` and `B >> 3` in bits 10-14, 5-9 and 0-4: every channel is truncated to its top five bits, never rounded. |
| PixelConvert.ConvertLine | SAMPLES/UTILS.C:255-332 | A converted line has `width * dstBpp` bytes, or `width` bytes for a one-byte destination. |
| PixelConvert.ConvertPixelsPlacement | SAMPLES/UTILS.C:265-323 | Byte `k` of pixel `x` of the output is byte `k` of source pixel `x`, converted on its own. |
| PixelConvert.ConvertLinePixels | SAMPLES/UTILS.C:263-324 | Every pixel of a 2-, 3- or 4-byte destination line is its own source pixel (palette entry or B G R) converted. |
| PixelConvert.TrueColourIsCopy | SAMPLES/UTILS.C:309-313 | Converting from 24 to 24 bits copies the source bytes. |
| PixelConvert.Convert | SAMPLES/UTILS.C:255-332 | `BMP_Convert` writes exactly `ConvertLine` to the front of the output buffer and leaves the rest of the buffer alone. |
| PixelConvert.ConvertPixelsInto | SAMPLES/UTILS.C:263-324 | The converting loop writes the converted pixels and nothing past them. |
| PixelConvert.ReadPixel | SAMPLES/UTILS.C:268-282 | One source pixel is a palette lookup (8-bit) or three bytes, and `bufptr` moves past it. |
| PixelConvert.PutPixel | SAMPLES/UTILS.C:284-322 | One pass of the switch appends the pixel's bytes at `outptr`, with the rounding step as written, moves `outptr` past them, and leaves the bytes after them alone. |
| PixelConvert.CopyLine | SAMPLES/UTILS.C:325-331 | The one-byte destination copies `width` source bytes and leaves the rest alone. |
| RowPlacement.Reads | SAMPLES/UTILS.C:406-408 | `n` passes of the read loop give `n` line buffers of `bpl` bytes each. |
| RowPlacement.ReadsPosition | SAMPLES/UTILS.C:236-250 | After `n` reads from a file that holds them, the position is `n` padded lines further on. |
| RowPlacement.ReadsOfCompleteFile | SAMPLES/UTILS.C:406-409 | In a file that holds every line, read `i` yields the `bpl` bytes at `i` padded lines past the pixel offset. |
| RowPlacement.Write | SAMPLES/UTILS.C:410 | `memcpy` puts the data at `at` and changes no other byte. |
| RowPlacement.RowsApart | SAMPLES/UTILS.C:398-411 | Row `s`, read after row `r`, starts at least one stride lower in memory. |
| RowPlacement.RowInRegion | SAMPLES/UTILS.C:398-411 | A row no longer than the stride plus `over` lies between `base` and `base + height * stride + over`. |
| RowPlacement.PlaceRowsReadBack | SAMPLES/UTILS.C:398-412 | With rows at most `over` bytes longer than the stride, byte `k >= over` of every row placed reads back from its place, bottom row first. With `over` = 0 every row reads back whole. |
| RowPlacement.PlacedReadBack | SAMPLES/UTILS.C:398-412 | The same property, for any memory that satisfies `RowsPlaced`. |
| RowPlacement.LaterRowMissesEarlier | SAMPLES/UTILS.C:406-412 | A later row, at most `over` bytes longer than the stride, leaves bytes `over` onwards of an earlier row alone. |
| RowPlacement.LongRowsReadBack | SAMPLES/STRETCH.C:817-825 | Rows of equal length `len >= stride`: bytes `len - stride` onwards of every row read back, since the next row down overwrites only the bytes before them. |
| RowPlacement.LastRowWritten | SAMPLES/UTILS.C:410 | The row just copied is at its place, whole. |
| RowPlacement.RowFits | SAMPLES/UTILS.C:398-410 | Every row fits in memory. |
| RowPlacement.PlaceRowsUntouched | SAMPLES/UTILS.C:406-412 | A byte that no row covers is unchanged. |
| RowPlacement.PlaceRowsOutsideRegion | SAMPLES/UTILS.C:398-412 | With rows at most `over` bytes longer than the stride, bytes before `base` or from `base + height * stride + over` on are unchanged. |
| SurfaceLoad.PaletteOf | SAMPLES/UTILS.C:213-220 | The palette handed to `BMP_Convert` is the file's palette for an 8-bit bitmap. |
| SurfaceLoad.BitmapRows | SAMPLES/UTILS.C:406-412 | A bitmap has `height` rows of `width * bpp` bytes. |
| SurfaceLoad.RowOfBitmap | SAMPLES/UTILS.C:408-409 | Row `i` is the line buffer after read `i + 1`, converted. |
| SurfaceLoad.LoadStep | SAMPLES/UTILS.C:406-412 | One pass of the row loop takes the loaded state from `i` rows to `i + 1`. |
| SurfaceLoad.ReadInto | SAMPLES/UTILS.C:408 | `BMP_Readline` into the raw buffer: the bytes read replace the front of the buffer. |
| SurfaceLoad.CopyInto | SAMPLES/UTILS.C:410 | `memcpy` of the image line to `theBits`. |
| SurfaceLoad.LoadRow | SAMPLES/UTILS.C:408-410 | One pass: read a line, convert it, copy it to `theBits`. |
| SurfaceLoad.LoadNextRow | SAMPLES/UTILS.C:406-412 | One pass keeps the loop invariant, and `theBits` steps back one stride. |
| SurfaceLoad.LoadBitmapRows | SAMPLES/UTILS.C:400-412 | Once the loop ends, every row is at `base + (height-1-i) * stride`. Nothing outside those rows changes. |
| SurfaceLoad.BmpLoadSurface | SAMPLES/UTILS.C:341-426 | Refuses a depth outside 1..4, a file `BMP_Open` refuses, and RGB-to-indexed. Then it allocates the surface; size and format are written even when that fails. It succeeds exactly when allocation and both line buffers succeed. The rows are then loaded with the quad-word aligned stride, into system memory or video memory as the format says. On failure neither memory changes. |
| SurfaceLoad.TextureRows | SAMPLES/UTILS.C:581-586 | A texture has `height` rows of `width * bpp` bytes. |
| SurfaceLoad.RowOfTexture | SAMPLES/UTILS.C:583 | Texture row `i` is the line buffer after read `i + 1`. |
| SurfaceLoad.TextureStep | SAMPLES/UTILS.C:581-586 | One pass of the texture loop takes the loaded state from `i` rows to `i + 1`. |
| SurfaceLoad.LoadNextTextureRow | SAMPLES/UTILS.C:581-586 | One pass keeps the loop invariant, and `theBits` steps back one stride. |
| SurfaceLoad.LoadTextureRows | SAMPLES/UTILS.C:578-586 | Once the loop ends, every texture row is at its place, bottom row first. |
| SurfaceLoad.LoadTexture | SAMPLES/UTILS.C:536-594 | Refuses a file `TextureOpen` refuses, and then reports its levels. It allocates a video-memory surface of the texture's size and format; size and format are written even when that fails. It succeeds exactly when the memory and the line buffer are there, and the rows are then loaded with the quad-word aligned stride. A refused file changes nothing. |
| StretchPack.Sample | SAMPLES/STRETCH.C:700-717 | The kept pixels of a line: `n` pixels of `bpp` bytes. |
| StretchPack.SamplePixel | SAMPLES/STRETCH.C:704-716 | Kept pixel `i` is pixel `i * ratio` of the line, byte for byte. |
| StretchPack.SampleSnoc | SAMPLES/STRETCH.C:706-716 | Keeping one more pixel appends pixel `n * ratio`. |
| StretchPack.SampleFits | SAMPLES/STRETCH.C:699-704 | With `finalWidth <= initWidth` the ratio is at least 1 and the kept pixels lie inside the line. |
| StretchPack.SampleBuffer | SAMPLES/STRETCH.C:700-717 | `sampleBuffer` leaves the kept pixels at the front of the buffer and the bytes after them unchanged. |
| StretchPack.KeepPixel | SAMPLES/STRETCH.C:706-716 | One pass of the outer loop keeps one more pixel. The pointers move `bpp` and `ratio * bpp` bytes. |
| StretchPack.KeptStep | SAMPLES/STRETCH.C:710-715 | Copying pixel `i` down extends the kept part by one pixel. |
| StretchPack.CopyPixel | SAMPLES/STRETCH.C:710-713 | The inner loop copies `bpp` bytes from `inptr` down to `outptr`, and the bytes after `outptr` are unchanged. |
| StretchPack.SampledFront | SAMPLES/STRETCH.C:705-716 | The front of the thinned buffer is the kept pixels. |
| StretchPack.HalfFits | SAMPLES/STRETCH.C:755-801 | `height` rows one stride `width / 2 * bpp` apart fit in `theBufferSize`. The two are equal for an even width. |
| StretchPack.HalfCopiesFit | SAMPLES/STRETCH.C:755-823 | The top row's copy starts `(height - 1) * stride` bytes in and ends within `theBufferSize`: the `theDstHalfBPL` copies of all rows fit in the bytes reserved. |
| StretchPack.CopyLengthVersusStride | SAMPLES/STRETCH.C:801-810 | `theDstHalfBPL` is the stride plus half a pixel for an odd width, and at most the whole line. It equals the stride for an even width. For an odd width with `bpp >= 2` it is larger. See Findings. |
| StretchPack.AsWrittenRowsOverlap | SAMPLES/STRETCH.C:817-825 | With the written copy length, an odd width and `bpp >= 2`, the second row copied overwrites the first byte of the first row. |
| StretchPack.HalfLine | SAMPLES/STRETCH.C:820-823 | A packed row has the written copy length, `theDstHalfBPL` bytes. |
| StretchPack.HalfLineParts | SAMPLES/STRETCH.C:820-823 | A packed row is the kept pixels of the line (one stride), then the bytes that follow them in the thinned buffer, up to `theDstHalfBPL`. |
| StretchPack.HalfRows | SAMPLES/STRETCH.C:818-825 | A half-size bitmap has `height` packed rows, each `theDstHalfBPL` bytes long. |
| StretchPack.RowOfHalf | SAMPLES/STRETCH.C:820-823 | Packed row `i` is the line buffer after read `i + 1`, converted as written, thinned by `sampleBuffer`, and cut to the `theDstHalfBPL` bytes `memcpy` copies. |
| StretchPack.HalfStep | SAMPLES/STRETCH.C:818-825 | One pass of the packed loop, which copies `theDstHalfBPL` bytes to `theBits`, takes the loaded state from `i` rows to `i + 1`. |
| StretchPack.LoadHalfRow | SAMPLES/STRETCH.C:820-823 | One pass: read, convert, thin, then copy `theDstHalfBPL` bytes to `theBits`. |
| StretchPack.CopyPrefix | SAMPLES/STRETCH.C:823 | `memcpy` of the first `n` bytes of the image buffer. |
| StretchPack.LoadNextHalfRow | SAMPLES/STRETCH.C:818-825 | One pass keeps the loop invariant, and `theBits` steps back one stride to the next row's place. |
| StretchPack.LoadHalfRows | SAMPLES/STRETCH.C:801-825 | Once the loop ends, packed row `i` has been copied to `base + (height-1-i) * stride`, bottom row first, each copy `theDstHalfBPL` bytes long. |
| StretchPack.PackHalfRows | SAMPLES/STRETCH.C:817-825 | The row loop over the two line buffers ends with every packed row copied to its place. |
| StretchPack.HalfLoaded | SAMPLES/STRETCH.C:818-825 | After `height` passes the loop invariant is the packed placement. |
| StretchPack.HalfRowsFit | SAMPLES/STRETCH.C:755-823 | Every `theDstHalfBPL` copy lands inside memory when `theBufferSize` bytes are free at the base. |
| StretchPack.HalfPlacedRows | SAMPLES/STRETCH.C:801-825 | The packed placement has `height` rows of `theDstHalfBPL` bytes, no shorter than the stride, one stride apart. |
| StretchPack.HalfRowsReadBack | SAMPLES/STRETCH.C:817-825 | Byte `k` of a packed row reads back from its place when `k` is past the `theDstHalfBPL - stride` bytes the next row down overwrites. |
| StretchPack.TopHalfRowReadBack | SAMPLES/STRETCH.C:817-825 | The row copied last, the top row of the surface, reads back whole. |
| StretchPack.EvenHalfRowsReadBack | SAMPLES/STRETCH.C:801-825 | With an even width the copy length is the stride: every packed row reads back whole. |
| StretchPack.StrideRows | SAMPLES/STRETCH.C:801-823 | The intended rows, one stride each: the first stride of each packed row. |
| StretchPack.StrideRowsReadBack | SAMPLES/STRETCH.C:801-825 | Copying one stride per row, every kept pixel of every row, of any width, reads back from its place. |
| StretchPack.HalfPlacedStaysInside | SAMPLES/STRETCH.C:755-829 | Packing with the written copy length still changes only the `theBufferSize` bytes reserved at `memUsedPriSurf`. |
| StretchPack.TexturePlacedStaysInside | SAMPLES/STRETCH.C:894-912 | Packing a texture changes only the bytes reserved for it. |
| StretchPack.PrimarySurface.constructor | SAMPLES/STRETCH.C:942-943 | The primary surface has 640 * 480 * 1 bytes, none of them used. |
| StretchPack.PrimarySurface.Reserve | SAMPLES/STRETCH.C:829 | `memUsedPriSurf` grows by the size reserved. Packed images stay below it and do not overlap. |
| StretchPack.PrimarySurface.LoadBitmapHalf | SAMPLES/STRETCH.C:728-833 | It makes the same refusals as `bmpLoadSurface`. The surface is half the width. The bitmap is packed at `dummySurf.sfOffset + memUsedPriSurf` exactly when the format is not a system one and `theBufferSize` bytes are left; otherwise DirectDraw creates a surface. `memUsedPriSurf` grows only after a packed load that succeeds, and only then does the memory change. |
| StretchPack.PrimarySurface.LoadTexturePri | SAMPLES/STRETCH.C:843-917 | It refuses what `TextureOpen` refuses and reports the levels. It packs the texture exactly when `width * height * bpp` bytes are left, else DirectDraw creates a surface. The memory and `memUsedPriSurf` change only on a packed load that succeeds. |
| Layout.CentreAxis | SAMPLES/EXAMPLE.C:938-962 | A bitmap at least as wide as the screen is cropped from its left edge. A narrower one is copied whole at `(screen - bmp) / 2`. Destination and source have the same size, and both stay within their surfaces. |
| Layout.CentreRects | SAMPLES/EXAMPLE.C:938-962 | `bmpDestRect` and `bmpSrcRect` have the same size. The destination lies on the screen and the source inside the bitmap. |
| Layout.CentredMargins | SAMPLES/EXAMPLE.C:944-962 | A bitmap smaller than the screen is centred: the two margins of each axis differ by at most one pixel. |
| Layout.GlyphDest | SAMPLES/EXAMPLE.C:656-660 | Glyph `i` is drawn `i` glyph widths right of `FPS_X`, and is one glyph in size. |
| Layout.GlyphSrc | SAMPLES/EXAMPLE.C:661-665 | Digit `d` is the cell `d` glyph widths into the number strip. |
| Layout.MarkDest | SAMPLES/EXAMPLE.C:693-701 | A checkmark in row `row` is at `MARK_Y + row * MARKLINEHT` below the bitmap's top, and has the checkmark's size. |
| Layout.FrameRateArea | SAMPLES/EXAMPLE.C:1074-1077 | The frame-rate area is three glyphs wide and starts where glyph 0 does. |
| Layout.FrameRateSource | SAMPLES/EXAMPLE.C:1084-1087 | Its source has the same size, offset by `FPS_X` and `FPS_Y` in the bitmap. |
| Layout.LeftColumn | SAMPLES/EXAMPLE.C:1091-1103 | The left column's destination and source have equal sizes. The bottom is cut back to the bitmap's bottom, and the source is cut by the same amount. |
| Layout.RightColumn | SAMPLES/EXAMPLE.C:1106-1127 | The right column is clamped at the bitmap's bottom and right edges. Its source is clamped by the same amounts. |
| Layout.Lowest | SAMPLES/EXAMPLE.C:1266-1274 | The running minimum is at most the seed and every element. |
| Layout.Highest | SAMPLES/EXAMPLE.C:1266-1274 | The running maximum is at least the seed and every element. |
| Layout.LowestAttained | SAMPLES/EXAMPLE.C:1266-1274 | The minimum is the seed or one of the elements. |
| Layout.HighestAttained | SAMPLES/EXAMPLE.C:1266-1274 | The maximum is the seed or one of the elements. |
| Layout.ClippedBoxOnScreen | SAMPLES/EXAMPLE.C:1276-1288 | With at least one vertex, the clipped box is a well-formed part of the screen. |
| Layout.ClippedBoxHoldsVisible | SAMPLES/EXAMPLE.C:1266-1288 | Every vertex that lands on the screen is inside the box; right and bottom are exclusive. |
| Layout.ObjectBox | SAMPLES/EXAMPLE.C:1191-1288 | The bounding-box scan returns `ClippedBox`. |
| Layout.Split | SAMPLES/EXAMPLE.C:1290-1320 | The fill flag is set exactly when the box is not within the bitmap, and the fill rectangle is then the box. The repainted rectangle covers exactly the points of the box that are on the bitmap. The source is that rectangle moved into bitmap coordinates. |
| Layout.SplitCoversBox | SAMPLES/EXAMPLE.C:1290-1315 | Together, the flagged fill and the bitmap repaint cover every point of the box. |
| Layout.SplitSourceInBitmap | SAMPLES/EXAMPLE.C:1316-1320 | When `bmpDestRect` shows the whole bitmap, the source rectangle lies inside the bitmap. |
| ModeTables.ModeKey | SAMPLES/CUBE/WC/STEREO/DOSMAIN.C:55 | `0x0FFF & wMode` is below 0x1000 and leaves a smaller mode unchanged. |
| ModeTables.ScreenWidth | SAMPLES/CUBE/WC/STEREO/DOSMAIN.C:53-90 | The width is one of the listed widths, and 640 for an unlisted mode. |
| ModeTables.ScreenHeight | SAMPLES/CUBE/WC/STEREO/DOSMAIN.C:95-132 | The height is one of the listed heights, and 480 for an unlisted mode. |
| ModeTables.ScreenBpp | SAMPLES/CUBE/WC/STEREO/DOSMAIN.C:137-170 | The bytes per pixel are 1, 2 or 3, and 1 for an unlisted mode. |
| ModeTables.HighBitsIgnored | SAMPLES/CUBE/WC/STEREO/DOSMAIN.C:55 | Bits above the low twelve change none of the three tables. |
| ModeTables.DefaultModeIs640x480x2 | SAMPLES/EXAMPLE.C:121 | The default mode 0x110 is 640 x 480 at two bytes per pixel. |
| ModeTables.Mode11FIsOnlyInBppTable | SAMPLES/CUBE/WC/STEREO/DOSMAIN.C:164 | Mode 0x11F appears only in the bytes-per-pixel switch. It reports 3 bytes per pixel at the fallback size 640 x 480. |
| ModeTables.WidthAndHeightAgreeOnFallback | SAMPLES/CUBE/WC/STEREO/DOSMAIN.C:53-132 | The mode gives 640 x 480 exactly when it is 0x101, 0x110, 0x111 or 0x112, or is unlisted. |
| CommandLine.SkipSpace | SAMPLES/EXAMPLE.C:446 | The text after leading white space is a suffix of the argument and does not start with white space. |
| CommandLine.HexRun | SAMPLES/EXAMPLE.C:446 | The run of hex digits is as long as possible. |
| CommandLine.ScanHexRoundTrip | SAMPLES/EXAMPLE.C:446 | `%lx` reads the hexadecimal text of `n` back as `n`. |
| CommandLine.ScanHexSkipsSpace | SAMPLES/EXAMPLE.C:446 | White space before the number does not change the value read. |
| CommandLine.ScanHexAfterPrefix | SAMPLES/EXAMPLE.C:446 | A `0x` or `0X` prefix is skipped and the digits after it are read whole. |
| CommandLine.ScanHexNoDigits | SAMPLES/EXAMPLE.C:446 | Without a hex digit the conversion fails, and the mode keeps its value. |
| CommandLine.ProcessCmdLine | SAMPLES/EXAMPLE.C:433-467 | The loop over `argv[1..]` yields `CmdLine`: mode, texture file and stop flag. |
| CommandLine.ArgsStopIff | SAMPLES/EXAMPLE.C:438-461 | The loop sets the stop flag exactly when some argument stops the program. |
| CommandLine.CmdLineStopIff | SAMPLES/SHOWTEXT.C:160-198 | The program stops exactly when some argument calls for it. In both programs, an option other than `/m` does. In EXAMPLE.C a bare argument does too. SHOWTEXT.C also stops when there is no argument at all. |
| CommandLine.ArgsKeepMode | SAMPLES/EXAMPLE.C:444-447 | Without a mode option the mode keeps its value. |
| CommandLine.ArgsKeepTexture | SAMPLES/SHOWTEXT.C:183-186 | Without a bare argument the texture file keeps its value. |
| CommandLine.LastModeOptionWins | SAMPLES/EXAMPLE.C:444-447 | `/m` followed by the hex text of `n`, given last, sets the mode to `n` and does not change the stop flag. |
| CommandLine.LastBareArgumentIsTexture | SAMPLES/SHOWTEXT.C:183-186 | In SHOWTEXT.C, the last bare argument names the texture file and does not stop the program. |
| TextureViewer.Corners | SAMPLES/SHOWTEXT.C:322-348 | The four corners go clockwise from (0, 0) to (w-1, h-1). Each corner maps the texel under it, at depth 0. |
| TextureViewer.Resized | SAMPLES/SHOWTEXT.C:369-377 | Resizing keeps the top-left corner. |
| TextureViewer.ResizedCorners | SAMPLES/SHOWTEXT.C:369-400 | After a level change the rectangle is the square of the new width, whatever its height was. |
| TextureViewer.PrevUndoesNext | SAMPLES/SHOWTEXT.C:358-401 | For an even width, `previousLevel` undoes `nextLevel`: width and offset come back. |
| TextureViewer.NextUndoesPrev | SAMPLES/SHOWTEXT.C:358-401 | `nextLevel` undoes `previousLevel`. |
| TextureViewer.Level | SAMPLES/SHOWTEXT.C:358-367 | A mip level's offset is never before level 0's offset. |
| TextureViewer.LevelBack | SAMPLES/SHOWTEXT.C:380-390 | Stepping back from level `n + 1` lands on level `n`. |
| TextureViewer.LevelAfterKeyInRange | SAMPLES/SHOWTEXT.C:205-224 | The display level stays below `mipLevels`, stays 0 without mipmaps, and moves by at most one. |
| TextureViewer.UpThenDown | SAMPLES/SHOWTEXT.C:205-224 | A step up followed by a step down cancels out, and so does the reverse, whenever the first step moves. |
| TextureViewer.FrameCmds | SAMPLES/SHOWTEXT.C:410-430 | A frame starts with a fill of the screen and draws the fan. |
| TextureViewer.FrameState | SAMPLES/SHOWTEXT.C:417-430 | After a frame, whatever was set before, the draw surface and the display surface are display surface 0, and the toolkit draws unlit, modulated texture, one texel per pixel, from the texture surface. |
| TextureViewer.ScreenAfterTwice | SAMPLES/SHOWTEXT.C:407-433 | Two updates with nothing between them draw at most once. The second finds the flag clear. |
| TextureViewer.Viewer.constructor | SAMPLES/SHOWTEXT.C:318-356 | `initObject`: the corners of the texture, square for a mipmapped one; the fan in corner order; level 0; a frame pending. |
| TextureViewer.Viewer.NextLevel | SAMPLES/SHOWTEXT.C:358-378 | Width is halved, the offset moves past the level, and the vertices are resized. |
| TextureViewer.Viewer.PreviousLevel | SAMPLES/SHOWTEXT.C:380-401 | Width is doubled, the offset moves back one level, and the vertices are resized. |
| TextureViewer.Viewer.SetRightAndBottom | SAMPLES/SHOWTEXT.C:369-377 | The vertex updates `nextLevel` and `previousLevel` share. |
| TextureViewer.Viewer.UpdateScreen | SAMPLES/SHOWTEXT.C:403-434 | A frame is drawn and the flag cleared only when the flag was set. |
| TextureViewer.Viewer.ProcessKey | SAMPLES/SHOWTEXT.C:201-226 | A key that changes level shows the new level and draws a frame at once. Any other key changes nothing. The viewer invariant is kept. |
| SampleApp.KeyIsToggle | SAMPLES/EXAMPLE.C:474-525 | A letter key (either case) toggles the flag it names. |
| SampleApp.ToggleNegatesOneFlag | SAMPLES/EXAMPLE.C:474-525 | Each toggle key negates its own flag and leaves the other seven alone. |
| SampleApp.KeyTwiceRestoresFeatures | SAMPLES/EXAMPLE.C:472-562 | Pressing any key twice leaves the features as they were. |
| SampleApp.KeysAreSeparate | SAMPLES/EXAMPLE.C:472-562 | Feature keys leave the view alone, and view keys leave the features alone. |
| SampleApp.StopKeyZeroesAngles | SAMPLES/EXAMPLE.C:526-531 | `z` / `Z` zeroes the three angles and keeps depth and screen distance. |
| SampleApp.SetupTextureState | SAMPLES/EXAMPLE.C:1152-1186 | After `setupTexture` the texture registers follow the flags, whatever was set before. Alpha is on iff alpha blending is. The filter mode follows filtering and mip levels, and the rendering type follows perspective and lighting. |
| SampleApp.FilterModesDistinct | SAMPLES/EXAMPLE.C:1163-1176 | The four filter modes tell filtering and mipmapping apart. |
| SampleApp.RenderTypesDistinct | SAMPLES/EXAMPLE.C:1178-1185 | The four rendering types tell perspective and lighting apart, and none is Gouraud. |
| SampleApp.FillBackgroundBothBuffers | SAMPLES/EXAMPLE.C:1043-1054 | Both buffers are cleared to the whole screen, and painted with the bitmap exactly when bitblt is on. |
| SampleApp.TextureKeysNeedTexture | SAMPLES/EXAMPLE.C:474-514 | The alpha, lit, perspective and filtering keys make toolkit calls exactly when texturing is on. |
| SampleApp.TextureOffState | SAMPLES/EXAMPLE.C:515-525 | Turning texturing off leaves alpha off and Gouraud shading. |
| SampleApp.TextureOnState | SAMPLES/EXAMPLE.C:515-519 | Turning texturing on sets the registers as `setupTexture` does. |
| SampleApp.FogKeyState | SAMPLES/EXAMPLE.C:485-492 | The fog colour is 0x00ffffff exactly when fog is now on. |
| SampleApp.CounterRestarts | SAMPLES/EXAMPLE.C:621-626 | The first call after a reset counts one frame, starts the clock at `now` and returns before drawing. |
| SampleApp.CounterMeasuresRate | SAMPLES/EXAMPLE.C:628-636 | After at least `CLK_TCK` ticks, `dwFrames` is the frames per second rounded down, and counting restarts. |
| SampleApp.CounterCounts | SAMPLES/EXAMPLE.C:622-636 | Before `CLK_TCK` ticks have passed, the call counts the frame, keeps the last rate and start time, and goes on to draw the last rate. |
| SampleApp.RestStep | SAMPLES/EXAMPLE.C:654-655 | `dwTemp % digit` is what the next pass starts from. |
| SampleApp.GlyphCmds | SAMPLES/EXAMPLE.C:649-672 | The digit loop makes three blits. |
| SampleApp.DigitsRecompose | SAMPLES/EXAMPLE.C:649-655 | Below 1000, the three glyphs are the hundreds, tens and units digits of the rate. |
| SampleApp.GlyphPlacement | SAMPLES/EXAMPLE.C:649-671 | Glyph `i` is a transparent blit from the number strip into the back buffer. It lands `i` glyph widths right of `FPS_X`, from its digit's cell, with key colour 0. |
| SampleApp.OptionMarkShownIff | SAMPLES/EXAMPLE.C:692-742 | A left-column checkmark is drawn in row `k` exactly when option `k` is on. |
| SampleApp.AlphaMarkShownIff | SAMPLES/EXAMPLE.C:745-755 | The right-column checkmark is drawn exactly when alpha blending is on. |
| SampleApp.OneMarkPerOption | SAMPLES/EXAMPLE.C:680-757 | One blit per option that is on, and every one is a checkmark into the back buffer. |
| SampleApp.HudLayout | SAMPLES/EXAMPLE.C:1073-1127 | The column rectangles' sources match their destinations. The right column is blitted exactly when it is not past the bitmap's right edge. The frame-rate area is blitted unless it lies wholly above or left of the bitmap. |
| SampleApp.FillBeforeBitmap | SAMPLES/EXAMPLE.C:1417-1419 | With the bitmap on, a flagged fill of the slot comes before the slot's bitmap repaint. |
| SampleApp.NoBitmapFillsScreen | SAMPLES/EXAMPLE.C:1423-1424 | With the bitmap off, the repaint is a single fill of the whole screen. |
| SampleApp.RepaintTargetsBackBuffer | SAMPLES/EXAMPLE.C:1403-1424 | The repaint draws only into the back buffer. |
| SampleApp.Sample.constructor | SAMPLES/EXAMPLE.C:902-977 | `initMemoryBuffer`: the z rectangle is the screen, the bitmap is centred, a glyph cell is a tenth of the number strip, the back buffer is 1, the counter is zero, and the start-up features apply. |
| SampleApp.Sample.SetupTexture | SAMPLES/EXAMPLE.C:1152-1186 | Appends the calls of `setupTexture`. |
| SampleApp.Sample.FillBackground | SAMPLES/EXAMPLE.C:1043-1054 | Appends the clears and bitmap blits of both buffers. |
| SampleApp.Sample.ProcessKey | SAMPLES/EXAMPLE.C:470-563 | Features and view after the key, and the toolkit calls the key makes. |
| SampleApp.Sample.CountFrame | SAMPLES/EXAMPLE.C:621-636 | The counter step, and whether the digits are drawn. |
| SampleApp.Sample.DrawDigits | SAMPLES/EXAMPLE.C:642-673 | The digit loop appends the three glyph blits. |
| SampleApp.Sample.DisplayFrameRate | SAMPLES/EXAMPLE.C:617-674 | The counter step, and the glyph blits only when the call goes on to draw and the frame rate is on. |
| SampleApp.Sample.DrawMarkIf | SAMPLES/EXAMPLE.C:696-702 | One checkmark when its option is on. |
| SampleApp.Sample.DisplayOptionStatus | SAMPLES/EXAMPLE.C:680-757 | Appends the checkmark blits of the options that are on. |
| SampleApp.Sample.InitBackground | SAMPLES/EXAMPLE.C:1056-1128 | Paints both buffers, flags both slots for a whole-screen fill with the whole bitmap, and lays out the heads-up areas. |
| SampleApp.Sample.TransformObject | SAMPLES/EXAMPLE.C:1290-1320 | The back buffer's slot gets the split of the new box. The other slot keeps the split from the frame before. |
| SampleApp.Sample.DrawObject | SAMPLES/EXAMPLE.C:1379-1385 | Transform, then draw the triangle list. |
| SampleApp.Sample.InitObject | SAMPLES/EXAMPLE.C:1323-1377 | Stops the rotation, transforms once, and sets the z buffer, then `setupTexture` or Gouraud. |
| SampleApp.Sample.Repaint | SAMPLES/EXAMPLE.C:1403-1424 | Appends the background repaint of the back buffer. |
| SampleApp.Sample.PaintFrameRateArea | SAMPLES/EXAMPLE.C:1407-1410 | The frame-rate area is blitted from the bitmap, or cleared. |
| SampleApp.Sample.PaintColumns | SAMPLES/EXAMPLE.C:1411-1415 | The left column, and the right column when it is on the bitmap. |
| SampleApp.Sample.PaintSlot | SAMPLES/EXAMPLE.C:1416-1419 | The flagged fill, then the bitmap repaint of the slot. |
| SampleApp.Sample.Render | SAMPLES/EXAMPLE.C:1401-1429 | Clears the z buffer, repaints, selects the back buffer, enables z and draws the object. |
| SampleApp.Sample.Present | SAMPLES/EXAMPLE.C:1433-1438 | Shows the back buffer (a display-surface switch in EXAMPLE.C, a flip in STRETCH.C at line 1576) and swaps the buffers. |
| SampleApp.Sample.UpdateScreen | SAMPLES/EXAMPLE.C:1387-1439 | One frame: the back buffer alternates, the drawn buffer's slot gets the new split, and the counter steps. The calls are render, then frame-rate digits, then present, all into the buffer that was the back buffer. |

## Left out

- The floating-point geometry of `transformObject`: rotation, projection, fog alpha and the `U`/`V` setup of `initObject`. The model takes the projected integer screen positions as input. Angles, `objectZ` and `screenD` are kept in hundredths, so float rounding is not modelled.
- Vertex fields beyond X, Y, Z, U and V, and the vertex colours of `initObject`.
- Layout.ObjectBox: takes each vertex's screen position already truncated toward zero. In EXAMPLE.C:1266-1274 the float coordinate is compared with an integer bound, and the bound is then set to the truncated value. Truncation is monotone and keeps integers unchanged, so the bounds come out the same either way.
- `sscanf`'s sign handling and overflow for `%lx`: the model reads unsigned, unbounded numbers.
- The 32-bit wrap-around of `ULONG` arithmetic, for example `sizePriSurf - memUsedPriSurf` and `memoryUsed + bufsize`. Integers are unbounded, and `memUsedPriSurf <= sizePriSurf` is an invariant, so the subtraction never wraps.
- DirectDraw: surface creation, `Lock` and its pitch, `Flip`, `GetFlipStatus`, colour keys. A created surface is an offset passed in. The row copy into a DirectDraw-created surface (the non-packed paths of STRETCH.C) is not modelled.
- `linearToPhysical` and the `USEDIRECTDRAW` variant of `allocSurf`. These are calls into the toolkit and DirectDraw.
- File I/O (`open`, `lseek`, `close`), `malloc`/`free` and `clock()`. Files are byte sequences with a position. Allocation results and the clock are parameters.
- The pixel effects of `S3DTK_RectFill`, `S3DTK_BitBlt`, `S3DTK_BitBltTransparent` and `S3DTK_TriangleSet`. The calls are recorded in the trace.
- The busy-wait on `GetFlipStatus` / `S3DTK_DISPLAYADDRESSUPDATED` at the start of `updateScreen`. It depends on hardware timing.
- `main` and `getKey` of DOSMAIN.C, `initFail`, `doInit`, `cleanUp`, `initScreen`, `restoreScreen`, `cleanupMemoryBuffer`, `initDirectDraw` and `exitDirectDraw`. These are start-up, shutdown and console I/O around the modelled operations.
- `printf` messages, `showSyntax` and `exit`. The stop decision is the `stop` field of the outcome.
- `getTextureFile` and `WinMain` (Windows dialogs and message loop).
- `updateOverlay` of STRETCH.C, which only calls DirectDraw.
- StretchPack.PrimarySurface.LoadBitmapHalf: requires a bitmap with rows to be at least 2 pixels wide. For width 1, `sampleBuffer` divides by `theWidth / 2 == 0`.
- TextureViewer.Viewer.constructor: requires every mip level but the last to have an even width, as for a square power-of-two texture. `previousLevel` undoes `nextLevel` only for those.
- SampleApp.Sample.UpdateScreen: the vertex positions of the frame are a parameter, not computed from the angles.

## Findings

| source | as written | input that shows it | evidently intended | confidence | as-written member | corrected member |
|---|---|---|---|---|---|---|
| SAMPLES/UTILS.C:288-293 | `R & 0x07 > 3 && R & 0xF8 != 0xF8` parses as `R & (0x07 > 3) && R & (0xF8 != 0xF8)`, which is `R & 1 && R & 0`. It is always false, so no channel is ever rounded before packing to 1555. | red = 7 (any green and blue): the written code packs 5-bit red level 0; rounding to nearest gives level 1 | `(R & 0x07) > 3 && (R & 0xF8) != 0xF8`: round to the nearest 5-bit level, except in the top step | not executed | PixelConvert.RoundAsWrittenTruncatesSeven | PixelConvert.RoundNearest |
| SAMPLES/STRETCH.C:801-825 | The packed path steps rows by `stride = theWidth/2*theBpp`, but copies `theDstHalfBPL = theWidth*theBpp/2` bytes per row. | width = 3, bpp = 2: the stride is 2 and the copy length 3, so each row copied overwrites the first byte of the row copied before it | copy one stride (`theWidth/2*theBpp` bytes) per row | not executed | StretchPack.AsWrittenRowsOverlap | StretchPack.StrideRowsReadBack |

The model converts and packs as the code is written. `PixelConvert.PixelOut`
applies `PixelConvert.RoundAsWritten`, which `PixelConvert.RoundAsWrittenNeverRounds`
proves is the identity. `PixelConvert.Round` is the intended rounding, the
corrected half of the first finding. The packed loader `StretchPack.LoadHalfRows` copies
`theDstHalfBPL` bytes per row; `StretchPack.HalfRowsReadBack` says which bytes
of the packed rows survive, and `StretchPack.HalfPlacedStaysInside` proves that
the longer copies still stay within the reserved bytes. `StretchPack.StrideRows`
and `StretchPack.StrideRowsReadBack` are the intended one-stride copy.
