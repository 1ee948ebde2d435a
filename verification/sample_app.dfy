/**
 * The rotating-object sample, SAMPLES/EXAMPLE.C, and its overlay variant
 * SAMPLES/STRETCH.C, which differ in the checkmark column offsets and in how
 * a finished frame is presented.  Both keep their state in globals that the
 * key handler, the frame counter and the screen update change in place; here
 * those globals are the fields of one `Sample` object, and every call into
 * the rendering toolkit is appended to `trace`.
 *
 * The DOS build of EXAMPLE.C is modelled (the build with a command line and
 * the bump allocator); STRETCH.C exists only as a DirectDraw program.
 * Angles, the object's depth and the screen distance are floats in C; here
 * they are integers counted in hundredths, so the step DELTA (0.01) is 1 and
 * OBJZDELTA (0.05) is 5.
 */
module SampleApp {
  import opened Toolkit
  import opened Layout

  /** A key as the programs receive it: a character, or an extended key. */
  datatype Key = Ascii(c: char) | Up | Down | Left | Right | PgUp | PgDn | Home | End

  /** Which of the two programs: they differ only where this is consulted. */
  datatype Variant = Example | Stretch

  /** MARK_XL: 12 in EXAMPLE.C, 12/2 in STRETCH.C. */
  function MarkXL(v: Variant): int
  {
    if v == Example then 12 else 12 / 2
  }

  /** MARK_XR: 332 in EXAMPLE.C, 332/2 in STRETCH.C. */
  function MarkXR(v: Variant): int
  {
    if v == Example then 332 else 332 / 2
  }

  /** BGCOLOR, the background colour. */
  const BgColour: int := 0
  /** The z buffer is cleared to its largest value before each frame. */
  const ZClear: int := 0xffff
  /** The WORD type of the digit loop. */
  const WordRange: int := 0x1_0000
  /** DELTA and OBJZDELTA, in hundredths. */
  const Delta: int := 1
  const ObjZDelta: int := 5

  // ---------------------------------------------------------------------
  // Feature flags and the view
  // ---------------------------------------------------------------------

  /** The run-time switchable features. */
  datatype Features = Features(bitblt: bool, lit: bool, perspective: bool, texture: bool,
                               fogging: bool, filtering: bool, alphaBlending: bool, frameRate: bool)

  /** Only the bitmap background is on at start-up. */
  const InitialFeatures: Features := Features(true, false, false, false, false, false, false, false)

  /** Flag number `i`, in the order the fields are declared. */
  function Flag(f: Features, i: int): bool
  {
    if i == 0 then f.bitblt else if i == 1 then f.lit else if i == 2 then f.perspective
    else if i == 3 then f.texture else if i == 4 then f.fogging else if i == 5 then f.filtering
    else if i == 6 then f.alphaBlending else if i == 7 then f.frameRate else false
  }

  /** The key handler treats a capital letter like its small letter. */
  function Lower(c: char): char
  {
    if 'A' <= c <= 'Z' then (c as int + 32) as char else c
  }

  /** The flag a character key toggles, or -1 for none. */
  function ToggledFlag(c: char): int
  {
    var l := Lower(c);
    if l == 'b' then 0 else if l == 'l' then 1 else if l == 'p' then 2
    else if l == 't' then 3 else if l == 'f' then 4 else if l == 's' then 5
    else if l == 'a' then 6 else if l == 'r' then 7 else -1
  }

  /** Rotation angles, object depth and screen distance, in hundredths. */
  datatype View = View(angleX: int, angleY: int, angleZ: int, objectZ: int, screenD: int)

  /** No rotation, the object at depth 5.0, the screen at distance 1.0. */
  const InitialView: View := View(0, 0, 0, 500, 100)

  /** The features after key `k`. */
  function FeaturesAfterKey(f: Features, k: Key): (g: Features)
  {
    match k
    case Ascii(c) =>
      var l := Lower(c);
      if l == 'a' then f.(alphaBlending := !f.alphaBlending)
      else if l == 'b' then f.(bitblt := !f.bitblt)
      else if l == 'f' then f.(fogging := !f.fogging)
      else if l == 'l' then f.(lit := !f.lit)
      else if l == 'p' then f.(perspective := !f.perspective)
      else if l == 'r' then f.(frameRate := !f.frameRate)
      else if l == 's' then f.(filtering := !f.filtering)
      else if l == 't' then f.(texture := !f.texture)
      else f
    case _ => f
  }

  /** The view after key `k`. */
  function ViewAfterKey(v: View, k: Key): View
  {
    match k
    case Ascii(c) =>
      if Lower(c) == 'z' then v.(angleX := 0, angleY := 0, angleZ := 0)
      else if c == '+' then v.(screenD := v.screenD + Delta)
      else if c == '-' then v.(screenD := v.screenD - Delta)
      else v
    case Up => v.(angleX := v.angleX - Delta)
    case Down => v.(angleX := v.angleX + Delta)
    case Left => v.(angleY := v.angleY + Delta)
    case Right => v.(angleY := v.angleY - Delta)
    case PgUp => v.(angleZ := v.angleZ + Delta)
    case PgDn => v.(angleZ := v.angleZ - Delta)
    case Home => v.(objectZ := v.objectZ - ObjZDelta)
    case End => v.(objectZ := v.objectZ + ObjZDelta)
  }

  /** The features with flag `j` negated (none for j outside 0..7). */
  function Toggle(f: Features, j: int): Features
  {
    if j == 0 then f.(bitblt := !f.bitblt) else if j == 1 then f.(lit := !f.lit)
    else if j == 2 then f.(perspective := !f.perspective) else if j == 3 then f.(texture := !f.texture)
    else if j == 4 then f.(fogging := !f.fogging) else if j == 5 then f.(filtering := !f.filtering)
    else if j == 6 then f.(alphaBlending := !f.alphaBlending) else if j == 7 then f.(frameRate := !f.frameRate)
    else f
  }

  /** A character key toggles the flag ToggledFlag names. */
  lemma KeyIsToggle(f: Features, c: char)
    ensures FeaturesAfterKey(f, Ascii(c)) == Toggle(f, ToggledFlag(c))
  {
    var l := Lower(c);
    if l == 'a' {} else if l == 'b' {} else if l == 'f' {} else if l == 'l' {}
    else if l == 'p' {} else if l == 'r' {} else if l == 's' {} else if l == 't' {}
    else {
      assert ToggledFlag(c) == -1;
    }
  }

  lemma ToggleFlag(f: Features, j: int, i: int)
    requires 0 <= i < 8
    ensures Flag(Toggle(f, j), i) == (Flag(f, i) != (i == j))
  {
    if j < 4 {
      ToggleLowFlag(f, j, i);
    } else {
      ToggleHighFlag(f, j, i);
    }
  }

  lemma ToggleLowFlag(f: Features, j: int, i: int)
    requires 0 <= i < 8 && j < 4
    ensures Flag(Toggle(f, j), i) == (Flag(f, i) != (i == j))
  {
    if j == 0 {} else if j == 1 {} else if j == 2 {} else if j == 3 {}
  }

  lemma ToggleHighFlag(f: Features, j: int, i: int)
    requires 0 <= i < 8 && j >= 4
    ensures Flag(Toggle(f, j), i) == (Flag(f, i) != (i == j))
  {
    if j == 4 {} else if j == 5 {} else if j == 6 {} else if j == 7 {}
  }

  /** Each toggle key negates exactly its own flag and leaves the other seven alone. */
  lemma ToggleNegatesOneFlag(f: Features, c: char, i: int)
    requires 0 <= i < 8
    ensures Flag(FeaturesAfterKey(f, Ascii(c)), i) == (Flag(f, i) != (i == ToggledFlag(c)))
  {
    KeyIsToggle(f, c);
    ToggleFlag(f, ToggledFlag(c), i);
  }

  /** Pressing any key twice leaves the features as they were. */
  lemma KeyTwiceRestoresFeatures(f: Features, k: Key)
    ensures FeaturesAfterKey(FeaturesAfterKey(f, k), k) == f
  {
    if k.Ascii? {
      forall i | 0 <= i < 8
        ensures Flag(FeaturesAfterKey(FeaturesAfterKey(f, k), k), i) == Flag(f, i)
      {
        ToggleNegatesOneFlag(f, k.c, i);
        ToggleNegatesOneFlag(FeaturesAfterKey(f, k), k.c, i);
      }
      FlagsDetermineFeatures(FeaturesAfterKey(FeaturesAfterKey(f, k), k), f);
    }
  }

  /** Two feature sets with the same eight flags are equal. */
  lemma FlagsDetermineFeatures(f: Features, g: Features)
    requires forall i :: 0 <= i < 8 ==> Flag(f, i) == Flag(g, i)
    ensures f == g
  {
    assert Flag(f, 0) == Flag(g, 0) && Flag(f, 1) == Flag(g, 1) && Flag(f, 2) == Flag(g, 2);
    assert Flag(f, 3) == Flag(g, 3) && Flag(f, 4) == Flag(g, 4) && Flag(f, 5) == Flag(g, 5);
    assert Flag(f, 6) == Flag(g, 6) && Flag(f, 7) == Flag(g, 7);
  }

  /** Feature keys leave the view alone, and view keys leave the features alone. */
  lemma KeysAreSeparate(f: Features, v: View, k: Key)
    ensures k.Ascii? && ToggledFlag(k.c) >= 0 ==> ViewAfterKey(v, k) == v
    ensures !k.Ascii? || Lower(k.c) == 'z' || k.c == '+' || k.c == '-' ==> FeaturesAfterKey(f, k) == f
  {
  }

  /** 'Z' stops the rotation and keeps the depth and screen distance. */
  lemma StopKeyZeroesAngles(v: View, c: char)
    requires Lower(c) == 'z'
    ensures var w := ViewAfterKey(v, Ascii(c));
            w.angleX == 0 && w.angleY == 0 && w.angleZ == 0 &&
            w.objectZ == v.objectZ && w.screenD == v.screenD
  {
  }

  // ---------------------------------------------------------------------
  // Rendering state: setupTexture and the key handler's toolkit calls
  // ---------------------------------------------------------------------

  function AlphaFor(alphaBlending: bool): StateVal
  {
    if alphaBlending then AlphaTexture else AlphaOff
  }

  function FilterFor(filtering: bool, mipLevels: nat): StateVal
  {
    if filtering then (if mipLevels != 0 then TexM4TPP else Tex4TPP)
    else (if mipLevels != 0 then TexM1TPP else Tex1TPP)
  }

  function RenderFor(perspective: bool, lit: bool): StateVal
  {
    if perspective && lit then LitTexturePerspect
    else if perspective && !lit then UnlitTexturePerspect
    else if !perspective && lit then LitTexture
    else UnlitTexture
  }

  /** The calls setupTexture makes, in order. */
  function SetupTextureCmds(f: Features, mipLevels: nat): seq<Cmd>
  {
    [SetState(TextureActive, SurfaceOf(TextureSurf)),
     SetState(TexBlendingMode, TexModulate),
     SetState(AlphaBlending, AlphaFor(f.alphaBlending)),
     SetState(TexFilteringMode, FilterFor(f.filtering, mipLevels)),
     SetState(RenderingType, RenderFor(f.perspective, f.lit))]
  }

  /**
   * Whatever was set before, after setupTexture the texture registers follow
   * the flags: alpha is on iff alpha blending is, and each of the four
   * filter modes and four rendering types belongs to exactly one pair of flags.
   */
  lemma SetupTextureState(t: seq<Cmd>, f: Features, mipLevels: nat)
    ensures var s := t + SetupTextureCmds(f, mipLevels);
            LastState(s, TextureActive) == Some(SurfaceOf(TextureSurf)) &&
            LastState(s, TexBlendingMode) == Some(TexModulate) &&
            (LastState(s, AlphaBlending) == Some(AlphaTexture) <==> f.alphaBlending) &&
            (LastState(s, AlphaBlending) == Some(AlphaOff) <==> !f.alphaBlending) &&
            LastState(s, TexFilteringMode) == Some(FilterFor(f.filtering, mipLevels)) &&
            LastState(s, RenderingType) == Some(RenderFor(f.perspective, f.lit))
  {
    var u := SetupTextureCmds(f, mipLevels);
    LastStateSetBy(t, u, 0, TextureActive);
    LastStateSetBy(t, u, 1, TexBlendingMode);
    LastStateSetBy(t, u, 2, AlphaBlending);
    LastStateSetBy(t, u, 3, TexFilteringMode);
    LastStateSetBy(t, u, 4, RenderingType);
  }

  /** The filter mode tells filtering and the presence of mip levels apart. */
  lemma FilterModesDistinct(f1: bool, m1: nat, f2: bool, m2: nat)
    ensures FilterFor(f1, m1) == FilterFor(f2, m2) <==> f1 == f2 && (m1 == 0 <==> m2 == 0)
    ensures FilterFor(f1, m1) in {Tex1TPP, Tex4TPP, TexM1TPP, TexM4TPP}
  {
  }

  /** The rendering type tells perspective and lighting apart, and is never Gouraud. */
  lemma RenderTypesDistinct(p1: bool, l1: bool, p2: bool, l2: bool)
    ensures RenderFor(p1, l1) == RenderFor(p2, l2) <==> p1 == p2 && l1 == l2
    ensures RenderFor(p1, l1) != Gouraud
  {
  }

  /** fillBackground: each display buffer is cleared, then painted with the bitmap if it is on. */
  function FillOneBuffer(buf: int, bitblt: bool, zRect: Rect, bmpDest: Rect, bmpSrc: Rect): seq<Cmd>
  {
    [RectFill(Display(buf), zRect, BgColour)] +
    (if bitblt then [BitBlt(Display(buf), bmpDest, BmpSurf, bmpSrc)] else [])
  }

  /** The calls for buffers 0 .. n-1. */
  function FillBuffers(n: nat, bitblt: bool, zRect: Rect, bmpDest: Rect, bmpSrc: Rect): seq<Cmd>
  {
    if n == 0 then [] else FillBuffers(n - 1, bitblt, zRect, bmpDest, bmpSrc) + FillOneBuffer(n - 1, bitblt, zRect, bmpDest, bmpSrc)
  }

  /** Both buffers are cleared to the whole screen, and bitmap-painted exactly when bitblt is on. */
  lemma FillBackgroundBothBuffers(bitblt: bool, zRect: Rect, bmpDest: Rect, bmpSrc: Rect, buf: int)
    requires buf == 0 || buf == 1
    ensures var cmds := FillBuffers(2, bitblt, zRect, bmpDest, bmpSrc);
            RectFill(Display(buf), zRect, BgColour) in cmds &&
            (BitBlt(Display(buf), bmpDest, BmpSurf, bmpSrc) in cmds <==> bitblt) &&
            |cmds| == if bitblt then 4 else 2
  {
    var c0 := FillOneBuffer(0, bitblt, zRect, bmpDest, bmpSrc);
    var c1 := FillOneBuffer(1, bitblt, zRect, bmpDest, bmpSrc);
    assert FillBuffers(1, bitblt, zRect, bmpDest, bmpSrc) == [] + c0 == c0;
    assert FillBuffers(2, bitblt, zRect, bmpDest, bmpSrc) == c0 + c1;
    assert RectFill(Display(buf), zRect, BgColour) in (if buf == 0 then c0 else c1);
  }

  /** The toolkit calls processKey makes, given the features before the key. */
  function KeyCmds(f: Features, k: Key, mipLevels: nat, zRect: Rect, bmpDest: Rect, bmpSrc: Rect): seq<Cmd>
  {
    var g := FeaturesAfterKey(f, k);
    match k
    case Ascii(c) =>
      var l := Lower(c);
      if l in {'a', 'l', 'p', 's'} then (if g.texture then SetupTextureCmds(g, mipLevels) else [])
      else if l == 'b' then FillBuffers(2, g.bitblt, zRect, bmpDest, bmpSrc)
      else if l == 'f' then [SetState(FogColor, Word(if g.fogging then 0x00ffffff else 0xffffffff))]
      else if l == 't' then
        (if g.texture then SetupTextureCmds(g, mipLevels)
         else [SetState(AlphaBlending, AlphaOff), SetState(RenderingType, Gouraud)])
      else []
    case _ => []
  }

  /** Alpha, lighting, perspective and filtering keys reach the renderer only while texturing is on. */
  lemma TextureKeysNeedTexture(f: Features, c: char, mipLevels: nat, zRect: Rect, bmpDest: Rect, bmpSrc: Rect)
    requires Lower(c) in {'a', 'l', 'p', 's'}
    ensures KeyCmds(f, Ascii(c), mipLevels, zRect, bmpDest, bmpSrc) == [] <==> !f.texture
  {
  }

  /** Turning texturing off leaves alpha off and Gouraud shading, whatever the other flags. */
  lemma TextureOffState(t: seq<Cmd>, f: Features, c: char, mipLevels: nat, zRect: Rect, bmpDest: Rect, bmpSrc: Rect)
    requires Lower(c) == 't' && f.texture
    ensures var s := t + KeyCmds(f, Ascii(c), mipLevels, zRect, bmpDest, bmpSrc);
            LastState(s, AlphaBlending) == Some(AlphaOff) && LastState(s, RenderingType) == Some(Gouraud)
  {
    var u := KeyCmds(f, Ascii(c), mipLevels, zRect, bmpDest, bmpSrc);
    assert u == [SetState(AlphaBlending, AlphaOff), SetState(RenderingType, Gouraud)];
    LastStateSetBy(t, u, 0, AlphaBlending);
    LastStateSetBy(t, u, 1, RenderingType);
  }

  /** Turning texturing on makes the texture registers follow the flags, as setupTexture does. */
  lemma TextureOnState(t: seq<Cmd>, f: Features, c: char, mipLevels: nat, zRect: Rect, bmpDest: Rect, bmpSrc: Rect)
    requires Lower(c) == 't' && !f.texture
    ensures var s := t + KeyCmds(f, Ascii(c), mipLevels, zRect, bmpDest, bmpSrc);
            (LastState(s, AlphaBlending) == Some(AlphaTexture) <==> f.alphaBlending) &&
            LastState(s, RenderingType) == Some(RenderFor(f.perspective, f.lit)) &&
            LastState(s, TexFilteringMode) == Some(FilterFor(f.filtering, mipLevels))
  {
    SetupTextureState(t, FeaturesAfterKey(f, Ascii(c)), mipLevels);
  }

  /** The fog key leaves the fog colour register at opaque white exactly when fog is now on. */
  lemma FogKeyState(t: seq<Cmd>, f: Features, c: char, mipLevels: nat, zRect: Rect, bmpDest: Rect, bmpSrc: Rect)
    requires Lower(c) == 'f'
    ensures var s := t + KeyCmds(f, Ascii(c), mipLevels, zRect, bmpDest, bmpSrc);
            LastState(s, FogColor) == Some(Word(0x00ffffff)) <==> !f.fogging
  {
    LastStateSetBy(t, KeyCmds(f, Ascii(c), mipLevels, zRect, bmpDest, bmpSrc), 0, FogColor);
  }

  // ---------------------------------------------------------------------
  // Frame counter and frame-rate digits (displayFrameRate)
  // ---------------------------------------------------------------------

  /** dwFrameCount, dwFrames and start. */
  datatype Counter = Counter(count: nat, frames: nat, start: int)

  /**
   * One displayFrameRate call at clock reading `now`: the new counter, and
   * whether the call goes on to draw the digits (it returns early on the
   * first frame after a reset).
   */
  function CounterStep(c: Counter, now: int, clk: nat): (r: (Counter, bool))
    requires clk > 0
  {
    if c.count == 0 then (Counter(1, c.frames, now), false)
    else if now - c.start >= clk then (Counter(0, (c.count + 1) * clk / (now - c.start), now), true)
    else (Counter(c.count + 1, c.frames, c.start), true)
  }

  /** The first call after a reset only starts the clock. */
  lemma CounterRestarts(c: Counter, now: int, clk: nat)
    requires clk > 0 && c.count == 0
    ensures CounterStep(c, now, clk) == (Counter(1, c.frames, now), false)
  {
  }

  /**
   * Once at least a second (clk ticks) has passed, the frame rate becomes the
   * number of frames counted per second, rounded down, and counting restarts.
   */
  lemma CounterMeasuresRate(c: Counter, now: int, clk: nat)
    requires clk > 0 && c.count > 0 && now - c.start >= clk
    ensures var (n, drawn) := CounterStep(c, now, clk);
            drawn && n.count == 0 && n.start == now &&
            n.frames * (now - c.start) <= (c.count + 1) * clk < (n.frames + 1) * (now - c.start)
  {
    var e := now - c.start;
    var q := (c.count + 1) * clk;
    assert q == (q / e) * e + q % e;
  }

  /** Before a second has passed, the call only counts the frame. */
  lemma CounterCounts(c: Counter, now: int, clk: nat)
    requires clk > 0 && c.count > 0 && now - c.start < clk
    ensures CounterStep(c, now, clk) == (Counter(c.count + 1, c.frames, c.start), true)
  {
  }

  /** The value of `digit` in the i-th pass of the digit loop. */
  function Place(i: int): int
  {
    if i == 0 then 100 else if i == 1 then 10 else if i == 2 then 1 else 0
  }

  /** The glyph index of the i-th pass: the quotient truncated to a WORD. */
  function Digit(frames: nat, i: int): nat
    requires 0 <= i < 3
  {
    (Rest(frames, i) / Place(i)) % WordRange
  }

  /** What is left of the rate before the i-th pass: the remainder by the previous place. */
  function Rest(frames: nat, i: int): nat
    requires 0 <= i <= 3
  {
    if i == 0 then frames else frames % Place(i - 1)
  }

  /** Taking the remainder by the current place leaves what the next pass starts from. */
  lemma RestStep(frames: nat, i: int)
    requires 0 <= i < 3
    ensures Rest(frames, i) % Place(i) == Rest(frames, i + 1)
  {
    if i == 1 {
      var q, r := frames / 100, frames % 100;
      var a, d := r / 10, r % 10;
      assert frames == 10 * (10 * q + a) + d;
    }
  }

  /** The blit of glyph i. */
  function GlyphCmd(frames: nat, i: int, numW: int, numH: int, bb: int): Cmd
    requires 0 <= i < 3
  {
    BitBltTransparent(Display(bb), GlyphDest(i, numW, numH), NumSurf, GlyphSrc(Digit(frames, i), numW, numH), 0)
  }

  /** The three transparent blits of the frame-rate digits. */
  function GlyphCmds(frames: nat, numW: int, numH: int, bb: int): (cmds: seq<Cmd>)
    ensures |cmds| == 3
  {
    [GlyphCmd(frames, 0, numW, numH, bb), GlyphCmd(frames, 1, numW, numH, bb), GlyphCmd(frames, 2, numW, numH, bb)]
  }

  /** The frame-rate digits when they are drawn, nothing otherwise. */
  function RateCmds(drawn: bool, frames: nat, numW: int, numH: int, bb: int): seq<Cmd>
  {
    if drawn then GlyphCmds(frames, numW, numH, bb) else []
  }

  /** Below 1000 the three glyphs are the hundreds, tens and units digits of the rate. */
  lemma DigitsRecompose(frames: nat)
    requires frames < 1000
    ensures Digit(frames, 0) < 10 && Digit(frames, 1) < 10 && Digit(frames, 2) < 10
    ensures Digit(frames, 0) * 100 + Digit(frames, 1) * 10 + Digit(frames, 2) == frames
  {
    var h, r := frames / 100, frames % 100;
    assert h < 10 && Digit(frames, 0) == h;
    assert Digit(frames, 1) == r / 10;
    RestStep(frames, 1);
    assert Digit(frames, 2) == r % 10;
  }

  /** Glyph i is drawn i glyph widths right of FPS_X, from the cell of its digit. */
  lemma GlyphPlacement(frames: nat, numW: int, numH: int, bb: int, i: int)
    requires 0 <= i < 3
    ensures var g := GlyphCmds(frames, numW, numH, bb)[i];
            g.BitBltTransparent? && g.dst == Display(bb) && g.src == NumSurf &&
            g.dstRect.left == FpsX + i * numW && g.dstRect.top == FpsY &&
            g.srcRect.left == Digit(frames, i) * numW && g.colourKey == 0
  {
  }

  // ---------------------------------------------------------------------
  // Checkmarks (displayOptionStatus)
  // ---------------------------------------------------------------------

  /** The flag shown in row `row` of the left column. */
  function LeftColumnFlag(f: Features, row: int): bool
  {
    if row == 0 then f.bitblt else if row == 1 then f.texture else if row == 2 then f.filtering
    else if row == 3 then f.perspective else if row == 4 then f.fogging else if row == 5 then f.lit
    else false
  }

  /** The blit of one checkmark. */
  function MarkCmd(bmpDest: Rect, col: int, row: int, checkW: int, checkH: int, bb: int): Cmd
  {
    BitBltTransparent(Display(bb), MarkDest(bmpDest, col, row, checkW, checkH), CheckSurf, Rect(0, 0, checkH, checkW), 0)
  }

  function MarkIf(on: bool, bmpDest: Rect, col: int, row: int, checkW: int, checkH: int, bb: int): seq<Cmd>
  {
    if on then [MarkCmd(bmpDest, col, row, checkW, checkH, bb)] else []
  }

  /** The blits displayOptionStatus makes: left column rows 0-5, then alpha in the right column. */
  function OptionStatusCmds(f: Features, v: Variant, bmpDest: Rect, checkW: int, checkH: int, bb: int): seq<Cmd>
  {
    var xl := MarkXL(v);
    MarkIf(f.bitblt, bmpDest, xl, 0, checkW, checkH, bb) +
    MarkIf(f.texture, bmpDest, xl, 1, checkW, checkH, bb) +
    MarkIf(f.filtering, bmpDest, xl, 2, checkW, checkH, bb) +
    MarkIf(f.perspective, bmpDest, xl, 3, checkW, checkH, bb) +
    MarkIf(f.fogging, bmpDest, xl, 4, checkW, checkH, bb) +
    MarkIf(f.lit, bmpDest, xl, 5, checkW, checkH, bb) +
    MarkIf(f.alphaBlending, bmpDest, MarkXR(v), 0, checkW, checkH, bb)
  }

  /** A left-column checkmark is drawn in row k exactly when the k-th option is on. */
  lemma OptionMarkShownIff(f: Features, v: Variant, bmpDest: Rect, checkW: int, checkH: int, bb: int, row: int)
    requires 0 <= row < 6
    ensures MarkCmd(bmpDest, MarkXL(v), row, checkW, checkH, bb) in OptionStatusCmds(f, v, bmpDest, checkW, checkH, bb)
            <==> LeftColumnFlag(f, row)
  {
  }

  /** The alpha checkmark sits in row 0 of the right column exactly when alpha blending is on. */
  lemma AlphaMarkShownIff(f: Features, v: Variant, bmpDest: Rect, checkW: int, checkH: int, bb: int)
    ensures MarkCmd(bmpDest, MarkXR(v), 0, checkW, checkH, bb) in OptionStatusCmds(f, v, bmpDest, checkW, checkH, bb)
            <==> f.alphaBlending
  {
  }

  /** Number of options shown among the seven with a checkmark. */
  function ShownOptions(f: Features): nat
  {
    (if f.bitblt then 1 else 0) + (if f.texture then 1 else 0) + (if f.filtering then 1 else 0) +
    (if f.perspective then 1 else 0) + (if f.fogging then 1 else 0) + (if f.lit then 1 else 0) +
    (if f.alphaBlending then 1 else 0)
  }

  lemma Associative(a: seq<Cmd>, b: seq<Cmd>, c: seq<Cmd>)
    ensures (a + b) + c == a + (b + c)
  {
  }

  /** Every command is a checkmark blit into buffer `bb`. */
  predicate AllMarks(cmds: seq<Cmd>, bb: int)
  {
    forall i :: 0 <= i < |cmds| ==> cmds[i].BitBltTransparent? && cmds[i].src == CheckSurf && cmds[i].dst == Display(bb)
  }

  lemma AllMarksAppend(a: seq<Cmd>, b: seq<Cmd>, bb: int)
    requires AllMarks(a, bb) && AllMarks(b, bb)
    ensures AllMarks(a + b, bb)
  {
    forall i | 0 <= i < |a + b|
      ensures (a + b)[i].BitBltTransparent? && (a + b)[i].src == CheckSurf && (a + b)[i].dst == Display(bb)
    {
      if i >= |a| {
        assert (a + b)[i] == b[i - |a|];
      }
    }
  }

  /** One blit per option that is on, every one a checkmark into the back buffer. */
  lemma OneMarkPerOption(f: Features, v: Variant, bmpDest: Rect, checkW: int, checkH: int, bb: int)
    ensures var cmds := OptionStatusCmds(f, v, bmpDest, checkW, checkH, bb);
            |cmds| == ShownOptions(f) && AllMarks(cmds, bb)
  {
    var xl := MarkXL(v);
    var p0 := MarkIf(f.bitblt, bmpDest, xl, 0, checkW, checkH, bb);
    var p1 := MarkIf(f.texture, bmpDest, xl, 1, checkW, checkH, bb);
    var p2 := MarkIf(f.filtering, bmpDest, xl, 2, checkW, checkH, bb);
    var p3 := MarkIf(f.perspective, bmpDest, xl, 3, checkW, checkH, bb);
    var p4 := MarkIf(f.fogging, bmpDest, xl, 4, checkW, checkH, bb);
    var p5 := MarkIf(f.lit, bmpDest, xl, 5, checkW, checkH, bb);
    var p6 := MarkIf(f.alphaBlending, bmpDest, MarkXR(v), 0, checkW, checkH, bb);
    AllMarksAppend(p0, p1, bb);
    AllMarksAppend(p0 + p1, p2, bb);
    AllMarksAppend(p0 + p1 + p2, p3, bb);
    AllMarksAppend(p0 + p1 + p2 + p3, p4, bb);
    AllMarksAppend(p0 + p1 + p2 + p3 + p4, p5, bb);
    AllMarksAppend(p0 + p1 + p2 + p3 + p4 + p5, p6, bb);
    assert |p0| == (if f.bitblt then 1 else 0) && |p1| == (if f.texture then 1 else 0);
    assert |p2| == (if f.filtering then 1 else 0) && |p3| == (if f.perspective then 1 else 0);
    assert |p4| == (if f.fogging then 1 else 0) && |p5| == (if f.lit then 1 else 0);
    assert |p6| == (if f.alphaBlending then 1 else 0);
    assert |OptionStatusCmds(f, v, bmpDest, checkW, checkH, bb)| == |p0| + |p1| + |p2| + |p3| + |p4| + |p5| + |p6|;
  }

  // ---------------------------------------------------------------------
  // Heads-up layout (initBackground)
  // ---------------------------------------------------------------------

  /** The heads-up rectangles initBackground computes. */
  datatype Hud = Hud(frDest: Rect, frSrc: Rect, bltFr: bool,
                     lDest: Rect, lSrc: Rect, rDest: Rect, rSrc: Rect, bltR: bool)

  /**
   * The layout for the bitmap at bmpDest / bmpSrc.  The source of the
   * frame-rate area is set only when that area is on the bitmap; otherwise
   * the previous value stays.
   */
  function HudLayout(prev: Hud, v: Variant, bmpDest: Rect, bmpSrc: Rect, numW: int, numH: int, checkW: int): (h: Hud)
    ensures h.lDest.Width() == h.lSrc.Width() && h.lDest.Height() == h.lSrc.Height()
    ensures h.rDest.Width() == h.rSrc.Width() && h.rDest.Height() == h.rSrc.Height()
    ensures h.bltR <==> !(h.rDest.left > bmpDest.right)
    ensures h.bltFr <==> !(bmpDest.top > h.frDest.bottom || bmpDest.left > h.frDest.right)
    ensures h.bltFr ==> h.frSrc.Width() == h.frDest.Width() && h.frSrc.Height() == h.frDest.Height()
    ensures !h.bltFr ==> h.frSrc == prev.frSrc
  {
    var fr := FrameRateArea(numW, numH);
    var on := FrameRateOnBitmap(bmpDest, fr);
    var (ld, ls) := LeftColumn(bmpDest, bmpSrc, MarkXL(v), checkW);
    var (rd, rs) := RightColumn(bmpDest, bmpSrc, MarkXR(v), checkW);
    Hud(fr, if on then FrameRateSource(bmpSrc, numW, numH) else prev.frSrc, on,
        ld, ls, rd, rs, RightColumnOnBitmap(bmpDest, MarkXR(v)))
  }

  // ---------------------------------------------------------------------
  // Screen update (updateScreen)
  // ---------------------------------------------------------------------

  /** The frame-rate area: repainted from the bitmap when it lies on it, else cleared. */
  function FrameRatePatch(hud: Hud, bb: int): seq<Cmd>
  {
    if hud.bltFr then [BitBlt(Display(bb), hud.frDest, BmpSurf, hud.frSrc)]
    else [RectFill(Display(bb), hud.frDest, BgColour)]
  }

  /** The checkmark columns, repainted from the bitmap (the right one only when on it). */
  function ColumnPatch(hud: Hud, bb: int): seq<Cmd>
  {
    [BitBlt(Display(bb), hud.lDest, BmpSurf, hud.lSrc)] +
    (if hud.bltR then [BitBlt(Display(bb), hud.rDest, BmpSurf, hud.rSrc)] else [])
  }

  /** The area the object covered: cleared off the bitmap if flagged, then repainted from it. */
  function SlotPatch(s: Slot, bb: int): seq<Cmd>
  {
    (if s.fill then [RectFill(Display(bb), s.fillRect, BgColour)] else []) +
    [BitBlt(Display(bb), s.bmpDest, BmpSurf, s.bmpSrc)]
  }

  /** The background repaint of updateScreen for back buffer `bb` with slot `s`. */
  function RepaintCmds(f: Features, v: Variant, hud: Hud, s: Slot, zRect: Rect, bmpDest: Rect,
                       checkW: int, checkH: int, bb: int): seq<Cmd>
  {
    if f.bitblt then
      FrameRatePatch(hud, bb) + ColumnPatch(hud, bb) + SlotPatch(s, bb) +
      OptionStatusCmds(f, v, bmpDest, checkW, checkH, bb)
    else [RectFill(Display(bb), zRect, BgColour)]
  }

  /** How a finished frame is shown: a display-surface switch in DOS, a flip under DirectDraw. */
  function PresentCmds(v: Variant, bb: int): seq<Cmd>
  {
    if v == Example then [SetState(DisplaySurface, SurfaceOf(Display(bb)))] else [Flip]
  }

  /** With the bitmap on, a flagged fill of the slot comes before the slot's bitmap repaint. */
  lemma FillBeforeBitmap(f: Features, v: Variant, hud: Hud, s: Slot, zRect: Rect, bmpDest: Rect,
                         checkW: int, checkH: int, bb: int)
    requires f.bitblt && s.fill
    ensures var cmds := RepaintCmds(f, v, hud, s, zRect, bmpDest, checkW, checkH, bb);
            exists i, j :: 0 <= i < j < |cmds| &&
              cmds[i] == RectFill(Display(bb), s.fillRect, BgColour) &&
              cmds[j] == BitBlt(Display(bb), s.bmpDest, BmpSurf, s.bmpSrc)
  {
    var cmds := RepaintCmds(f, v, hud, s, zRect, bmpDest, checkW, checkH, bb);
    var head := FrameRatePatch(hud, bb) + ColumnPatch(hud, bb);
    var slot := SlotPatch(s, bb);
    var i := |head|;
    assert cmds == head + slot + OptionStatusCmds(f, v, bmpDest, checkW, checkH, bb);
    assert cmds[i] == slot[0] == RectFill(Display(bb), s.fillRect, BgColour);
    assert cmds[i + 1] == slot[1] == BitBlt(Display(bb), s.bmpDest, BmpSurf, s.bmpSrc);
  }

  /** With the bitmap off, the repaint is a single fill of the whole screen. */
  lemma NoBitmapFillsScreen(f: Features, v: Variant, hud: Hud, s: Slot, zRect: Rect, bmpDest: Rect,
                            checkW: int, checkH: int, bb: int)
    requires !f.bitblt
    ensures RepaintCmds(f, v, hud, s, zRect, bmpDest, checkW, checkH, bb) == [RectFill(Display(bb), zRect, BgColour)]
  {
  }

  /** A fill of, or a blit into, display buffer `bb`; opaque blits copy from the bitmap. */
  predicate DrawsInto(c: Cmd, bb: int)
  {
    (c.RectFill? && c.surf == Display(bb)) ||
    (c.BitBlt? && c.dst == Display(bb) && c.src == BmpSurf) ||
    (c.BitBltTransparent? && c.dst == Display(bb))
  }

  predicate AllDrawInto(cmds: seq<Cmd>, bb: int)
  {
    forall i :: 0 <= i < |cmds| ==> DrawsInto(cmds[i], bb)
  }

  lemma AllDrawIntoAppend(a: seq<Cmd>, b: seq<Cmd>, bb: int)
    requires AllDrawInto(a, bb) && AllDrawInto(b, bb)
    ensures AllDrawInto(a + b, bb)
  {
    forall i | 0 <= i < |a + b|
      ensures DrawsInto((a + b)[i], bb)
    {
      if i >= |a| {
        assert (a + b)[i] == b[i - |a|];
      }
    }
  }

  /** The repaint draws only into the back buffer. */
  lemma RepaintTargetsBackBuffer(f: Features, v: Variant, hud: Hud, s: Slot, zRect: Rect, bmpDest: Rect,
                                 checkW: int, checkH: int, bb: int)
    ensures AllDrawInto(RepaintCmds(f, v, hud, s, zRect, bmpDest, checkW, checkH, bb), bb)
  {
    if f.bitblt {
      var q0 := FrameRatePatch(hud, bb);
      var q1 := ColumnPatch(hud, bb);
      var q2 := SlotPatch(s, bb);
      var marks := OptionStatusCmds(f, v, bmpDest, checkW, checkH, bb);
      OneMarkPerOption(f, v, bmpDest, checkW, checkH, bb);
      assert AllDrawInto(marks, bb);
      assert AllDrawInto(q1, bb) && AllDrawInto(q2, bb);
      AllDrawIntoAppend(q0, q1, bb);
      AllDrawIntoAppend(q0 + q1, q2, bb);
      AllDrawIntoAppend(q0 + q1 + q2, marks, bb);
    }
  }

  // ---------------------------------------------------------------------
  // The program state
  // ---------------------------------------------------------------------

  /** Number of display buffers (front and back). */
  const Buffers: int := 2

  class Sample {
    const variant: Variant
    /** Screen size in pixels. */
    const width: nat
    const height: nat
    /** Clock ticks per second (CLK_TCK). */
    const clkTck: nat
    /** The object's triangle list: its length and kind are fixed at compile time. */
    const listLength: nat
    const triMode: TriMode

    var features: Features
    var view: View
    /** Mip levels of the loaded texture (0: not mipmapped). */
    var mipLevels: nat

    var zRect: Rect
    var bmpDest: Rect
    var bmpSrc: Rect
    var numW: int
    var numH: int
    var checkW: int
    var checkH: int
    var hud: Hud

    /** The per-buffer dirty rectangles; index = buffer number. */
    var slots: array<Slot>
    var backBuffer: int

    var frameCount: nat
    var frames: nat
    var start: int

    /** Every toolkit call made so far. */
    var trace: seq<Cmd>

    ghost predicate Valid()
      reads this`slots, this`backBuffer
    {
      slots.Length == Buffers && (backBuffer == 0 || backBuffer == 1) && clkTck > 0
    }

    function CounterNow(): Counter
      reads this`frameCount, this`frames, this`start
    {
      Counter(frameCount, frames, start)
    }

    /**
     * The state initMemoryBuffer leaves: surfaces allocated (outside this
     * model), the bitmap centred, glyph cells a tenth of the number strip,
     * back buffer 1, and the start-up features and view.
     */
    constructor (variant: Variant, width: nat, height: nat, clkTck: nat, listLength: nat, triMode: TriMode,
                 bmpW: nat, bmpH: nat, numSurfW: nat, numSurfH: nat, checkW: nat, checkH: nat, mipLevels: nat)
      requires clkTck > 0
      ensures Valid() && fresh(slots)
      ensures this.variant == variant && this.width == width && this.height == height
      ensures this.clkTck == clkTck && this.listLength == listLength && this.triMode == triMode
      ensures features == InitialFeatures && view == InitialView && this.mipLevels == mipLevels
      ensures zRect == Rect(0, 0, height, width)
      ensures (bmpDest, bmpSrc) == CentreRects(width, height, bmpW, bmpH)
      ensures numW == numSurfW / 10 && numH == numSurfH && this.checkW == checkW && this.checkH == checkH
      ensures backBuffer == 1 && CounterNow() == Counter(0, 0, 0) && trace == []
    {
      this.variant := variant;
      this.width := width;
      this.height := height;
      this.clkTck := clkTck;
      this.listLength := listLength;
      this.triMode := triMode;
      features := InitialFeatures;
      view := InitialView;
      this.mipLevels := mipLevels;
      zRect := Rect(0, 0, height, width);
      var centred := CentreRects(width, height, bmpW, bmpH);
      bmpDest := centred.0;
      bmpSrc := centred.1;
      numW := numSurfW / 10;
      numH := numSurfH;
      this.checkW := checkW;
      this.checkH := checkH;
      var none := Rect(0, 0, 0, 0);
      hud := Hud(none, none, false, none, none, none, none, false);
      slots := new Slot[Buffers](_ => Slot(false, none, none, none));
      backBuffer := 1;
      frameCount, frames, start := 0, 0, 0;
      trace := [];
    }

    /** setupTexture. */
    method SetupTexture()
      modifies this`trace
      ensures trace == old(trace) + SetupTextureCmds(features, mipLevels)
    {
      trace := trace + [SetState(TextureActive, SurfaceOf(TextureSurf))];
      trace := trace + [SetState(TexBlendingMode, TexModulate)];
      if features.alphaBlending {
        trace := trace + [SetState(AlphaBlending, AlphaTexture)];
      } else {
        trace := trace + [SetState(AlphaBlending, AlphaOff)];
      }
      if features.filtering {
        if mipLevels != 0 {
          trace := trace + [SetState(TexFilteringMode, TexM4TPP)];
        } else {
          trace := trace + [SetState(TexFilteringMode, Tex4TPP)];
        }
      } else {
        if mipLevels != 0 {
          trace := trace + [SetState(TexFilteringMode, TexM1TPP)];
        } else {
          trace := trace + [SetState(TexFilteringMode, Tex1TPP)];
        }
      }
      if features.perspective && features.lit {
        trace := trace + [SetState(RenderingType, LitTexturePerspect)];
      } else if features.perspective && !features.lit {
        trace := trace + [SetState(RenderingType, UnlitTexturePerspect)];
      } else if !features.perspective && features.lit {
        trace := trace + [SetState(RenderingType, LitTexture)];
      } else {
        trace := trace + [SetState(RenderingType, UnlitTexture)];
      }
    }

    /** fillBackground: clear both buffers and repaint the bitmap into them if it is on. */
    method FillBackground()
      modifies this`trace
      ensures trace == old(trace) + FillBuffers(2, features.bitblt, zRect, bmpDest, bmpSrc)
    {
      var buf := 0;
      while buf < Buffers
        invariant 0 <= buf <= Buffers
        invariant trace == old(trace) + FillBuffers(buf, features.bitblt, zRect, bmpDest, bmpSrc)
      {
        trace := trace + [RectFill(Display(buf), zRect, BgColour)];
        if features.bitblt {
          trace := trace + [BitBlt(Display(buf), bmpDest, BmpSurf, bmpSrc)];
        }
        buf := buf + 1;
      }
    }

    /** processKey. */
    method ProcessKey(k: Key)
      modifies this`features, this`view, this`trace
      ensures features == FeaturesAfterKey(old(features), k)
      ensures view == ViewAfterKey(old(view), k)
      ensures trace == old(trace) + KeyCmds(old(features), k, mipLevels, zRect, bmpDest, bmpSrc)
    {
      match k {
        case Ascii(c) =>
          var l := Lower(c);
          if l == 'a' {
            features := features.(alphaBlending := !features.alphaBlending);
            if features.texture { SetupTexture(); }
          } else if l == 'b' {
            features := features.(bitblt := !features.bitblt);
            FillBackground();
          } else if l == 'f' {
            features := features.(fogging := !features.fogging);
            if features.fogging {
              trace := trace + [SetState(FogColor, Word(0x00ffffff))];
            } else {
              trace := trace + [SetState(FogColor, Word(0xffffffff))];
            }
          } else if l == 'l' {
            features := features.(lit := !features.lit);
            if features.texture { SetupTexture(); }
          } else if l == 'p' {
            features := features.(perspective := !features.perspective);
            if features.texture { SetupTexture(); }
          } else if l == 'r' {
            features := features.(frameRate := !features.frameRate);
          } else if l == 's' {
            features := features.(filtering := !features.filtering);
            if features.texture { SetupTexture(); }
          } else if l == 't' {
            features := features.(texture := !features.texture);
            if features.texture {
              SetupTexture();
            } else {
              trace := trace + [SetState(AlphaBlending, AlphaOff)];
              trace := trace + [SetState(RenderingType, Gouraud)];
            }
          } else if l == 'z' {
            view := view.(angleX := 0, angleY := 0, angleZ := 0);
          } else if c == '+' {
            view := view.(screenD := view.screenD + Delta);
          } else if c == '-' {
            view := view.(screenD := view.screenD - Delta);
          }
        case Up => view := view.(angleX := view.angleX - Delta);
        case Down => view := view.(angleX := view.angleX + Delta);
        case Left => view := view.(angleY := view.angleY + Delta);
        case Right => view := view.(angleY := view.angleY - Delta);
        case PgUp => view := view.(angleZ := view.angleZ + Delta);
        case PgDn => view := view.(angleZ := view.angleZ - Delta);
        case Home => view := view.(objectZ := view.objectZ - ObjZDelta);
        case End => view := view.(objectZ := view.objectZ + ObjZDelta);
      }
    }

    /** displayFrameRate, at clock reading `now`. */
    method DisplayFrameRate(now: int)
      requires Valid()
      modifies this`frameCount, this`frames, this`start, this`trace
      ensures CounterNow() == CounterStep(old(CounterNow()), now, clkTck).0
      ensures trace == old(trace) + RateCmds(CounterStep(old(CounterNow()), now, clkTck).1 && features.frameRate,
                                             frames, numW, numH, backBuffer)
    {
      var draw := CountFrame(now);
      if draw && features.frameRate {
        DrawDigits();
      }
    }

    /** The counting half of displayFrameRate; false when it returns before drawing. */
    method CountFrame(now: int) returns (draw: bool)
      requires Valid()
      modifies this`frameCount, this`frames, this`start
      ensures (CounterNow(), draw) == CounterStep(old(CounterNow()), now, clkTck)
    {
      var wasZero := frameCount == 0;
      frameCount := frameCount + 1;
      if wasZero {
        start := now;
        return false;
      }
      if now - start >= clkTck {
        frames := frameCount * clkTck / (now - start);
        frameCount := 0;
        start := now;
      }
      return true;
    }

    /** The drawing half of displayFrameRate: the digit loop. */
    method DrawDigits()
      modifies this`trace
      ensures trace == old(trace) + GlyphCmds(frames, numW, numH, backBuffer)
    {
      var digit := 100;
      var displayX := FpsX;
      var temp := frames;
      ghost var i := 0;
      while digit >= 1
        invariant 0 <= i <= 3 && digit == Place(i)
        invariant displayX == FpsX + i * numW
        invariant temp == Rest(frames, i)
        invariant trace == old(trace) + GlyphCmds(frames, numW, numH, backBuffer)[..i]
        decreases digit
      {
        var num := (temp / digit) % WordRange;
        RestStep(frames, i);
        temp := temp % digit;
        trace := trace + [BitBltTransparent(Display(backBuffer),
                                            Rect(FpsY, displayX, FpsY + numH, displayX + numW),
                                            NumSurf, Rect(0, num * numW, numH, num * numW + numW), 0)];
        assert GlyphCmds(frames, numW, numH, backBuffer)[..i + 1] ==
               GlyphCmds(frames, numW, numH, backBuffer)[..i] + [GlyphCmd(frames, i, numW, numH, backBuffer)];
        digit := digit / 10;
        displayX := displayX + numW;
        assert displayX == FpsX + (i + 1) * numW;
        i := i + 1;
      }
      assert GlyphCmds(frames, numW, numH, backBuffer)[..i] == GlyphCmds(frames, numW, numH, backBuffer);
    }

    /** One checkmark, `col` pixels right of the bitmap's left edge, in row `row`, if `on`. */
    method DrawMarkIf(on: bool, col: int, row: int)
      modifies this`trace
      ensures trace == old(trace) + MarkIf(on, bmpDest, col, row, checkW, checkH, backBuffer)
    {
      if on {
        var top := bmpDest.top + MarkY + row * MarkLineHt;
        var left := bmpDest.left + col;
        trace := trace + [BitBltTransparent(Display(backBuffer), Rect(top, left, top + checkH, left + checkW),
                                            CheckSurf, Rect(0, 0, checkH, checkW), 0)];
      }
    }

    /** displayOptionStatus. */
    method DisplayOptionStatus()
      modifies this`trace
      ensures trace == old(trace) + OptionStatusCmds(features, variant, bmpDest, checkW, checkH, backBuffer)
    {
      var xl := MarkXL(variant);
      ghost var t0 := trace;
      DrawMarkIf(features.bitblt, xl, 0);
      ghost var done := MarkIf(features.bitblt, bmpDest, xl, 0, checkW, checkH, backBuffer);
      ghost var part := MarkIf(features.texture, bmpDest, xl, 1, checkW, checkH, backBuffer);
      DrawMarkIf(features.texture, xl, 1);
      Associative(t0, done, part);
      done := done + part;
      part := MarkIf(features.filtering, bmpDest, xl, 2, checkW, checkH, backBuffer);
      DrawMarkIf(features.filtering, xl, 2);
      Associative(t0, done, part);
      done := done + part;
      part := MarkIf(features.perspective, bmpDest, xl, 3, checkW, checkH, backBuffer);
      DrawMarkIf(features.perspective, xl, 3);
      Associative(t0, done, part);
      done := done + part;
      part := MarkIf(features.fogging, bmpDest, xl, 4, checkW, checkH, backBuffer);
      DrawMarkIf(features.fogging, xl, 4);
      Associative(t0, done, part);
      done := done + part;
      part := MarkIf(features.lit, bmpDest, xl, 5, checkW, checkH, backBuffer);
      DrawMarkIf(features.lit, xl, 5);
      Associative(t0, done, part);
      done := done + part;
      part := MarkIf(features.alphaBlending, bmpDest, MarkXR(variant), 0, checkW, checkH, backBuffer);
      DrawMarkIf(features.alphaBlending, MarkXR(variant), 0);
      Associative(t0, done, part);
    }

    /** initBackground: paint both buffers, mark both slots dirty, lay out the heads-up areas. */
    method InitBackground()
      requires Valid()
      modifies this`trace, this`hud, slots
      ensures trace == old(trace) + FillBuffers(2, features.bitblt, zRect, bmpDest, bmpSrc)
      ensures forall b :: 0 <= b < Buffers ==> slots[b] == Slot(true, zRect, bmpDest, bmpSrc)
      ensures hud == HudLayout(old(hud), variant, bmpDest, bmpSrc, numW, numH, checkW)
    {
      FillBackground();
      var buf := 0;
      while buf < Buffers
        invariant 0 <= buf <= Buffers
        invariant forall b :: 0 <= b < buf ==> slots[b] == Slot(true, zRect, bmpDest, bmpSrc)
        invariant trace == old(trace) + FillBuffers(2, features.bitblt, zRect, bmpDest, bmpSrc)
        invariant hud == old(hud)
      {
        slots[buf] := Slot(true, zRect, bmpDest, bmpSrc);
        buf := buf + 1;
      }
      var fr := FrameRateArea(numW, numH);
      var bltFr := FrameRateOnBitmap(bmpDest, fr);
      var frSrc := hud.frSrc;
      if bltFr {
        frSrc := FrameRateSource(bmpSrc, numW, numH);
      }
      var (lDest, lSrc) := LeftColumn(bmpDest, bmpSrc, MarkXL(variant), checkW);
      var bltR := RightColumnOnBitmap(bmpDest, MarkXR(variant));
      var (rDest, rSrc) := RightColumn(bmpDest, bmpSrc, MarkXR(variant), checkW);
      hud := Hud(fr, frSrc, bltFr, lDest, lSrc, rDest, rSrc, bltR);
    }

    /**
     * The tail of transformObject, given the transformed vertices' integer
     * screen positions: the current back buffer's slot gets the new split,
     * the other slot keeps the one from the frame before.
     */
    method TransformObject(xs: seq<int>, ys: seq<int>)
      requires Valid() && |xs| == |ys|
      modifies slots
      ensures slots[backBuffer] == Split(old(slots[backBuffer]), ClippedBox(xs, ys, width, height), bmpDest)
      ensures slots[1 - backBuffer] == old(slots[1 - backBuffer])
    {
      var box := ObjectBox(xs, ys, width, height);
      var top, left, bottom, right := box.top, box.left, box.bottom, box.right;
      var b := backBuffer;
      if top < bmpDest.top || bottom > bmpDest.bottom || left < bmpDest.left || right > bmpDest.right {
        slots[b] := slots[b].(fill := true, fillRect := Rect(top, left, bottom, right));
        slots[b] := slots[b].(bmpDest := Rect(if top < bmpDest.top then bmpDest.top else top,
                                              if left < bmpDest.left then bmpDest.left else left,
                                              if bottom > bmpDest.bottom then bmpDest.bottom else bottom,
                                              if right > bmpDest.right then bmpDest.right else right));
      } else {
        slots[b] := slots[b].(fill := false, bmpDest := Rect(top, left, bottom, right));
      }
      var d := slots[b].bmpDest;
      slots[b] := slots[b].(bmpSrc := Rect(d.top - bmpDest.top, d.left - bmpDest.left,
                                           d.bottom - bmpDest.top, d.right - bmpDest.left));
    }

    /** drawObject: transform, then draw the triangle list. */
    method DrawObject(xs: seq<int>, ys: seq<int>)
      requires Valid() && |xs| == |ys|
      modifies slots, this`trace
      ensures slots[backBuffer] == Split(old(slots[backBuffer]), ClippedBox(xs, ys, width, height), bmpDest)
      ensures slots[1 - backBuffer] == old(slots[1 - backBuffer])
      ensures trace == old(trace) + [TriangleSet(listLength, triMode)]
    {
      TransformObject(xs, ys);
      trace := trace + [TriangleSet(listLength, triMode)];
    }

    /**
     * initObject, for the start-up pose's integer screen positions: the
     * rotation is stopped, the object transformed once, and the z buffer and
     * shading set up.
     */
    method InitObject(xs: seq<int>, ys: seq<int>)
      requires Valid() && |xs| == |ys|
      modifies slots, this`trace, this`view
      ensures view == old(view).(angleX := 0, angleY := 0, angleZ := 0)
      ensures slots[backBuffer] == Split(old(slots[backBuffer]), ClippedBox(xs, ys, width, height), bmpDest)
      ensures slots[1 - backBuffer] == old(slots[1 - backBuffer])
      ensures trace == old(trace) +
                       [SetState(ZBufferSurface, SurfaceOf(ZBuffer)), SetState(ZBufferCompareMode, ZSrcLsZfb)] +
                       (if features.texture then SetupTextureCmds(features, mipLevels)
                        else [SetState(RenderingType, Gouraud)])
    {
      view := view.(angleX := 0, angleY := 0, angleZ := 0);
      TransformObject(xs, ys);
      trace := trace + [SetState(ZBufferSurface, SurfaceOf(ZBuffer))];
      trace := trace + [SetState(ZBufferCompareMode, ZSrcLsZfb)];
      if features.texture {
        SetupTexture();
      } else {
        trace := trace + [SetState(RenderingType, Gouraud)];
      }
    }

    /**
     * updateScreen, for this frame's integer vertex positions and clock
     * reading; the wait for the previous flip is not modelled.
     */
    method UpdateScreen(xs: seq<int>, ys: seq<int>, now: int)
      requires Valid() && |xs| == |ys|
      modifies slots, this`trace, this`frameCount, this`frames, this`start, this`backBuffer
      ensures Valid()
      ensures backBuffer == 1 - old(backBuffer)
      ensures slots[old(backBuffer)] == Split(old(slots[backBuffer]), ClippedBox(xs, ys, width, height), bmpDest)
      ensures slots[backBuffer] == old(slots[1 - backBuffer])
      ensures CounterNow() == CounterStep(old(CounterNow()), now, clkTck).0
      ensures trace == old(trace) + RenderCmds(old(slots[backBuffer]), old(backBuffer)) +
                       RateCmds(CounterStep(old(CounterNow()), now, clkTck).1 && features.frameRate,
                                frames, numW, numH, old(backBuffer)) +
                       PresentCmds(variant, old(backBuffer))
    {
      Render(xs, ys);
      DisplayFrameRate(now);
      Present();
    }

    /** The end of updateScreen: show the finished back buffer and swap the buffers' roles. */
    method Present()
      requires Valid()
      modifies this`trace, this`backBuffer
      ensures Valid() && backBuffer == 1 - old(backBuffer)
      ensures trace == old(trace) + PresentCmds(variant, old(backBuffer))
    {
      if variant == Example {
        trace := trace + [SetState(DisplaySurface, SurfaceOf(Display(backBuffer)))];
      } else {
        trace := trace + [Flip];
      }
      backBuffer := 1 - backBuffer;
    }

    /**
     * The toolkit calls of one frame up to the frame-rate digits, for the
     * back buffer `bb` whose slot was `s`: clear the z buffer, repaint the
     * background, select the buffer, enable the z buffer, draw the object.
     */
    function RenderCmds(s: Slot, bb: int): seq<Cmd>
      reads this`features, this`hud, this`zRect, this`bmpDest, this`checkW, this`checkH
    {
      [RectFill(ZBuffer, zRect, ZClear)] +
      RepaintCmds(features, variant, hud, s, zRect, bmpDest, checkW, checkH, bb) +
      [SetState(DrawSurface, SurfaceOf(Display(bb))), SetState(ZBufferEnable, Word(1)),
       TriangleSet(listLength, triMode)]
    }

    /** The first part of updateScreen: everything before the frame-rate digits. */
    method Render(xs: seq<int>, ys: seq<int>)
      requires Valid() && |xs| == |ys|
      modifies slots, this`trace
      ensures slots[backBuffer] == Split(old(slots[backBuffer]), ClippedBox(xs, ys, width, height), bmpDest)
      ensures slots[1 - backBuffer] == old(slots[1 - backBuffer])
      ensures trace == old(trace) + RenderCmds(old(slots[backBuffer]), backBuffer)
    {
      var bb := backBuffer;
      ghost var t0 := trace;
      ghost var slot := slots[bb];
      trace := trace + [RectFill(ZBuffer, zRect, ZClear)];
      ghost var done := [RectFill(ZBuffer, zRect, ZClear)];
      ghost var part := RepaintCmds(features, variant, hud, slot, zRect, bmpDest, checkW, checkH, bb);
      Repaint();
      Associative(t0, done, part);
      done := done + part;
      part := [SetState(DrawSurface, SurfaceOf(Display(bb))), SetState(ZBufferEnable, Word(1)),
               TriangleSet(listLength, triMode)];
      ghost var t1 := trace;
      trace := trace + [SetState(DrawSurface, SurfaceOf(Display(bb)))];
      trace := trace + [SetState(ZBufferEnable, Word(1))];
      DrawObject(xs, ys);
      assert trace == t1 + part;
      Associative(t0, done, part);
    }

    /** The background repaint of updateScreen. */
    method Repaint()
      requires Valid()
      modifies this`trace
      ensures trace == old(trace) + RepaintCmds(features, variant, hud, slots[backBuffer], zRect, bmpDest,
                                                checkW, checkH, backBuffer)
    {
      if features.bitblt {
        ghost var t0 := trace;
        PaintFrameRateArea();
        PaintColumns();
        PaintSlot();
        DisplayOptionStatus();
        Associative4(t0, FrameRatePatch(hud, backBuffer), ColumnPatch(hud, backBuffer), SlotPatch(slots[backBuffer], backBuffer),
                     OptionStatusCmds(features, variant, bmpDest, checkW, checkH, backBuffer));
      } else {
        trace := trace + [RectFill(Display(backBuffer), zRect, BgColour)];
      }
    }

    /** The frame-rate area of the back buffer, from the bitmap or cleared. */
    method PaintFrameRateArea()
      modifies this`trace
      ensures trace == old(trace) + FrameRatePatch(hud, backBuffer)
    {
      if hud.bltFr {
        trace := trace + [BitBlt(Display(backBuffer), hud.frDest, BmpSurf, hud.frSrc)];
      } else {
        trace := trace + [RectFill(Display(backBuffer), hud.frDest, BgColour)];
      }
    }

    /** The checkmark columns of the back buffer, from the bitmap. */
    method PaintColumns()
      modifies this`trace
      ensures trace == old(trace) + ColumnPatch(hud, backBuffer)
    {
      trace := trace + [BitBlt(Display(backBuffer), hud.lDest, BmpSurf, hud.lSrc)];
      if hud.bltR {
        trace := trace + [BitBlt(Display(backBuffer), hud.rDest, BmpSurf, hud.rSrc)];
      }
    }

    /** Where the object was in the back buffer: the fill off the bitmap if needed, then the bitmap. */
    method PaintSlot()
      requires Valid()
      modifies this`trace
      ensures trace == old(trace) + SlotPatch(slots[backBuffer], backBuffer)
    {
      var s := slots[backBuffer];
      if s.fill {
        trace := trace + [RectFill(Display(backBuffer), s.fillRect, BgColour)];
      }
      trace := trace + [BitBlt(Display(backBuffer), s.bmpDest, BmpSurf, s.bmpSrc)];
    }
  }

  lemma Associative4(t: seq<Cmd>, a: seq<Cmd>, b: seq<Cmd>, c: seq<Cmd>, d: seq<Cmd>)
    ensures t + a + b + c + d == t + (a + b + c + d)
  {
    Associative(t, a, b);
    Associative(t, a + b, c);
    Associative(t, a + b + c, d);
  }
}
