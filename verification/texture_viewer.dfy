/**
 * The texture viewer, SAMPLES/SHOWTEXT.C: one texture drawn as a rectangle
 * of two triangles in a fan.  For a mipmapped texture the arrow keys step
 * through the levels, which the texture file stores one after another,
 * each half the width of the one before (the texture is square, its width
 * a power of two).  The globals the key handler and the screen update
 * change are the fields of one `Viewer` object; every toolkit call is
 * appended to `trace`.
 *
 * The vertex coordinates are floats in C that only ever hold whole
 * numbers; here they are integers.
 */
module TextureViewer {
  import opened Toolkit
  import opened SurfaceAlloc
  import opened SampleApp

  /** The S3DTK_VERTEX_TEX fields the viewer sets: screen X, Y, Z and texel U, V. */
  datatype Vertex = Vertex(x: int, y: int, z: int, u: int, v: int)

  /** LISTLENGTH: NUMTRIANGLE + 2 vertices make a fan of two triangles. */
  const ListLength: nat := 2 + 2

  /**
   * The rectangle initObject builds, `w` texels wide and `h` high, corners
   * clockwise from the top left; each corner maps the texel under it, at depth 0.
   */
  function Corners(w: int, h: int): (vs: seq<Vertex>)
    ensures |vs| == ListLength
    ensures forall i :: 0 <= i < |vs| ==> vs[i].u == vs[i].x && vs[i].v == vs[i].y && vs[i].z == 0
    ensures vs[0].x == 0 && vs[0].y == 0 && vs[2].x == w - 1 && vs[2].y == h - 1
    ensures vs[1].x == vs[2].x && vs[1].y == vs[0].y && vs[3].x == vs[0].x && vs[3].y == vs[2].y
  {
    [Vertex(0, 0, 0, 0, 0), Vertex(w - 1, 0, 0, w - 1, 0), Vertex(w - 1, h - 1, 0, w - 1, h - 1),
     Vertex(0, h - 1, 0, 0, h - 1)]
  }

  /**
   * The fields nextLevel and previousLevel rewrite for a level `w` texels
   * wide: X and U of the right-hand corners, Y and V of the bottom ones.
   */
  function Resized(vs: seq<Vertex>, w: int): (r: seq<Vertex>)
    requires |vs| == ListLength
    ensures |r| == ListLength && r[0] == vs[0]
  {
    vs[1 := vs[1].(x := w - 1, u := w - 1)]
      [2 := vs[2].(x := w - 1, u := w - 1, y := w - 1, v := w - 1)]
      [3 := vs[3].(y := w - 1, v := w - 1)]
  }

  /** Resizing the rectangle makes it the square of the new level, whatever its height was. */
  lemma ResizedCorners(w: int, h: int, w': int)
    ensures Resized(Corners(w, h), w') == Corners(w', w')
  {
  }

  /** nextLevel on (sfWidth, sfOffset): the next level is half as wide and starts after this level's texels. */
  function NextLevelOf(w: nat, offset: nat, bpp: nat): (nat, nat)
  {
    (w / 2, offset + w * w * bpp)
  }

  /** previousLevel on (sfWidth, sfOffset): the level before is twice as wide and ends where this one starts. */
  function PrevLevelOf(w: nat, offset: nat, bpp: nat): (nat, nat)
    requires (2 * w) * (2 * w) * bpp <= offset
  {
    (2 * w, offset - (2 * w) * (2 * w) * bpp)
  }

  /** For an even width, previousLevel undoes nextLevel. */
  lemma PrevUndoesNext(w: nat, offset: nat, bpp: nat)
    requires w % 2 == 0
    ensures var (w', o') := NextLevelOf(w, offset, bpp);
            (2 * w') * (2 * w') * bpp <= o' && PrevLevelOf(w', o', bpp) == (w, offset)
  {
    assert 2 * (w / 2) == w;
  }

  /** nextLevel always undoes previousLevel. */
  lemma NextUndoesPrev(w: nat, offset: nat, bpp: nat)
    requires (2 * w) * (2 * w) * bpp <= offset
    ensures var (w', o') := PrevLevelOf(w, offset, bpp);
            NextLevelOf(w', o', bpp) == (w, offset)
  {
  }

  /** Width and offset of mip level `n` of a texture whose level 0 is `w0` wide at `offset0`. */
  function Level(w0: nat, offset0: nat, bpp: nat, n: nat): (r: (nat, nat))
    ensures r.1 >= offset0
  {
    if n == 0 then (w0, offset0)
    else
      var (w, o) := Level(w0, offset0, bpp, n - 1);
      NextLevelOf(w, o, bpp)
  }

  /** Every level but the last has an even width, as a square power-of-two texture has. */
  predicate EvenLevels(w0: nat, offset0: nat, bpp: nat, mipLevels: nat)
  {
    forall n: nat :: n + 1 < mipLevels ==> Level(w0, offset0, bpp, n).0 % 2 == 0
  }

  /** Stepping back from level n + 1 lands on level n when level n's width is even. */
  lemma LevelBack(w0: nat, offset0: nat, bpp: nat, n: nat)
    requires Level(w0, offset0, bpp, n).0 % 2 == 0
    ensures var (w, o) := Level(w0, offset0, bpp, n + 1);
            (2 * w) * (2 * w) * bpp <= o && PrevLevelOf(w, o, bpp) == Level(w0, offset0, bpp, n)
  {
    var (w, o) := Level(w0, offset0, bpp, n);
    PrevUndoesNext(w, o, bpp);
  }

  /** The display level after a key: UP and LEFT go one level smaller, DOWN and RIGHT one larger, within the levels there are. */
  function LevelAfterKey(level: nat, mipLevels: nat, k: Key): nat
  {
    if (k == Up || k == Left) && mipLevels != 0 && level < mipLevels - 1 then level + 1
    else if (k == Down || k == Right) && mipLevels != 0 && level > 0 then level - 1
    else level
  }

  /** The display level stays a level of the texture, and stays 0 for a texture without mipmaps. */
  lemma LevelAfterKeyInRange(level: nat, mipLevels: nat, k: Key)
    ensures mipLevels > 0 && level < mipLevels ==> LevelAfterKey(level, mipLevels, k) < mipLevels
    ensures mipLevels == 0 ==> LevelAfterKey(level, mipLevels, k) == level
    ensures LevelAfterKey(level, mipLevels, k) in {level - 1, level, level + 1}
  {
  }

  /** A step up and a step down cancel whenever the first step moves. */
  lemma UpThenDown(level: nat, mipLevels: nat)
    ensures LevelAfterKey(level, mipLevels, Up) != level ==>
              LevelAfterKey(LevelAfterKey(level, mipLevels, Up), mipLevels, Down) == level
    ensures LevelAfterKey(level, mipLevels, Down) != level && level < mipLevels ==>
              LevelAfterKey(LevelAfterKey(level, mipLevels, Down), mipLevels, Up) == level
  {
  }

  /** The toolkit calls of one drawn frame: clear the screen, set up texturing, draw the fan, show the frame. */
  function FrameCmds(screenWidth: int, screenHeight: int): (cmds: seq<Cmd>)
    ensures |cmds| == 8 && cmds[0].RectFill? && cmds[6] == TriangleSet(ListLength, TriFan)
  {
    [RectFill(Display(0), Rect(0, 0, screenHeight, screenWidth), 0),
     SetState(DrawSurface, SurfaceOf(Display(0))),
     SetState(RenderingType, UnlitTexture),
     SetState(TexFilteringMode, Tex1TPP),
     SetState(TexBlendingMode, TexModulate),
     SetState(TextureActive, SurfaceOf(TextureSurf)),
     TriangleSet(ListLength, TriFan),
     SetState(DisplaySurface, SurfaceOf(Display(0)))]
  }

  /** After a frame, the toolkit draws unlit, point-sampled, modulated texture from the texture surface into display surface 0. */
  lemma FrameState(t: seq<Cmd>, screenWidth: int, screenHeight: int)
    ensures LastState(t + FrameCmds(screenWidth, screenHeight), DrawSurface) == Some(SurfaceOf(Display(0)))
    ensures LastState(t + FrameCmds(screenWidth, screenHeight), RenderingType) == Some(UnlitTexture)
    ensures LastState(t + FrameCmds(screenWidth, screenHeight), TexFilteringMode) == Some(Tex1TPP)
    ensures LastState(t + FrameCmds(screenWidth, screenHeight), TexBlendingMode) == Some(TexModulate)
    ensures LastState(t + FrameCmds(screenWidth, screenHeight), TextureActive) == Some(SurfaceOf(TextureSurf))
    ensures LastState(t + FrameCmds(screenWidth, screenHeight), DisplaySurface) == Some(SurfaceOf(Display(0)))
  {
    var f := FrameCmds(screenWidth, screenHeight);
    LastStateSetBy(t, f, 1, DrawSurface);
    LastStateSetBy(t, f, 2, RenderingType);
    LastStateSetBy(t, f, 3, TexFilteringMode);
    LastStateSetBy(t, f, 4, TexBlendingMode);
    LastStateSetBy(t, f, 5, TextureActive);
    LastStateSetBy(t, f, 7, DisplaySurface);
  }

  /** updateScreen on (bUpdateScreen, trace): draw a frame and clear the flag only when it is set. */
  function ScreenAfter(pending: bool, trace: seq<Cmd>, frame: seq<Cmd>): (bool, seq<Cmd>)
  {
    if pending then (false, trace + frame) else (pending, trace)
  }

  /** Two updates with nothing in between draw once: the second finds the flag clear. */
  lemma ScreenAfterTwice(pending: bool, trace: seq<Cmd>, frame: seq<Cmd>)
    ensures var (p, t) := ScreenAfter(pending, trace, frame);
            ScreenAfter(p, t, frame) == (p, t) && !p
  {
  }

  class Viewer {
    /** (int)width and (int)height of the screen. */
    const screenWidth: int
    const screenHeight: int
    const mipLevels: nat
    const textureBpp: nat
    /** textureSurf: sfWidth and sfOffset change with the level shown, sfHeight never does. */
    var texWidth: nat
    const texHeight: nat
    var texOffset: nat
    var displayLevel: nat
    /** s3dObjVtxList */
    const vertices: array<Vertex>
    /** s3dObjTriList, as indices into `vertices` */
    const triList: array<nat>
    /** bUpdateScreen */
    var updatePending: bool
    var trace: seq<Cmd>
    /** Width and offset of the texture's level 0. */
    ghost const width0: nat
    ghost const offset0: nat

    /**
     * The level shown stays a level of the texture; the surface is that
     * level; the rectangle covers it (a square for a mipmapped texture);
     * the fan visits the corners in order.
     */
    ghost predicate Valid()
      reads this, vertices, triList
    {
      vertices.Length == ListLength && triList.Length == ListLength &&
      (mipLevels > 0 ==> displayLevel < mipLevels) && (mipLevels == 0 ==> displayLevel == 0) &&
      EvenLevels(width0, offset0, textureBpp, mipLevels) &&
      (texWidth, texOffset) == Level(width0, offset0, textureBpp, displayLevel) &&
      vertices[..] == Corners(texWidth, if mipLevels > 0 then texWidth else texHeight) &&
      triList[..] == [0, 1, 2, 3]
    }

    /**
     * initObject, on the texture surface LoadTexture produced: the corners
     * of the texture (of its level 0 when it has mipmaps), the fan in
     * corner order, level 0 shown, a frame still to draw.
     */
    constructor (screenWidth: int, screenHeight: int, texture: Surface, mipLevels: nat, textureBpp: nat)
      requires EvenLevels(texture.width, texture.offset, textureBpp, mipLevels)
      ensures Valid()
      ensures this.screenWidth == screenWidth && this.screenHeight == screenHeight
      ensures this.mipLevels == mipLevels && this.textureBpp == textureBpp
      ensures texWidth == texture.width && texHeight == texture.height && texOffset == texture.offset
      ensures displayLevel == 0 && updatePending && trace == []
      ensures fresh(vertices) && fresh(triList)
    {
      var list := new nat[ListLength];
      var i := 0;
      while i < ListLength
        invariant 0 <= i <= ListLength
        invariant forall j :: 0 <= j < i ==> list[j] == j
      {
        list[i] := i;
        i := i + 1;
      }
      assert list[..] == [0, 1, 2, 3];
      var h := if mipLevels > 0 then texture.width else texture.height;
      var corners := Corners(texture.width, h);
      var vs := new Vertex[ListLength](j requires 0 <= j < ListLength => corners[j]);
      assert vs[..] == corners;
      this.screenWidth := screenWidth;
      this.screenHeight := screenHeight;
      this.mipLevels := mipLevels;
      this.textureBpp := textureBpp;
      texWidth := texture.width;
      texHeight := texture.height;
      texOffset := texture.offset;
      width0 := texture.width;
      offset0 := texture.offset;
      updatePending := true;
      trace := [];
      vertices := vs;
      triList := list;
      displayLevel := 0;
    }

    /** nextLevel: show the next, half-size level; the rectangle shrinks with it. */
    method NextLevel()
      requires vertices.Length == ListLength
      modifies this`texWidth, this`texOffset, vertices
      ensures (texWidth, texOffset) == NextLevelOf(old(texWidth), old(texOffset), textureBpp)
      ensures vertices[..] == Resized(old(vertices[..]), texWidth)
    {
      var textureSize := texWidth * texWidth * textureBpp;
      texWidth := texWidth / 2;
      texOffset := texOffset + textureSize;
      SetRightAndBottom(texWidth);
    }

    /** previousLevel: show the level before, twice the size; the rectangle grows with it. */
    method PreviousLevel()
      requires vertices.Length == ListLength
      requires (2 * texWidth) * (2 * texWidth) * textureBpp <= texOffset
      modifies this`texWidth, this`texOffset, vertices
      ensures (texWidth, texOffset) == PrevLevelOf(old(texWidth), old(texOffset), textureBpp)
      ensures vertices[..] == Resized(old(vertices[..]), texWidth)
    {
      texWidth := texWidth * 2;
      var textureSize := texWidth * texWidth * textureBpp;
      texOffset := texOffset - textureSize;
      SetRightAndBottom(texWidth);
    }

    /** The vertex updates nextLevel and previousLevel share. */
    method SetRightAndBottom(w: nat)
      requires vertices.Length == ListLength
      modifies vertices
      ensures vertices[..] == Resized(old(vertices[..]), w)
    {
      vertices[1] := vertices[1].(x := w - 1, u := w - 1);
      vertices[2] := vertices[2].(x := w - 1, u := w - 1, y := w - 1, v := w - 1);
      vertices[3] := vertices[3].(y := w - 1, v := w - 1);
    }

    /** updateScreen: when a frame is due, draw it and mark the screen up to date. */
    method UpdateScreen()
      modifies this`updatePending, this`trace
      ensures (updatePending, trace) == ScreenAfter(old(updatePending), old(trace), FrameCmds(screenWidth, screenHeight))
    {
      if !updatePending {
        return;
      }
      trace := trace + FrameCmds(screenWidth, screenHeight);
      updatePending := false;
    }

    /**
     * processKey: a key that moves to another level shows it and draws a
     * frame at once; any other key changes nothing.
     */
    method ProcessKey(k: Key)
      requires Valid()
      modifies this`texWidth, this`texOffset, this`displayLevel, vertices, this`updatePending, this`trace
      ensures Valid()
      ensures displayLevel == LevelAfterKey(old(displayLevel), mipLevels, k)
      ensures displayLevel != old(displayLevel) ==> trace == old(trace) + FrameCmds(screenWidth, screenHeight) &&
                                                    !updatePending
      ensures displayLevel == old(displayLevel) ==> trace == old(trace) && updatePending == old(updatePending)
    {
      if k == Up || k == Left {
        if mipLevels != 0 && displayLevel < mipLevels - 1 {
          displayLevel := displayLevel + 1;
          ResizedCorners(texWidth, texWidth, texWidth / 2);
          NextLevel();
          updatePending := true;
          UpdateScreen();
        }
      } else if k == Down || k == Right {
        if mipLevels != 0 && displayLevel > 0 {
          displayLevel := displayLevel - 1;
          LevelBack(width0, offset0, textureBpp, displayLevel);
          ResizedCorners(texWidth, texWidth, 2 * texWidth);
          PreviousLevel();
          updatePending := true;
          UpdateScreen();
        }
      }
    }
  }
}
