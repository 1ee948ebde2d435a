/**
 * The slice of the S3D toolkit interface the sample programs drive.
 *
 * The toolkit itself (blits, fills, triangle set-up, state registers) is not
 * part of this model: every call a sample makes into it is recorded as one
 * `Cmd` in a trace, in the order the sample issues it.  The rendering state
 * the toolkit holds is then the value of the last `SetState` issued for each
 * key.
 */
module Toolkit {

  datatype Option<T> = None | Some(value: T)

  /** S3DTK_RECTAREA: right and bottom edges are exclusive. */
  datatype Rect = Rect(top: int, left: int, bottom: int, right: int)
  {
    function Width(): int { right - left }
    function Height(): int { bottom - top }

    /** The rectangle moved by (dx, dy). */
    function Shift(dx: int, dy: int): (r: Rect)
      ensures r.Width() == Width() && r.Height() == Height()
      ensures r.left == left + dx && r.top == top + dy
    {
      Rect(top + dy, left + dx, bottom + dy, right + dx)
    }

    /** Every edge of this rectangle lies within `outer`'s edges. */
    predicate Within(outer: Rect)
    {
      outer.top <= top && outer.left <= left && bottom <= outer.bottom && right <= outer.right
    }

    /** The point (x, y) is drawn when this rectangle is filled. */
    predicate Covers(x: int, y: int)
    {
      left <= x < right && top <= y < bottom
    }
  }

  /** The surfaces a sample names in toolkit calls. */
  datatype Surf =
    | Display(index: int)
    | ZBuffer
    | BmpSurf
    | NumSurf
    | CheckSurf
    | TextureSurf

  /** State registers the samples set. */
  datatype StateKey =
    | FogColor
    | AlphaBlending
    | RenderingType
    | TexFilteringMode
    | TexBlendingMode
    | TextureActive
    | ZBufferSurface
    | ZBufferCompareMode
    | ZBufferEnable
    | DrawSurface
    | DisplaySurface

  /** Values the samples write into those registers. */
  datatype StateVal =
    | Word(n: int)
    | SurfaceOf(s: Surf)
    | AlphaOff | AlphaTexture
    | Gouraud | LitTexture | UnlitTexture | LitTexturePerspect | UnlitTexturePerspect
    | Tex1TPP | Tex4TPP | TexM1TPP | TexM4TPP
    | TexModulate
    | ZSrcLsZfb

  datatype TriMode = TriList | TriStrip | TriFan

  /** One call into the toolkit (or, for `Flip`, into DirectDraw). */
  datatype Cmd =
    | SetState(key: StateKey, val: StateVal)
    | RectFill(surf: Surf, rect: Rect, colour: int)
    | BitBlt(dst: Surf, dstRect: Rect, src: Surf, srcRect: Rect)
    | BitBltTransparent(dst: Surf, dstRect: Rect, src: Surf, srcRect: Rect, colourKey: int)
    | TriangleSet(count: int, mode: TriMode)
    | Flip

  /** The value register `key` holds after `trace`, if any call set it. */
  function LastState(trace: seq<Cmd>, key: StateKey): Option<StateVal>
  {
    if trace == [] then None
    else
      var c := trace[|trace| - 1];
      if c.SetState? && c.key == key then Some(c.val)
      else LastState(trace[..|trace| - 1], key)
  }

  /** Commands that set no register leave every register as it was. */
  predicate SetsNothing(cmds: seq<Cmd>, key: StateKey)
  {
    forall i :: 0 <= i < |cmds| ==> !(cmds[i].SetState? && cmds[i].key == key)
  }

  /** Register `key` after `t + u` is the last value `u` sets, else its value after `t`. */
  lemma {:induction false} LastStateAppend(t: seq<Cmd>, u: seq<Cmd>, key: StateKey)
    ensures LastState(t + u, key) == if LastState(u, key).Some? then LastState(u, key) else LastState(t, key)
  {
    if u != [] {
      assert (t + u)[..|t + u| - 1] == t + u[..|u| - 1];
      assert (t + u)[|t + u| - 1] == u[|u| - 1];
      LastStateAppend(t, u[..|u| - 1], key);
    } else {
      assert t + u == t;
    }
  }

  /** A command sequence that does not set `key` has no value for it. */
  lemma {:induction false} LastStateOfSilent(u: seq<Cmd>, key: StateKey)
    requires SetsNothing(u, key)
    ensures LastState(u, key) == None
  {
    if u != [] {
      assert SetsNothing(u[..|u| - 1], key);
      LastStateOfSilent(u[..|u| - 1], key);
    }
  }

  /** After `t + u`, register `key` holds what u[i] sets when no later command of `u` sets it. */
  lemma LastStateSetBy(t: seq<Cmd>, u: seq<Cmd>, i: int, key: StateKey)
    requires 0 <= i < |u| && u[i].SetState? && u[i].key == key
    requires SetsNothing(u[i + 1..], key)
    ensures LastState(t + u, key) == Some(u[i].val)
  {
    var head := t + u[..i + 1];
    assert t + u == head + u[i + 1..];
    assert head[..|head| - 1] == t + u[..i];
    assert head[|head| - 1] == u[i];
    LastStateAppend(head, u[i + 1..], key);
    LastStateOfSilent(u[i + 1..], key);
  }

  /** Register `key` is set by `cmds` exactly when `cmds` contains a SetState of it. */
  lemma {:induction false} LastStateSomeIff(u: seq<Cmd>, key: StateKey)
    ensures LastState(u, key).Some? <==> !SetsNothing(u, key)
  {
    if u != [] {
      LastStateSomeIff(u[..|u| - 1], key);
      if !SetsNothing(u, key) && !(u[|u| - 1].SetState? && u[|u| - 1].key == key) {
        var i :| 0 <= i < |u| && u[i].SetState? && u[i].key == key;
        assert u[..|u| - 1][i] == u[i];
      }
    }
  }
}
