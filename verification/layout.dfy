/**
 * Integer rectangle arithmetic of the cube samples (SAMPLES/EXAMPLE.C and its
 * overlay twin SAMPLES/STRETCH.C): centring the background bitmap, the
 * heads-up rectangles for the frame-rate digits and the option checkmarks,
 * the object's clipped screen bounding box, and its split into a part to
 * fill with the background colour and a part to repaint from the bitmap.
 *
 * Screen coordinates of the transformed vertices arrive here already
 * truncated to integers (the C code's `(int)` casts); the floating-point
 * transform that produces them is not part of this model.
 */
module Layout {
  import opened Toolkit

  // ---------------------------------------------------------------------
  // Centring the background bitmap (initMemoryBuffer)
  // ---------------------------------------------------------------------

  /** One axis of the centring block: destination and source interval. */
  datatype Span = Span(destLo: int, destHi: int, srcLo: int, srcHi: int)

  /**
   * A bitmap at least as wide as the screen is shown from its left edge and
   * cropped to the screen; a narrower one is copied whole, centred.
   */
  function CentreAxis(screen: nat, bmp: nat): (s: Span)
    ensures s.destHi - s.destLo == s.srcHi - s.srcLo
    ensures s.srcLo == 0 && s.srcHi <= bmp
    ensures 0 <= s.destLo <= s.destHi <= screen
    ensures bmp >= screen ==> s.destLo == 0 && s.destHi == screen
    ensures bmp < screen ==> s.srcHi == bmp && s.destLo == (screen - bmp) / 2
    ensures bmp < screen ==> (screen - s.destHi) - s.destLo in {0, 1}
  {
    if bmp >= screen then Span(0, screen, 0, screen)
    else
      var lo := (screen - bmp) / 2;
      Span(lo, lo + bmp, 0, bmp)
  }

  /** bmpDestRect and bmpSrcRect from the screen size and the bitmap size. */
  function CentreRects(w: nat, h: nat, bmpW: nat, bmpH: nat): (r: (Rect, Rect))
    ensures r.0.Width() == r.1.Width() && r.0.Height() == r.1.Height()
    ensures r.0.Within(Rect(0, 0, h, w))
    ensures r.1.Within(Rect(0, 0, bmpH, bmpW))
  {
    var x := CentreAxis(w, bmpW);
    var y := CentreAxis(h, bmpH);
    (Rect(y.destLo, x.destLo, y.destHi, x.destHi), Rect(y.srcLo, x.srcLo, y.srcHi, x.srcHi))
  }

  /** Centring is symmetric: the margins on both sides differ by at most one pixel. */
  lemma CentredMargins(w: nat, h: nat, bmpW: nat, bmpH: nat)
    requires bmpW < w && bmpH < h
    ensures var d := CentreRects(w, h, bmpW, bmpH).0;
            (w - d.right) - d.left in {0, 1} && (h - d.bottom) - d.top in {0, 1} &&
            d.Width() == bmpW && d.Height() == bmpH
  {
  }

  // ---------------------------------------------------------------------
  // Heads-up rectangles (displayFrameRate, displayOptionStatus, initBackground)
  // ---------------------------------------------------------------------

  const FpsX: int := 0
  const FpsY: int := 0
  const MarkY: int := 65
  const MarkLineHt: int := 19
  /** Number of rows of the left checkmark column. */
  const LeftRows: int := 6

  /** Destination of frame-rate glyph `i` (0 hundreds, 1 tens, 2 units). */
  function GlyphDest(i: int, numW: int, numH: int): (r: Rect)
    ensures r.left == FpsX + i * numW && r.top == FpsY
    ensures r.Width() == numW && r.Height() == numH
  {
    Rect(FpsY, FpsX + i * numW, FpsY + numH, FpsX + i * numW + numW)
  }

  /** Source cell of digit `d` in the strip of ten number glyphs. */
  function GlyphSrc(d: int, numW: int, numH: int): (r: Rect)
    ensures r.left == d * numW && r.top == 0
    ensures r.Width() == numW && r.Height() == numH
  {
    Rect(0, d * numW, numH, d * numW + numW)
  }

  /** Destination of a checkmark in row `row` of the column `col` pixels right of the bitmap. */
  function MarkDest(bmpDest: Rect, col: int, row: int, checkW: int, checkH: int): (r: Rect)
    ensures r.top == bmpDest.top + MarkY + row * MarkLineHt
    ensures r.left == bmpDest.left + col
    ensures r.Width() == checkW && r.Height() == checkH
  {
    var top := bmpDest.top + MarkY + row * MarkLineHt;
    Rect(top, bmpDest.left + col, top + checkH, bmpDest.left + col + checkW)
  }

  /** The area the three frame-rate glyphs occupy. */
  function FrameRateArea(numW: int, numH: int): (r: Rect)
    ensures r.Width() == 3 * numW && r.Height() == numH
    ensures forall i :: 0 <= i < 3 ==> GlyphDest(i, numW, numH).left == r.left + i * numW
  {
    Rect(FpsY, FpsX, FpsY + numH, FpsX + numW * 3)
  }

  /** The frame-rate area is repainted from the bitmap unless it lies wholly above or left of it. */
  predicate FrameRateOnBitmap(bmpDest: Rect, fr: Rect)
  {
    !(bmpDest.top > fr.bottom || bmpDest.left > fr.right)
  }

  /** The bitmap area under the frame-rate glyphs, used only when FrameRateOnBitmap holds. */
  function FrameRateSource(bmpSrc: Rect, numW: int, numH: int): (r: Rect)
    ensures r.Width() == FrameRateArea(numW, numH).Width()
    ensures r.Height() == FrameRateArea(numW, numH).Height()
    ensures r.left == bmpSrc.left + FpsX && r.top == bmpSrc.top + FpsY
  {
    Rect(bmpSrc.top + FpsY, bmpSrc.left + FpsX, bmpSrc.top + FpsY + numH, bmpSrc.left + FpsX + numW * 3)
  }

  /**
   * The left checkmark column (six rows) as destination and source rectangles,
   * with the destination's bottom cut back to the bitmap's bottom and the
   * source's bottom cut by the same amount.
   */
  function LeftColumn(bmpDest: Rect, bmpSrc: Rect, markXL: int, checkW: int): (r: (Rect, Rect))
    ensures r.0.Width() == r.1.Width() == checkW
    ensures r.0.Height() == r.1.Height()
    ensures r.0.top == bmpDest.top + MarkY && r.0.left == bmpDest.left + markXL
    ensures r.1.top == bmpSrc.top + MarkY && r.1.left == bmpSrc.left + markXL
    ensures r.0.bottom <= bmpDest.bottom
    ensures r.0.bottom == bmpDest.bottom || r.0.Height() == MarkLineHt * LeftRows
  {
    var d := Rect(bmpDest.top + MarkY, bmpDest.left + markXL,
                  bmpDest.top + MarkY + MarkLineHt * LeftRows, bmpDest.left + markXL + checkW);
    var s := Rect(bmpSrc.top + MarkY, bmpSrc.left + markXL,
                  bmpSrc.top + MarkY + MarkLineHt * LeftRows, bmpSrc.left + markXL + checkW);
    if d.bottom > bmpDest.bottom then
      var d' := d.(bottom := bmpDest.bottom);
      (d', s.(bottom := s.top + d'.bottom - d'.top))
    else (d, s)
  }

  /**
   * The right checkmark column (one row), clamped at the bitmap's bottom and
   * right edges, with the source clamped by the same amounts.
   */
  function RightColumn(bmpDest: Rect, bmpSrc: Rect, markXR: int, checkW: int): (r: (Rect, Rect))
    ensures r.0.Width() == r.1.Width() && r.0.Height() == r.1.Height()
    ensures r.0.top == bmpDest.top + MarkY && r.0.left == bmpDest.left + markXR
    ensures r.1.top == bmpSrc.top + MarkY && r.1.left == bmpSrc.left + markXR
    ensures r.0.bottom <= bmpDest.bottom && r.0.right <= bmpDest.right
    ensures r.0.Height() <= MarkLineHt && r.0.Width() <= checkW
  {
    var d := Rect(bmpDest.top + MarkY, bmpDest.left + markXR,
                  bmpDest.top + MarkY + MarkLineHt, bmpDest.left + markXR + checkW);
    var s := Rect(bmpSrc.top + MarkY, bmpSrc.left + markXR,
                  bmpSrc.top + MarkY + MarkLineHt, bmpSrc.left + markXR + checkW);
    var (d1, s1) := if d.bottom > bmpDest.bottom then
                      var d' := d.(bottom := bmpDest.bottom);
                      (d', s.(bottom := s.top + d'.bottom - d'.top))
                    else (d, s);
    if d1.right > bmpDest.right then
      var d' := d1.(right := bmpDest.right);
      (d', s1.(right := s1.left + d'.right - d'.left))
    else (d1, s1)
  }

  /** The right column is repainted unless its left edge is past the bitmap's right edge. */
  predicate RightColumnOnBitmap(bmpDest: Rect, markXR: int)
  {
    !(bmpDest.left + markXR > bmpDest.right)
  }

  // ---------------------------------------------------------------------
  // Object bounding box (tail of transformObject)
  // ---------------------------------------------------------------------

  /** The least of `init` and the elements of `s`. */
  function Lowest(init: int, s: seq<int>): (m: int)
    ensures m <= init && forall i :: 0 <= i < |s| ==> m <= s[i]
  {
    if s == [] then init
    else
      var m := Lowest(init, s[..|s| - 1]);
      if s[|s| - 1] < m then s[|s| - 1] else m
  }

  /** The greatest of `init` and the elements of `s`. */
  function Highest(init: int, s: seq<int>): (m: int)
    ensures m >= init && forall i :: 0 <= i < |s| ==> m >= s[i]
  {
    if s == [] then init
    else
      var m := Highest(init, s[..|s| - 1]);
      if s[|s| - 1] > m then s[|s| - 1] else m
  }

  /** The least value is the seed or one of the elements, so no smaller box would do. */
  lemma {:induction false} LowestAttained(init: int, s: seq<int>)
    ensures Lowest(init, s) == init || exists i :: 0 <= i < |s| && Lowest(init, s) == s[i]
  {
    if s != [] {
      LowestAttained(init, s[..|s| - 1]);
      if Lowest(init, s) != init && Lowest(init, s) != s[|s| - 1] {
        var i :| 0 <= i < |s| - 1 && Lowest(init, s[..|s| - 1]) == s[..|s| - 1][i];
        assert Lowest(init, s) == s[i];
      }
    }
  }

  /** The greatest value is the seed or one of the elements. */
  lemma {:induction false} HighestAttained(init: int, s: seq<int>)
    ensures Highest(init, s) == init || exists i :: 0 <= i < |s| && Highest(init, s) == s[i]
  {
    if s != [] {
      HighestAttained(init, s[..|s| - 1]);
      if Highest(init, s) != init && Highest(init, s) != s[|s| - 1] {
        var i :| 0 <= i < |s| - 1 && Highest(init, s[..|s| - 1]) == s[..|s| - 1][i];
        assert Highest(init, s) == s[i];
      }
    }
  }

  /**
   * The box the C code computes: least and greatest coordinates seeded with
   * the screen's far edges, right and bottom made exclusive by adding one,
   * then clipped to the screen.
   */
  function ClippedBox(xs: seq<int>, ys: seq<int>, w: int, h: int): Rect
  {
    var left := Lowest(w, xs);
    var right := Highest(0, xs) + 1;
    var top := Lowest(h, ys);
    var bottom := Highest(0, ys) + 1;
    Rect(if top < 0 then 0 else top,
         if left < 0 then 0 else left,
         if bottom > h then h else bottom,
         if right > w then w else right)
  }

  /** With at least one vertex the clipped box is a well-formed part of the screen. */
  lemma ClippedBoxOnScreen(xs: seq<int>, ys: seq<int>, w: nat, h: nat)
    requires |xs| == |ys| > 0
    ensures var b := ClippedBox(xs, ys, w, h);
            0 <= b.left <= b.right <= w && 0 <= b.top <= b.bottom <= h
  {
    assert Lowest(w, xs) <= xs[0] <= Highest(0, xs);
    assert Lowest(h, ys) <= ys[0] <= Highest(0, ys);
  }

  /** Every vertex that lands on the screen lies inside the clipped box. */
  lemma ClippedBoxHoldsVisible(xs: seq<int>, ys: seq<int>, w: nat, h: nat, i: int)
    requires |xs| == |ys| && 0 <= i < |xs|
    requires 0 <= xs[i] < w && 0 <= ys[i] < h
    ensures ClippedBox(xs, ys, w, h).Covers(xs[i], ys[i])
  {
    assert Lowest(w, xs) <= xs[i] <= Highest(0, xs);
    assert Lowest(h, ys) <= ys[i] <= Highest(0, ys);
  }

  /**
   * Scans the transformed vertices (integer screen positions xs[i], ys[i]) for
   * the smallest screen rectangle that holds every visible vertex.
   */
  method ObjectBox(xs: seq<int>, ys: seq<int>, w: nat, h: nat) returns (box: Rect)
    requires |xs| == |ys|
    ensures box == ClippedBox(xs, ys, w, h)
  {
    var top, bottom, right, left := h, 0, 0, w;
    var i := 0;
    while i < |xs|
      invariant 0 <= i <= |xs|
      invariant left == Lowest(w, xs[..i]) && right == Highest(0, xs[..i])
      invariant top == Lowest(h, ys[..i]) && bottom == Highest(0, ys[..i])
    {
      assert xs[..i + 1][..i] == xs[..i] && ys[..i + 1][..i] == ys[..i];
      if xs[i] > right { right := xs[i]; }
      if xs[i] < left { left := xs[i]; }
      if ys[i] > bottom { bottom := ys[i]; }
      if ys[i] < top { top := ys[i]; }
      i := i + 1;
    }
    assert xs[..|xs|] == xs && ys[..|ys|] == ys;
    right := right + 1;
    bottom := bottom + 1;
    if right > w { right := w; }
    if left < 0 { left := 0; }
    if bottom > h { bottom := h; }
    if top < 0 { top := 0; }
    box := Rect(top, left, bottom, right);
  }

  // ---------------------------------------------------------------------
  // Dirty-rectangle split for one back-buffer slot
  // ---------------------------------------------------------------------

  /**
   * What a back-buffer slot remembers about the object drawn into it last:
   * whether part of it lies off the bitmap (and so needs a solid fill), the
   * rectangle to fill, the on-screen rectangle to repaint from the bitmap and
   * the matching rectangle inside the bitmap.
   */
  datatype Slot = Slot(fill: bool, fillRect: Rect, bmpDest: Rect, bmpSrc: Rect)

  /** The slot after the object's box `box` was computed, for the bitmap at `bmpDest`. */
  function Split(prev: Slot, box: Rect, bmpDest: Rect): (s: Slot)
    ensures s.fill <==> !box.Within(bmpDest)
    ensures s.fill ==> s.fillRect == box
    ensures !s.fill ==> s.fillRect == prev.fillRect && s.bmpDest == box
    // the repainted rectangle is exactly the part of the box on the bitmap
    ensures forall x, y :: s.bmpDest.Covers(x, y) <==> box.Covers(x, y) && bmpDest.Covers(x, y)
    ensures s.bmpDest.Within(bmpDest)
    ensures s.bmpSrc == s.bmpDest.Shift(-bmpDest.left, -bmpDest.top)
  {
    var fill := box.top < bmpDest.top || box.bottom > bmpDest.bottom ||
                box.left < bmpDest.left || box.right > bmpDest.right;
    var d := if fill then
               Rect(if box.top < bmpDest.top then bmpDest.top else box.top,
                    if box.left < bmpDest.left then bmpDest.left else box.left,
                    if box.bottom > bmpDest.bottom then bmpDest.bottom else box.bottom,
                    if box.right > bmpDest.right then bmpDest.right else box.right)
             else box;
    Slot(fill, if fill then box else prev.fillRect, d,
         Rect(d.top - bmpDest.top, d.left - bmpDest.left, d.bottom - bmpDest.top, d.right - bmpDest.left))
  }

  /** Together the fill (when flagged) and the bitmap repaint cover the whole object box. */
  lemma SplitCoversBox(prev: Slot, box: Rect, bmpDest: Rect, x: int, y: int)
    requires box.Covers(x, y)
    ensures var s := Split(prev, box, bmpDest);
            (s.fill && s.fillRect.Covers(x, y)) || s.bmpDest.Covers(x, y)
  {
  }

  /** The source rectangle lies inside the bitmap surface whenever bmpDest shows the whole of it. */
  lemma SplitSourceInBitmap(prev: Slot, box: Rect, bmpDest: Rect, bmpW: int, bmpH: int)
    requires bmpDest.Width() == bmpW && bmpDest.Height() == bmpH
    ensures Split(prev, box, bmpDest).bmpSrc.Within(Rect(0, 0, bmpH, bmpW))
  {
  }
}
