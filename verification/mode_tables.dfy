/**
 * Video-mode tables of the DOS front end (SAMPLES/CUBE/WC/STEREO/DOSMAIN.C).
 *
 * Each table is a switch on the low twelve bits of a VESA/VGA mode number
 * (`0x0FFF & wMode`); every mode the switch does not list falls back to a
 * 640x480, one-byte-per-pixel screen.  Mode numbers are natural numbers here,
 * and `mode % 0x1000` is the same number as `0x0FFF & mode`.
 */
module ModeTables {

  /** The default mode of the samples, 640x480 with 15-bit colour. */
  const DefaultMode: nat := 0x110

  /** The part of a mode number the tables look at. */
  function ModeKey(mode: nat): (k: nat)
    ensures k < 0x1000
    ensures mode < 0x1000 ==> k == mode
  {
    mode % 0x1000
  }

  function ScreenWidth(mode: nat): (w: int)
    ensures w in {320, 512, 640, 800, 1024, 1200}
    ensures ModeKey(mode) !in ListedWidthModes() ==> w == 640
  {
    var k := ModeKey(mode);
    if k in {0x215, 0x216} then 512
    else if k in {0x13, 0x10D, 0x10E, 0x10F} then 320
    else if k == 0x100 then 640
    else if k in {0x101, 0x110, 0x111, 0x112} then 640
    else if k in {0x103, 0x113, 0x114, 0x115} then 800
    else if k in {0x105, 0x116, 0x117, 0x118} then 1024
    else if k in {0x107, 0x119, 0x11A, 0x11B} then 1200
    else 640
  }

  function ScreenHeight(mode: nat): (h: int)
    ensures h in {200, 384, 400, 480, 600, 768, 1024}
    ensures ModeKey(mode) !in ListedWidthModes() ==> h == 480
  {
    var k := ModeKey(mode);
    if k in {0x215, 0x216} then 384
    else if k in {0x13, 0x10D, 0x10E, 0x10F} then 200
    else if k == 0x100 then 400
    else if k in {0x101, 0x110, 0x111, 0x112} then 480
    else if k in {0x103, 0x113, 0x114, 0x115} then 600
    else if k in {0x105, 0x116, 0x117, 0x118} then 768
    else if k in {0x107, 0x119, 0x11A, 0x11B} then 1024
    else 480
  }

  function ScreenBpp(mode: nat): (b: int)
    ensures b in {1, 2, 3}
    ensures ModeKey(mode) !in ListedBppModes() ==> b == 1
  {
    var k := ModeKey(mode);
    if k in {0x13, 0x100, 0x101, 0x103, 0x105, 0x107, 0x215} then 1
    else if k in {0x10D, 0x10E, 0x110, 0x111, 0x113, 0x114, 0x116, 0x117, 0x119, 0x11A, 0x216} then 2
    else if k in {0x10F, 0x112, 0x115, 0x11F, 0x11B} then 3
    else 1
  }

  /** The mode keys the width and height switches list (the same cases in both). */
  function ListedWidthModes(): set<nat>
  {
    {0x215, 0x216, 0x13, 0x10D, 0x10E, 0x10F, 0x100, 0x101, 0x110, 0x111, 0x112,
     0x103, 0x113, 0x114, 0x115, 0x105, 0x116, 0x117, 0x118, 0x107, 0x119, 0x11A, 0x11B}
  }

  /** The mode keys the bytes-per-pixel switch lists. */
  function ListedBppModes(): set<nat>
  {
    {0x13, 0x100, 0x101, 0x103, 0x105, 0x107, 0x215,
     0x10D, 0x10E, 0x110, 0x111, 0x113, 0x114, 0x116, 0x117, 0x119, 0x11A, 0x216,
     0x10F, 0x112, 0x115, 0x11F, 0x11B}
  }

  /** The tables ignore every bit of the mode above the low twelve. */
  lemma HighBitsIgnored(mode: nat, high: nat)
    ensures ScreenWidth(mode + high * 0x1000) == ScreenWidth(mode)
    ensures ScreenHeight(mode + high * 0x1000) == ScreenHeight(mode)
    ensures ScreenBpp(mode + high * 0x1000) == ScreenBpp(mode)
  {
    assert ModeKey(mode + high * 0x1000) == ModeKey(mode) by {
      ModAddPages(mode, high);
    }
  }

  lemma {:induction false} ModAddPages(a: nat, k: nat)
    ensures (a + k * 0x1000) % 0x1000 == a % 0x1000
  {
    if k > 0 {
      ModAddPages(a, k - 1);
      var b := a + (k - 1) * 0x1000;
      assert a + k * 0x1000 == b + 0x1000;
    }
  }

  /** The default mode is 640x480 at two bytes per pixel. */
  lemma DefaultModeIs640x480x2()
    ensures ScreenWidth(DefaultMode) == 640
    ensures ScreenHeight(DefaultMode) == 480
    ensures ScreenBpp(DefaultMode) == 2
  {
  }

  /**
   * Mode 0x11F is listed only by the bytes-per-pixel switch, so it reports a
   * 24-bit depth at the fallback 640x480 size.
   */
  lemma Mode11FIsOnlyInBppTable()
    ensures 0x11F !in ListedWidthModes() && 0x11F in ListedBppModes()
    ensures ScreenWidth(0x11F) == 640 && ScreenHeight(0x11F) == 480 && ScreenBpp(0x11F) == 3
  {
  }

  /** Width and height switches are the same partition of mode keys. */
  lemma WidthAndHeightAgreeOnFallback(mode: nat)
    ensures ScreenWidth(mode) == 640 && ScreenHeight(mode) == 480 <==>
            ModeKey(mode) in {0x101, 0x110, 0x111, 0x112} || ModeKey(mode) !in ListedWidthModes()
  {
  }
}
