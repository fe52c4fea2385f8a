/** What chroma intra prediction makes of the bytes around a block, in plain numbers: section 8.3.4 of ITU-T Rec. H.264
    read off the neighbour buffer, with every quotient rounded. */
module PredictionTheorems {
  import opened CInt
  import opened SampleTheorems
  import opened ChromaIntra

  /** p[-1, y] of plane `c` (0 for U, 1 for V). */
  function LeftOf(src: seq<byte>, c: nat, y: int): int
    requires |src| >= 34 && c <= 1 && -1 <= y < 8
  {
    src[14 - 2 * y + c]
  }

  /** p[x, -1]. */
  function TopOf(src: seq<byte>, c: nat, x: int): int
    requires |src| >= 34 && c <= 1 && -1 <= x < 8
  {
    src[18 + 2 * x + c]
  }

  lemma Borders(src: seq<byte>, c: nat, k: int)
    requires |src| >= 34 && c <= 1 && -1 <= k < 8
    ensures PlaneOf(src, c).Left(k) == LeftOf(src, c, k) && PlaneOf(src, c).Top(k) == TopOf(src, c, k)
  {
    var n := PlaneOf(src, c);
    if k >= 0 { assert n.Left(k) == n.left[k] && n.Top(k) == n.top[k]; }
  }

  /** The sample of plane `c` at (x, y) of a predicted block. */
  function PixelOf(mode: Mode, src: seq<byte>, c: nat, x: nat, y: nat): byte
    requires |src| >= 34 && c <= 1 && x < 8 && y < 8
  {
    Block(mode, src)[16 * y + 2 * x + c]
  }

  lemma PixelIsPredicted(mode: Mode, src: seq<byte>, c: nat, x: nat, y: nat)
    requires |src| >= 34 && c <= 1 && x < 8 && y < 8
    ensures PixelOf(mode, src, c, x, y) == Predict(mode, PlaneOf(src, c), x, y)
  {
    hide Block, Predict, PlaneOf;
    BlockPixel(mode, src, x, y);
  }

  // ---------------------------------------------------------------------------------------
  // Horizontal and vertical.
  // ---------------------------------------------------------------------------------------

  lemma HorzPixel(src: seq<byte>, c: nat, x: nat, y: nat)
    requires |src| >= 34 && c <= 1 && x < 8 && y < 8
    ensures PixelOf(Horz, src, c, x, y) == LeftOf(src, c, y)
  {
    hide Block;
    PixelIsPredicted(Horz, src, c, x, y);
  }

  lemma VertPixel(src: seq<byte>, c: nat, x: nat, y: nat)
    requires |src| >= 34 && c <= 1 && x < 8 && y < 8
    ensures PixelOf(Vert, src, c, x, y) == TopOf(src, c, x)
  {
    hide Block;
    PixelIsPredicted(Vert, src, c, x, y);
  }

  // ---------------------------------------------------------------------------------------
  // DC.
  // ---------------------------------------------------------------------------------------

  function LeftSum(src: seq<byte>, c: nat, from: nat): int
    requires |src| >= 34 && c <= 1 && from <= 4
  {
    LeftOf(src, c, from) + LeftOf(src, c, from + 1) + LeftOf(src, c, from + 2) + LeftOf(src, c, from + 3)
  }

  function TopSum(src: seq<byte>, c: nat, from: nat): int
    requires |src| >= 34 && c <= 1 && from <= 4
  {
    TopOf(src, c, from) + TopOf(src, c, from + 1) + TopOf(src, c, from + 2) + TopOf(src, c, from + 3)
  }

  /** `v` is the rounded mean: of the eight neighbours where both sides count, of four where one does. */
  predicate MeanOf(v: int, l: int, t: int, left: bool, top: bool) {
    if left && top then Rounds(v, l + t, 8) else if left then Rounds(v, l, 4) else if top then Rounds(v, t, 4) else v == 128
  }

  /** Bit 0 says that the upper half of the left column is available, bit 4 the lower half, bit 2 the row above. On the
      diagonal both sides count; above it only the row, below it only the column, and the other only when the first is
      missing. */
  lemma DcPixel(src: seq<byte>, ngbrAvail: nat, c: nat, x: nat, y: nat)
    requires |src| >= 34 && c <= 1 && x < 8 && y < 8
    ensures var left := if y < 4 then ngbrAvail % 2 == 1 else ngbrAvail / 16 % 2 == 1;
            var top := ngbrAvail / 4 % 2 == 1;
            var l, t := LeftSum(src, c, if y < 4 then 0 else 4), TopSum(src, c, if x < 4 then 0 else 4);
            MeanOf(PixelOf(DcMode(ngbrAvail), src, c, x, y), l, t,
                   left && !(top && x >= 4 && y < 4), top && !(left && x < 4 && y >= 4))
  {
    var mode, n := DcMode(ngbrAvail), PlaneOf(src, c);
    PixelIsPredicted(mode, src, c, x, y);
    hide Block, PixelOf;
    DcMean(n, x >= 4, y >= 4, if y >= 4 then mode.left2 else mode.left1, mode.top);
    SumsAre(src, c, if y < 4 then 0 else 4, if x < 4 then 0 else 4);
    hide DcQuadrant, MeanOf, Sum4, LeftSum, TopSum, PlaneOf;
  }

  lemma SumsAre(src: seq<byte>, c: nat, a: nat, b: nat)
    requires |src| >= 34 && c <= 1 && a <= 4 && b <= 4
    ensures Sum4(PlaneOf(src, c).left, a) == LeftSum(src, c, a) && Sum4(PlaneOf(src, c).top, b) == TopSum(src, c, b)
  {
  }

  lemma DcMean(n: Neighbours, right: bool, lower: bool, left: bool, top: bool)
    requires n.Valid()
    ensures var l, t := Sum4(n.left, if lower then 4 else 0), Sum4(n.top, if right then 4 else 0);
            MeanOf(DcQuadrant(n, right, lower, left, top), l, t,
                   left && !(top && right && !lower), top && !(left && !right && lower))
  {
    var l, t := Sum4(n.left, if lower then 4 else 0), Sum4(n.top, if right then 4 else 0);
    EighthRounds(l + t);
    QuarterRounds(l);
    QuarterRounds(t);
    hide Rounds, Shr2, Shr3, Sum4;
  }

  // ---------------------------------------------------------------------------------------
  // PLANE.
  // ---------------------------------------------------------------------------------------

  /** H and V of section 8.3.4.4. */
  function Across(src: seq<byte>, c: nat): int
    requires |src| >= 34 && c <= 1
  {
    (TopOf(src, c, 4) - TopOf(src, c, 2)) + 2 * (TopOf(src, c, 5) - TopOf(src, c, 1))
      + 3 * (TopOf(src, c, 6) - TopOf(src, c, 0)) + 4 * (TopOf(src, c, 7) - TopOf(src, c, -1))
  }

  function Down(src: seq<byte>, c: nat): int
    requires |src| >= 34 && c <= 1
  {
    (LeftOf(src, c, 4) - LeftOf(src, c, 2)) + 2 * (LeftOf(src, c, 5) - LeftOf(src, c, 1))
      + 3 * (LeftOf(src, c, 6) - LeftOf(src, c, 0)) + 4 * (LeftOf(src, c, 7) - LeftOf(src, c, -1))
  }

  /** The slopes `b` and `d` are the rounded quotients 34 H / 64 and 34 V / 64; the pixel is the rounded 32nd of the plane's
      height there, brought into 0..255. */
  lemma PlanePixelRounds(src: seq<byte>, c: nat, x: nat, y: nat) returns (b: int, d: int, height: int)
    requires |src| >= 34 && c <= 1 && x < 8 && y < 8
    ensures Rounds(b, 34 * Across(src, c), 64) && Rounds(d, 34 * Down(src, c), 64)
    ensures Rounds(height, 16 * (LeftOf(src, c, 7) + TopOf(src, c, 7)) + b * (x - 3) + d * (y - 3), 32)
    ensures Brought(PixelOf(Plane, src, c, x, y), height, 0, 255)
  {
    var n := PlaneOf(src, c);
    PixelIsPredicted(Plane, src, c, x, y);
    hide Block, PixelOf;
    SlopesAre(src, c);
    Borders(src, c, 7);
    b, d := PlaneSlope(HSum(n, 4)), PlaneSlope(VSum(n, 4));
    SlopeRounds(HSum(n, 4));
    SlopeRounds(VSum(n, 4));
    var sum := PlaneA(n) + b * (x - 3) + d * (y - 3);
    height := Shr5(sum + 16);
    HeightRounds(sum);
    ClipIsBrought(height);
    hide Rounds, Brought, PlaneSlope, HSum, VSum, Shr5, ClipU8, Across, Down, PlaneOf;
  }

  lemma SlopeRounds(sum: int)
    ensures Rounds(PlaneSlope(sum), 34 * sum, 64)
  {
  }

  lemma HeightRounds(sum: int)
    ensures Rounds(Shr5(sum + 16), sum, 32)
  {
  }

  lemma ClipIsBrought(x: int)
    ensures Brought(ClipU8(x), x, 0, 255)
  {
  }

  lemma SlopesAre(src: seq<byte>, c: nat)
    requires |src| >= 34 && c <= 1
    ensures HSum(PlaneOf(src, c), 4) == Across(src, c) && VSum(PlaneOf(src, c), 4) == Down(src, c)
  {
    var n := PlaneOf(src, c);
    hide PlaneOf;
    FourTerms(n);
    Borders(src, c, -1);
    Borders(src, c, 0);
    Borders(src, c, 1);
    Borders(src, c, 2);
    Borders(src, c, 4);
    Borders(src, c, 5);
    Borders(src, c, 6);
    Borders(src, c, 7);
    hide HSum, VSum, LeftOf, TopOf;
  }

  lemma FourTerms(n: Neighbours)
    requires n.Valid()
    ensures HSum(n, 4) == (n.Top(4) - n.Top(2)) + 2 * (n.Top(5) - n.Top(1)) + 3 * (n.Top(6) - n.Top(0))
                          + 4 * (n.Top(7) - n.Top(-1))
    ensures VSum(n, 4) == (n.Left(4) - n.Left(2)) + 2 * (n.Left(5) - n.Left(1)) + 3 * (n.Left(6) - n.Left(0))
                          + 4 * (n.Left(7) - n.Left(-1))
  {
    assert HSum(n, 1) == n.Top(4) - n.Top(2) && VSum(n, 1) == n.Left(4) - n.Left(2);
    assert HSum(n, 2) == HSum(n, 1) + 2 * (n.Top(5) - n.Top(1));
    assert VSum(n, 2) == VSum(n, 1) + 2 * (n.Left(5) - n.Left(1));
    assert HSum(n, 3) == HSum(n, 2) + 3 * (n.Top(6) - n.Top(0)) && VSum(n, 3) == VSum(n, 2) + 3 * (n.Left(6) - n.Left(0));
  }

  /** The row above rises evenly by `g` a sample from the corner `v`, the left column by `h`. */
  predicate Linear(src: seq<byte>, c: nat, v: int, g: int, h: int)
    requires |src| >= 34 && c <= 1
  {
    forall k :: -1 <= k < 8 ==> TopOf(src, c, k) == v + g * (k + 1) && LeftOf(src, c, k) == v + h * (k + 1)
  }

  /** PLANE continues a linear border: exactly, for gradients from -3 to 4 a sample; steeper ones lose an eighth of 1/32 a
      sample to the 34 / 64. */
  lemma LinearBorder(src: seq<byte>, c: nat, v: int, g: int, h: int, x: nat, y: nat)
    requires |src| >= 34 && c <= 1 && x < 8 && y < 8 && Linear(src, c, v, g, h) && -3 <= g <= 4 && -3 <= h <= 4
    ensures Brought(PixelOf(Plane, src, c, x, y), v + g * (x + 1) + h * (y + 1), 0, 255)
  {
    var b, d, height := PlanePixelRounds(src, c, x, y);
    LinearSums(src, c, v, g, h);
    hide PixelOf, Linear, Across, Down, TopOf, LeftOf, Brought;
    SlopeOf(b, g);
    SlopeOf(d, h);
    LinearHeight(v, g, h, x, y, height);
  }

  lemma LinearSums(src: seq<byte>, c: nat, v: int, g: int, h: int)
    requires |src| >= 34 && c <= 1 && Linear(src, c, v, g, h)
    ensures Across(src, c) == 60 * g && Down(src, c) == 60 * h
    ensures LeftOf(src, c, 7) == v + 8 * h && TopOf(src, c, 7) == v + 8 * g
  {
    hide TopOf, LeftOf;
  }

  lemma SlopeOf(b: int, g: int)
    requires Rounds(b, 34 * (60 * g), 64) && -3 <= g <= 4
    ensures b == 32 * g
  {
  }

  lemma LinearHeight(v: int, g: int, h: int, x: int, y: int, height: int)
    requires Rounds(height, 16 * ((v + 8 * h) + (v + 8 * g)) + 32 * g * (x - 3) + 32 * h * (y - 3), 32)
    ensures height == v + g * (x + 1) + h * (y + 1)
  {
    assert 32 * g * (x - 3) == 32 * (g * x) - 96 * g && 32 * h * (y - 3) == 32 * (h * y) - 96 * h;
    assert g * (x + 1) == g * x + g && h * (y + 1) == h * y + h;
  }
}
