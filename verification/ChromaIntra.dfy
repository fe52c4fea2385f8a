/** Intra prediction of an 8x8 chroma block from the samples left of it and above it (section 8.3.4 of ITU-T Rec. H.264).
    U and V samples alternate in both the neighbour buffer and the block. */
module ChromaIntra {
  import opened CInt
  import opened LineJobs
  import opened EdgeGeometry

  /** The neighbours of one plane: p[-1, 0..7], p[-1, -1] and p[0..7, -1]. */
  datatype Neighbours = Neighbours(left: seq<byte>, corner: byte, top: seq<byte>) {
    predicate Valid() { |left| == 8 && |top| == 8 }

    /** p[-1, y] for y from -1 to 7. */
    function Left(y: int): int
      requires Valid() && -1 <= y < 8
    {
      if y == -1 then corner else left[y]
    }

    /** p[x, -1] for x from -1 to 7. */
    function Top(x: int): int
      requires Valid() && -1 <= x < 8
    {
      if x == -1 then corner else top[x]
    }

    function Swap(): (n: Neighbours)
      requires Valid()
      ensures n.Valid()
    {
      Neighbours(top, corner, left)
    }
  }

  /** The source buffer holds the left column from the bottom up, then the corner, then the row above. */
  function PlaneOf(src: seq<byte>, c: nat): (n: Neighbours)
    requires |src| >= 34 && c <= 1
    ensures n.Valid()
    ensures forall y {:trigger n.left[y]} :: 0 <= y < 8 ==> n.left[y] == src[14 - 2 * y + c]
    ensures forall x {:trigger n.top[x]} :: 0 <= x < 8 ==> n.top[x] == src[18 + 2 * x + c]
    ensures n.corner == src[16 + c]
  {
    Neighbours(seq(8, y requires 0 <= y < 8 => src[14 - 2 * y + c]), src[16 + c],
               seq(8, x requires 0 <= x < 8 => src[18 + 2 * x + c]))
  }

  // ---------------------------------------------------------------------------------------
  // The standard's predictions.
  // ---------------------------------------------------------------------------------------

  function Sum4(s: seq<byte>, from: nat): (r: nat)
    requires from + 4 <= |s|
    ensures r <= 1020
  {
    s[from] as int + s[from + 1] + s[from + 2] + s[from + 3]
  }

  /** DC prediction of a 4x4 quadrant, section 8.3.4.1 to 8.3.4.3: `left` and `top` say whether the neighbours of this
      very quadrant on that side are available. */
  function DcQuadrant(n: Neighbours, right: bool, lower: bool, left: bool, top: bool): (r: byte)
    requires n.Valid()
  {
    var l, t := Sum4(n.left, if lower then 4 else 0), Sum4(n.top, if right then 4 else 0);
    if right == lower then
      if left && top then Shr3(l + t + 4) else if left then Shr2(l + 2) else if top then Shr2(t + 2) else 128
    else if right then
      if top then Shr2(t + 2) else if left then Shr2(l + 2) else 128
    else
      if left then Shr2(l + 2) else if top then Shr2(t + 2) else 128
  }

  /** H of section 8.3.4.4, its first `k` terms. */
  function HSum(n: Neighbours, k: nat): int
    requires n.Valid() && k <= 4
  {
    if k == 0 then 0 else HSum(n, k - 1) + k * (n.Top(3 + k) - n.Top(3 - k))
  }

  function VSum(n: Neighbours, k: nat): int
    requires n.Valid() && k <= 4
  {
    if k == 0 then 0 else VSum(n, k - 1) + k * (n.Left(3 + k) - n.Left(3 - k))
  }

  function PlaneA(n: Neighbours): int
    requires n.Valid()
  {
    16 * (n.Left(7) + n.Top(7))
  }

  function PlaneSlope(sum: int): int { Shr6(34 * sum + 32) }

  /** PLANE prediction of pixel (x, y), section 8.3.4.4 for 4:2:0. */
  function PlanePixel(n: Neighbours, x: int, y: int): byte
    requires n.Valid()
  {
    ClipU8(Shr5(PlaneA(n) + PlaneSlope(HSum(n, 4)) * (x - 3) + PlaneSlope(VSum(n, 4)) * (y - 3) + 16))
  }

  // ---------------------------------------------------------------------------------------
  // Blocks in memory: row by row, U and V alternating, 128 samples.
  // ---------------------------------------------------------------------------------------

  function BlockPlaces(dst: int, strd: int): (at: seq<int>)
    ensures |at| == 128 && forall m {:trigger at[m]} :: 0 <= m < 128 ==> at[m] == dst + m / 16 * strd + m % 16
  {
    seq(128, m => dst + m / 16 * strd + m % 16)
  }

  datatype Mode = Dc(left1: bool, left2: bool, top: bool) | Horz | Vert | Plane

  /** What a mode predicts for pixel (x, y) of a plane. */
  function Predict(mode: Mode, n: Neighbours, x: nat, y: nat): byte
    requires n.Valid() && x < 8 && y < 8
  {
    match mode
    case Dc(left1, left2, top) => DcQuadrant(n, x >= 4, y >= 4, if y >= 4 then left2 else left1, top)
    case Horz => n.left[y]
    case Vert => n.top[x]
    case Plane => PlanePixel(n, x, y)
  }

  function Block(mode: Mode, src: seq<byte>): (r: seq<byte>)
    requires |src| >= 34
    ensures |r| == 128
    ensures forall m {:trigger r[m]} :: 0 <= m < 128 ==>
      r[m] == Predict(mode, PlaneOf(src, m % 2), m % 16 / 2, m / 16)
  {
    seq(128, m requires 0 <= m < 128 => Predict(mode, PlaneOf(src, m % 2), m % 16 / 2, m / 16))
  }

  /** The first `n` samples of the block have been stored. */
  predicate Stored(t: seq<byte>, s: seq<byte>, at: seq<int>, block: seq<byte>, n: nat) {
    && |at| == |block| && n <= |at| && Places(at, |s|)
    && t == Push(s, at[..n], block[..n])
  }

  lemma NoneStored(s: seq<byte>, at: seq<int>, block: seq<byte>)
    requires |at| == |block| && Places(at, |s|)
    ensures Stored(s, s, at, block, 0)
  {
  }

  lemma AllStored(t: seq<byte>, s: seq<byte>, at: seq<int>, block: seq<byte>)
    requires Stored(t, s, at, block, |at|)
    ensures t == Push(s, at, block)
  {
    assert at[..|at|] == at && block[..|at|] == block;
  }

  lemma StoreOne(t: seq<byte>, s: seq<byte>, at: seq<int>, block: seq<byte>, n: nat)
    requires Stored(t, s, at, block, n) && n < |at|
    ensures |t| == |s| && 0 <= at[n] < |s| && Stored(t[at[n] := block[n]], s, at, block, n + 1)
  {
    assert at[..n + 1][..n] == at[..n] && block[..n + 1][..n] == block[..n];
  }

  lemma PairPlaces(dst: int, strd: int, row: nat, col: nat)
    requires row < 8 && col < 8
    ensures var at, m := BlockPlaces(dst, strd), 16 * row + 2 * col;
            at[m] == dst + row * strd + 2 * col && at[m + 1] == dst + row * strd + 2 * col + 1
  {
    var m := 16 * row + 2 * col;
    assert m / 16 == row && m % 16 == 2 * col;
    assert (m + 1) / 16 == row && (m + 1) % 16 == 2 * col + 1;
  }

  /** Pixel (`col`, `row`): a U and a V sample. */
  method StorePixel(dst: array<byte>, base: int, strd: int, row: nat, col: nat, u: byte, v: byte,
                    ghost s: seq<byte>, ghost block: seq<byte>)
    requires row < 8 && col < 8 && |block| == 128
    requires Stored(dst[..], s, BlockPlaces(base, strd), block, 16 * row + 2 * col)
    requires block[16 * row + 2 * col] == u && block[16 * row + 2 * col + 1] == v
    modifies dst
    ensures Stored(dst[..], s, BlockPlaces(base, strd), block, 16 * row + 2 * col + 2)
  {
    hide Stored, BlockPlaces;
    ghost var at := BlockPlaces(base, strd);
    PairPlaces(base, strd, row, col);
    StoreOne(dst[..], s, at, block, 16 * row + 2 * col);
    dst[base + row * strd + 2 * col] := u;
    StoreOne(dst[..], s, at, block, 16 * row + 2 * col + 1);
    dst[base + row * strd + 2 * col + 1] := v;
  }

  /** ih264_intra_pred_chroma_8x8_mode_dc. Bit 0 of `ngbrAvail` says that the upper half of the left column is available,
      bit 4 the lower half, bit 2 the row above. */
  method DcValues(src: seq<byte>, c: nat, left1: bool, left2: bool, top: bool)
    returns (topLeft: byte, topRight: byte, bottomLeft: byte, bottomRight: byte)
    requires |src| >= 34 && c <= 1
    ensures var n := PlaneOf(src, c);
            && topLeft == DcQuadrant(n, false, false, left1, top)
            && topRight == DcQuadrant(n, true, false, left1, top)
            && bottomLeft == DcQuadrant(n, false, true, left2, top)
            && bottomRight == DcQuadrant(n, true, true, left2, top)
  {
    hide Shr2, Shr3;
    var l1, l2, t1, t2 := 0, 0, 0, 0;
    var pLeft, pTop := 14 + c, 18 + c;
    if left1 {
      l1 := src[pLeft] as int + src[pLeft - 2] + src[pLeft - 4] + src[pLeft - 6] + 2;
    }
    pLeft := pLeft - 2 * 4;
    if left2 {
      l2 := src[pLeft] as int + src[pLeft - 2] + src[pLeft - 4] + src[pLeft - 6] + 2;
    }
    if top {
      t1 := src[pTop] as int + src[pTop + 2] + src[pTop + 4] + src[pTop + 6] + 2;
      t2 := src[pTop + 8] as int + src[pTop + 10] + src[pTop + 12] + src[pTop + 14] + 2;
    }
    topLeft, topRight, bottomLeft, bottomRight := 128, 128, 128, 128;
    if left1 || left2 || top {
      topLeft := Mean(l1 + t1, left1, top);
      if top {
        topRight := Shr2(t2);
      } else if left1 {
        topRight := Shr2(l1);
      }
      if left2 {
        bottomLeft := Shr2(l2);
      } else if top {
        bottomLeft := Shr2(t1);
      }
      bottomRight := Mean(l2 + t2, left2, top);
    }
  }

  /** `(left + top) ? (sum >> (1 + left + top)) : 128` */
  function Mean(sum: int, left: bool, top: bool): (r: int)
    ensures left && top ==> r == Shr3(sum)
    ensures left != top ==> r == Shr2(sum)
    ensures !left && !top ==> r == 128
  {
    if left && top then Shr3(sum) else if left || top then Shr2(sum) else 128
  }

  /** The pixel is (`u1`, `v1`) in the left half of the block and (`u2`, `v2`) in the right half. */
  predicate DcPixel(block: seq<byte>, x: int, y: int, u1: byte, u2: byte, v1: byte, v2: byte)
    requires |block| == 128 && 0 <= x < 8 && 0 <= y < 8
  {
    var m := 16 * y + 2 * x;
    if x < 4 then block[m] == u1 && block[m + 1] == v1 else block[m] == u2 && block[m + 1] == v2
  }

  predicate RowsAre(block: seq<byte>, from: nat, to: nat, u1: byte, u2: byte, v1: byte, v2: byte)
    requires from <= to <= 8 && |block| == 128
  {
    forall x, y :: 0 <= x < 8 && from <= y < to ==> DcPixel(block, x, y, u1, u2, v1, v2)
  }

  /** The rows `from..to` of a DC block. */
  method DcRows(dst: array<byte>, base: int, strd: int, from: nat, to: nat,
                u1: byte, u2: byte, v1: byte, v2: byte, ghost s: seq<byte>, ghost block: seq<byte>)
    requires from <= to <= 8 && |block| == 128 && RowsAre(block, from, to, u1, u2, v1, v2)
    requires Stored(dst[..], s, BlockPlaces(base, strd), block, 16 * from)
    modifies dst
    ensures Stored(dst[..], s, BlockPlaces(base, strd), block, 16 * to)
  {
    hide Stored, BlockPlaces;
    for row := from to to
      invariant Stored(dst[..], s, BlockPlaces(base, strd), block, 16 * row)
    {
      for col := 0 to 4
        invariant Stored(dst[..], s, BlockPlaces(base, strd), block, 16 * row + 2 * col)
      {
        assert DcPixel(block, col, row, u1, u2, v1, v2);
        StorePixel(dst, base, strd, row, col, u1, v1, s, block);
      }
      for col := 4 to 8
        invariant Stored(dst[..], s, BlockPlaces(base, strd), block, 16 * row + 2 * col)
      {
        assert DcPixel(block, col, row, u1, u2, v1, v2);
        StorePixel(dst, base, strd, row, col, u2, v2, s, block);
      }
    }
  }

  method PredictDc(src: seq<byte>, dst: array<byte>, base: int, strd: int, ngbrAvail: nat)
    requires |src| >= 34 && Places(BlockPlaces(base, strd), dst.Length)
    modifies dst
    ensures dst[..] == Push(old(dst[..]), BlockPlaces(base, strd), Block(DcMode(ngbrAvail), src))
  {
    ghost var s, at, block := dst[..], BlockPlaces(base, strd), Block(DcMode(ngbrAvail), src);
    var left1, left2, top := ngbrAvail % 2 == 1, ngbrAvail / 16 % 2 == 1, ngbrAvail / 4 % 2 == 1;
    var u1, u2, u3, u4 := DcValues(src, 0, left1, left2, top);
    var v1, v2, v3, v4 := DcValues(src, 1, left1, left2, top);
    DcBlock(src, left1, left2, top);
    hide Block, BlockPlaces, DcQuadrant, Stored, RowsAre, PlaneOf;
    NoneStored(s, at, block);
    DcRows(dst, base, strd, 0, 4, u1, u2, v1, v2, s, block);
    DcRows(dst, base, strd, 4, 8, u3, u4, v3, v4, s, block);
    AllStored(dst[..], s, at, block);
  }

  function DcMode(ngbrAvail: nat): Mode { Dc(ngbrAvail % 2 == 1, ngbrAvail / 16 % 2 == 1, ngbrAvail / 4 % 2 == 1) }

  lemma DcBlock(src: seq<byte>, left1: bool, left2: bool, top: bool)
    requires |src| >= 34
    ensures var block, u, v := Block(Dc(left1, left2, top), src), PlaneOf(src, 0), PlaneOf(src, 1);
            && RowsAre(block, 0, 4, DcQuadrant(u, false, false, left1, top), DcQuadrant(u, true, false, left1, top),
                       DcQuadrant(v, false, false, left1, top), DcQuadrant(v, true, false, left1, top))
            && RowsAre(block, 4, 8, DcQuadrant(u, false, true, left2, top), DcQuadrant(u, true, true, left2, top),
                       DcQuadrant(v, false, true, left2, top), DcQuadrant(v, true, true, left2, top))
  {
    hide DcQuadrant, Block, PlaneOf, DcPixel;
    var block, u, v := Block(Dc(left1, left2, top), src), PlaneOf(src, 0), PlaneOf(src, 1);
    forall x, y | 0 <= x < 8 && 0 <= y < 4
      ensures DcPixel(block, x, y, DcQuadrant(u, false, false, left1, top), DcQuadrant(u, true, false, left1, top),
                      DcQuadrant(v, false, false, left1, top), DcQuadrant(v, true, false, left1, top))
    {
      DcPixelOfBlock(src, left1, left2, top, x, y);
    }
    forall x, y | 0 <= x < 8 && 4 <= y < 8
      ensures DcPixel(block, x, y, DcQuadrant(u, false, true, left2, top), DcQuadrant(u, true, true, left2, top),
                      DcQuadrant(v, false, true, left2, top), DcQuadrant(v, true, true, left2, top))
    {
      DcPixelOfBlock(src, left1, left2, top, x, y);
    }
  }

  lemma DcPixelOfBlock(src: seq<byte>, left1: bool, left2: bool, top: bool, x: int, y: int)
    requires |src| >= 34 && 0 <= x < 8 && 0 <= y < 8
    ensures var u, v, left, lower := PlaneOf(src, 0), PlaneOf(src, 1), if y >= 4 then left2 else left1, y >= 4;
            DcPixel(Block(Dc(left1, left2, top), src), x, y,
                    DcQuadrant(u, false, lower, left, top), DcQuadrant(u, true, lower, left, top),
                    DcQuadrant(v, false, lower, left, top), DcQuadrant(v, true, lower, left, top))
  {
    hide DcQuadrant, Block, PlaneOf;
    BlockPixel(Dc(left1, left2, top), src, x, y);
  }

  /** ih264_intra_pred_chroma_8x8_mode_plane, the sums of one plane. */
  method PlaneSums(src: seq<byte>, c: nat) returns (h: int, v: int)
    requires |src| >= 34 && c <= 1
    ensures h == HSum(PlaneOf(src, c), 4) && v == VSum(PlaneOf(src, c), 4)
  {
    ghost var n := PlaneOf(src, c);
    PlaneStart(n);
    hide PlaneOf, HSum, VSum;
    h, v := 0, 0;
    for cols := 0 to 4
      invariant h == HSum(n, cols) && v == VSum(n, cols)
    {
      PlaneTerm(src, c, cols);
      var right: int, leftOf: int := src[18 + 8 + 2 * cols + c], src[18 + 4 - 2 * cols + c];
      var below: int, above: int := src[14 - 2 * (4 + cols) + c], src[14 - 2 * (2 - cols) + c];
      h := h + (cols + 1) * (right - leftOf);
      v := v + (cols + 1) * (below - above);
    }
  }

  lemma PlaneStart(n: Neighbours)
    requires n.Valid()
    ensures HSum(n, 0) == VSum(n, 0) == 0
  {
  }

  lemma PlaneTerm(src: seq<byte>, c: nat, cols: nat)
    requires |src| >= 34 && c <= 1 && cols < 4
    ensures var n := PlaneOf(src, c);
            && n.Top(4 + cols) == src[18 + 8 + 2 * cols + c] && n.Top(2 - cols) == src[18 + 4 - 2 * cols + c]
            && n.Left(4 + cols) == src[14 - 2 * (4 + cols) + c] && n.Left(2 - cols) == src[14 - 2 * (2 - cols) + c]
            && HSum(n, cols + 1) == HSum(n, cols) + (cols + 1) * (n.Top(4 + cols) - n.Top(2 - cols))
            && VSum(n, cols + 1) == VSum(n, cols) + (cols + 1) * (n.Left(4 + cols) - n.Left(2 - cols))
  {
    var n := PlaneOf(src, c);
    if cols < 3 {
      assert n.Top(2 - cols) == n.top[2 - cols] && n.Left(2 - cols) == n.left[2 - cols];
    }
  }

  /** The U and V samples of pixel (x, y) in a block. */
  lemma BlockPixel(mode: Mode, src: seq<byte>, x: nat, y: nat)
    requires |src| >= 34 && x < 8 && y < 8
    ensures var m := 16 * y + 2 * x;
            && Block(mode, src)[m] == Predict(mode, PlaneOf(src, 0), x, y)
            && Block(mode, src)[m + 1] == Predict(mode, PlaneOf(src, 1), x, y)
  {
    hide Predict;
    var m := 16 * y + 2 * x;
    assert m / 16 == y && m % 16 / 2 == x && m % 2 == 0;
    assert (m + 1) / 16 == y && (m + 1) % 16 / 2 == x && (m + 1) % 2 == 1;
  }

  lemma PlaneAIs(src: seq<byte>)
    requires |src| >= 34
    ensures PlaneA(PlaneOf(src, 0)) == 16 * (src[0] as int + src[32])
    ensures PlaneA(PlaneOf(src, 1)) == 16 * (src[1] as int + src[33])
  {
  }

  method PredictPlane(src: seq<byte>, dst: array<byte>, base: int, strd: int)
    requires |src| >= 34 && Places(BlockPlaces(base, strd), dst.Length)
    modifies dst
    ensures dst[..] == Push(old(dst[..]), BlockPlaces(base, strd), Block(Plane, src))
  {
    hide Stored, HSum, VSum, BlockPlaces, Block, PlaneOf, PlaneA, Shr5, Shr6, ClipU8;
    ghost var s, at, block := dst[..], BlockPlaces(base, strd), Block(Plane, src);
    var hU, vU := PlaneSums(src, 0);
    var hV, vV := PlaneSums(src, 1);
    PlaneAIs(src);
    var aU: int, aV: int := 16 * (src[0] as int + src[32]), 16 * (src[1] as int + src[33]);
    var bU, bV, cU, cV := Shr6(34 * hU + 32), Shr6(34 * hV + 32), Shr6(34 * vU + 32), Shr6(34 * vV + 32);
    NoneStored(s, at, block);
    for rows := 0 to 8
      invariant Stored(dst[..], s, at, block, 16 * rows)
    {
      for cols := 0 to 8
        invariant Stored(dst[..], s, at, block, 16 * rows + 2 * cols)
      {
        BlockPixel(Plane, src, cols, rows);
        var valU := aU + bU * (cols - 3) + cU * (rows - 3);
        var valV := aV + bV * (cols - 3) + cV * (rows - 3);
        StorePixel(dst, base, strd, rows, cols, ClipU8(Shr5(valU + 16)), ClipU8(Shr5(valV + 16)), s, block);
      }
    }
    AllStored(dst[..], s, at, block);
  }

  /** ih264_intra_pred_chroma_8x8_mode_horz */
  method PredictHorz(src: seq<byte>, dst: array<byte>, base: int, strd: int)
    requires |src| >= 34 && Places(BlockPlaces(base, strd), dst.Length)
    modifies dst
    ensures dst[..] == Push(old(dst[..]), BlockPlaces(base, strd), Block(Horz, src))
  {
    hide Stored, BlockPlaces, Block;
    ghost var s, at, block := dst[..], BlockPlaces(base, strd), Block(Horz, src);
    NoneStored(s, at, block);
    var pLeft := 14;
    for rows := 0 to 8
      invariant pLeft == 14 - 2 * rows && Stored(dst[..], s, at, block, 16 * rows)
    {
      for cols := 0 to 8
        invariant Stored(dst[..], s, at, block, 16 * rows + 2 * cols)
      {
        BlockPixel(Horz, src, cols, rows);
        StorePixel(dst, base, strd, rows, cols, src[pLeft], src[pLeft + 1], s, block);
      }
      pLeft := pLeft - 2;
    }
    AllStored(dst[..], s, at, block);
  }

  /** ih264_intra_pred_chroma_8x8_mode_vert */
  method PredictVert(src: seq<byte>, dst: array<byte>, base: int, strd: int)
    requires |src| >= 34 && Places(BlockPlaces(base, strd), dst.Length)
    modifies dst
    ensures dst[..] == Push(old(dst[..]), BlockPlaces(base, strd), Block(Vert, src))
  {
    hide Stored, BlockPlaces, Block;
    ghost var s, at, block := dst[..], BlockPlaces(base, strd), Block(Vert, src);
    NoneStored(s, at, block);
    for row := 0 to 8
      invariant Stored(dst[..], s, at, block, 16 * row)
    {
      for cols := 0 to 8
        invariant Stored(dst[..], s, at, block, 16 * row + 2 * cols)
      {
        BlockPixel(Vert, src, cols, row);
        StorePixel(dst, base, strd, row, cols, src[18 + 2 * cols], src[18 + 2 * cols + 1], s, block);
      }
    }
    AllStored(dst[..], s, at, block);
  }

  // ---------------------------------------------------------------------------------------
  // Properties of the predictions.
  // ---------------------------------------------------------------------------------------

  predicate Within(s: seq<byte>, from: nat, lo: int, hi: int)
    requires from + 4 <= |s|
  {
    forall i :: from <= i < from + 4 ==> lo <= s[i] <= hi
  }

  /** Which sides a quadrant is predicted from: both on the diagonal; elsewhere the nearer one, or else the other. */
  predicate UsesLeft(right: bool, lower: bool, left: bool, top: bool) { left && (lower || !right || !top) }

  predicate UsesTop(right: bool, lower: bool, left: bool, top: bool) { top && (right || !lower || !left) }

  lemma DcStaysWithin(n: Neighbours, right: bool, lower: bool, left: bool, top: bool, lo: int, hi: int)
    requires n.Valid()
    requires UsesLeft(right, lower, left, top) ==> Within(n.left, if lower then 4 else 0, lo, hi)
    requires UsesTop(right, lower, left, top) ==> Within(n.top, if right then 4 else 0, lo, hi)
    ensures left || top ==> lo <= DcQuadrant(n, right, lower, left, top) <= hi
    ensures !left && !top ==> DcQuadrant(n, right, lower, left, top) == 128
  {
    if UsesLeft(right, lower, left, top) { SumWithin(n.left, if lower then 4 else 0, lo, hi); }
    if UsesTop(right, lower, left, top) { SumWithin(n.top, if right then 4 else 0, lo, hi); }
  }

  lemma SumWithin(s: seq<byte>, from: nat, lo: int, hi: int)
    requires from + 4 <= |s| && Within(s, from, lo, hi)
    ensures 4 * lo <= Sum4(s, from) <= 4 * hi
  {
  }

  predicate Flat(n: Neighbours, v: byte) {
    n.Valid() && n.corner == v && (forall i :: 0 <= i < 8 ==> n.left[i] == v && n.top[i] == v)
  }

  lemma {:induction false} FlatSums(n: Neighbours, v: byte, k: nat)
    requires Flat(n, v) && k <= 4
    ensures HSum(n, k) == 0 && VSum(n, k) == 0
  {
    if k > 0 {
      FlatSums(n, v, k - 1);
      assert n.Top(3 + k) == n.Top(3 - k) == v && n.Left(3 + k) == n.Left(3 - k) == v;
    }
  }

  /** A border of one value predicts a block of that value, in every mode that looks at any of it. */
  lemma FlatBorderFlatBlock(mode: Mode, n: Neighbours, v: byte, x: nat, y: nat)
    requires Flat(n, v) && x < 8 && y < 8
    requires mode.Dc? ==> mode.top || (mode.left1 && mode.left2)
    ensures Predict(mode, n, x, y) == v
  {
    match mode
    case Dc(left1, left2, top) => DcStaysWithin(n, x >= 4, y >= 4, if y >= 4 then left2 else left1, top, v, v);
    case Plane => FlatSums(n, v, 4);
    case _ =>
  }

  /** The mode that does to rows what `mode` does to columns. */
  function Transposed(mode: Mode): Mode {
    match mode
    case Dc(left1, left2, top) => Dc(top, top, left1)
    case Horz => Vert
    case Vert => Horz
    case Plane => Plane
  }

  lemma {:induction false} SwapSums(n: Neighbours, k: nat)
    requires n.Valid() && k <= 4
    ensures HSum(n.Swap(), k) == VSum(n, k) && VSum(n.Swap(), k) == HSum(n, k)
  {
    if k > 0 { SwapSums(n, k - 1); }
  }

  /** Swapping the left column with the row above transposes the block. */
  lemma SwapTransposes(mode: Mode, n: Neighbours, x: nat, y: nat)
    requires n.Valid() && x < 8 && y < 8
    requires mode.Dc? ==> mode.left1 == mode.left2
    ensures Predict(Transposed(mode), n.Swap(), y, x) == Predict(mode, n, x, y)
  {
    match mode
    case Dc(left1, left2, top) => DcSwaps(n, x >= 4, y >= 4, left1, top);
    case Plane => PlaneSwaps(n, x, y);
    case _ =>
  }

  lemma DcSwaps(n: Neighbours, right: bool, lower: bool, left: bool, top: bool)
    requires n.Valid()
    ensures DcQuadrant(n.Swap(), lower, right, top, left) == DcQuadrant(n, right, lower, left, top)
  {
    hide Shr2, Shr3;
  }

  lemma PlaneSwaps(n: Neighbours, x: nat, y: nat)
    requires n.Valid() && x < 8 && y < 8
    ensures PlanePixel(n.Swap(), y, x) == PlanePixel(n, x, y)
  {
    hide Shr5, PlaneSlope, ClipU8, HSum, VSum;
    SwapSums(n, 4);
  }

  /** `other` holds the neighbours of `src`, in both planes, with left and top swapped. */
  predicate Swapped(src: seq<byte>, other: seq<byte>)
    requires |src| >= 34 && |other| >= 34
  {
    forall c :: 0 <= c <= 1 ==> PlaneOf(other, c) == PlaneOf(src, c).Swap()
  }

  /** The same in memory, U and V at once. */
  lemma SwappedBlock(mode: Mode, src: seq<byte>, other: seq<byte>, x: nat, y: nat)
    requires |src| >= 34 && |other| >= 34 && Swapped(src, other) && x < 8 && y < 8
    requires mode.Dc? ==> mode.left1 == mode.left2
    ensures var here, there := 16 * y + 2 * x, 16 * x + 2 * y;
            && Block(Transposed(mode), other)[there] == Block(mode, src)[here]
            && Block(Transposed(mode), other)[there + 1] == Block(mode, src)[here + 1]
  {
    hide Block, PlaneOf, Predict;
    BlockPixel(mode, src, x, y);
    BlockPixel(Transposed(mode), other, y, x);
    assert PlaneOf(other, 0) == PlaneOf(src, 0).Swap() && PlaneOf(other, 1) == PlaneOf(src, 1).Swap();
    SwapTransposes(mode, PlaneOf(src, 0), x, y);
    SwapTransposes(mode, PlaneOf(src, 1), x, y);
  }

  /** With its rows inside the buffer and at least 16 samples apart, a block has 128 different places. */
  lemma BlockHasPlaces(base: int, strd: int, n: nat)
    requires Abs(strd) >= 16
    requires forall row :: 0 <= row < 8 ==> 0 <= base + row * strd && base + row * strd + 15 < n
    ensures Places(BlockPlaces(base, strd), n)
  {
    var at := BlockPlaces(base, strd);
    forall k | 0 <= k < 128 ensures 0 <= at[k] < n {
      assert 0 <= k / 16 < 8 && 0 <= k % 16 < 16;
      assert at[k] == base + k / 16 * strd + k % 16;
    }
    forall k, l | 0 <= k < 128 && 0 <= l < 128 && k != l ensures at[k] != at[l] {
      if at[k] == at[l] {
        RowAndColumn(k / 16, k % 16, l / 16, l % 16, strd);
        assert false;
      }
    }
  }

  /** What a predicted block looks like in the buffer: each pixel is its mode's prediction from the neighbours of its
      own plane, and the rest of the buffer is untouched. */
  lemma PredictedBuffer(s: seq<byte>, base: int, strd: int, mode: Mode, src: seq<byte>)
    requires |src| >= 34 && Places(BlockPlaces(base, strd), |s|)
    ensures var t, at := Push(s, BlockPlaces(base, strd), Block(mode, src)), BlockPlaces(base, strd);
            && (forall x, y :: 0 <= x < 8 && 0 <= y < 8 ==>
                  PixelShows(t, base + y * strd + 2 * x, Predict(mode, PlaneOf(src, 0), x, y),
                             Predict(mode, PlaneOf(src, 1), x, y)))
            && (forall i :: 0 <= i < |s| && i !in at ==> t[i] == s[i])
  {
    hide Predict, PlaneOf, Block, BlockPlaces, Places, Push;
    PushEffect(s, BlockPlaces(base, strd), Block(mode, src));
    forall x, y | 0 <= x < 8 && 0 <= y < 8
      ensures PixelShows(Push(s, BlockPlaces(base, strd), Block(mode, src)), base + y * strd + 2 * x,
                         Predict(mode, PlaneOf(src, 0), x, y), Predict(mode, PlaneOf(src, 1), x, y))
    {
      PredictedPixel(s, base, strd, mode, src, x, y);
    }
  }

  lemma PredictedPixel(s: seq<byte>, base: int, strd: int, mode: Mode, src: seq<byte>, x: nat, y: nat)
    requires |src| >= 34 && Places(BlockPlaces(base, strd), |s|) && x < 8 && y < 8
    ensures PixelShows(Push(s, BlockPlaces(base, strd), Block(mode, src)), base + y * strd + 2 * x,
                       Predict(mode, PlaneOf(src, 0), x, y), Predict(mode, PlaneOf(src, 1), x, y))
  {
    hide Predict, PlaneOf, Block, BlockPlaces;
    var at, m := BlockPlaces(base, strd), 16 * y + 2 * x;
    PushEffect(s, at, Block(mode, src));
    PairPlaces(base, strd, y, x);
    BlockPixel(mode, src, x, y);
    assert 0 <= at[m] < |s| && 0 <= at[m + 1] < |s|;
  }

  predicate PixelShows(t: seq<byte>, i: int, u: byte, v: byte) {
    0 <= i && i + 1 < |t| && t[i] == u && t[i + 1] == v
  }
}
