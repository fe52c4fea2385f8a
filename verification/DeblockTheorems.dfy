/** What the edge filters achieve: they meet the standard line by line, the horizontal filters are the vertical ones
    transposed, two MBAFF calls make one full call, and the chroma planes do not influence each other. */
module DeblockTheorems {
  import opened CInt
  import opened LineFilters
  import opened LineTheorems
  import opened LineJobs
  import opened EdgePlans
  import opened EdgeGeometry

  // ---------------------------------------------------------------------------------------
  // Against the standard.
  // ---------------------------------------------------------------------------------------

  /** The outermost samples are read but never changed. */
  lemma OuterSamplesKept(f: Filter, line: Line)
    requires |line| == f.Taps()
    ensures Apply(f, line)[0] == line[0] && Apply(f, line)[f.Taps() - 1] == line[f.Taps() - 1]
  {
  }

  /** Only p2..q2 (luma, strength 4), p1..q1 (luma, below 4) or p0, q0 (chroma) of some line may change. */
  lemma OnlyInnerSamplesChange(s: seq<byte>, e: Edge, plan: Plan, x: int)
    requires AllFit(Jobs(e, plan), |s|) && LinesApart(e, plan) && 0 <= x < |s|
    requires forall n, i, k :: 0 <= n < |plan| && 0 <= i < |plan[n]| && 1 <= k < plan[n][i].filter.Taps() - 1 ==>
               PlacesOf(e, plan, n, i)[k] != x
    ensures Run(s, Jobs(e, plan))[x] == s[x]
  {
    if n, i :| 0 <= n < |plan| && 0 <= i < |plan[n]| && x in PlacesOf(e, plan, n, i) {
      var at, f := PlacesOf(e, plan, n, i), plan[n][i].filter;
      var k :| 0 <= k < |at| && at[k] == x;
      EveryLineFiltered(s, e, plan, n, i);
      OuterSamplesKept(f, Pull(s, at));
      assert Pull(Run(s, Jobs(e, plan)), at)[k] == Run(s, Jobs(e, plan))[x];
    } else {
      NothingElseTouched(s, e, plan, x);
    }
  }

  /** Strength 4: every luma line is the standard's. */
  lemma LumaBs4MeetsStandard(s: seq<byte>, e: Edge, lines: nat, alpha: int, beta: int, n: nat)
    requires AllFit(Jobs(e, LumaEven(lines, alpha, beta)), |s|) && LinesApart(e, LumaEven(lines, alpha, beta))
    requires n < lines
    ensures var at := LinePlaces(e.Line(n), e.step, 4);
            && Places(at, |s|)
            && Pull(Run(s, Jobs(e, LumaEven(lines, alpha, beta))), at) == StandardBs4(Pull(s, at), false, alpha, beta)
  {
    EveryLineFiltered(s, e, LumaEven(lines, alpha, beta), n, 0);
  }

  /** Below strength 4: a line is the standard's whenever its tc0 is at most 125; the tables of H.264 hold at most 25. */
  lemma LumaBslt4MeetsStandard(s: seq<byte>, e: Edge, per: nat, alpha: int, beta: int, bs: nat, table: seq<byte>, n: nat)
    requires per > 0 && TableCovers(bs, table) && n < 4 * per
    requires var plan := LumaPlan(per, alpha, beta, bs, table); AllFit(Jobs(e, plan), |s|) && LinesApart(e, plan)
    requires var strength := BsByte(bs, Piece(n, per)); strength != 0 && table[strength] <= 125
    ensures var at, tc0 := LinePlaces(e.Line(n), e.step, 3), table[BsByte(bs, Piece(n, per))];
            && Places(at, |s|)
            && Pull(Run(s, Jobs(e, LumaPlan(per, alpha, beta, bs, table))), at)
                 == StandardBslt4(Pull(s, at), false, alpha, beta, tc0)
  {
    var plan, tc0 := LumaPlan(per, alpha, beta, bs, table), table[BsByte(bs, Piece(n, per))];
    assert plan[n] == Luma(LumaBslt4(alpha, beta, tc0));
    EveryLineFiltered(s, e, plan, n, 0);
    LumaMachineMeetsStandard(tc0);
  }

  /** Strength 4: every chroma line is the standard's, U (`c` = 0) and V (`c` = 1) with thresholds of their own. */
  lemma ChromaBs4MeetsStandard(s: seq<byte>, e: Edge, lines: nat, alphaCb: int, betaCb: int, alphaCr: int, betaCr: int,
                               n: nat, c: nat)
    requires var plan := ChromaEven(lines, alphaCb, betaCb, alphaCr, betaCr);
             AllFit(Jobs(e, plan), |s|) && LinesApart(e, plan)
    requires n < lines && c <= 1
    ensures var plan, at := ChromaEven(lines, alphaCb, betaCb, alphaCr, betaCr), LinePlaces(e.Line(n) + c, e.step, 2);
            && Places(at, |s|)
            && Pull(Run(s, Jobs(e, plan)), at) ==
               if c == 0 then StandardBs4(Pull(s, at), true, alphaCb, betaCb)
               else StandardBs4(Pull(s, at), true, alphaCr, betaCr)
  {
    hide Jobs, Run, AllFit, Places, LinePlaces, LinesApart, StandardBs4, Pull;
    EveryLineFiltered(s, e, ChromaEven(lines, alphaCb, betaCb, alphaCr, betaCr), n, c);
  }

  /** Below strength 4: a chroma line is the standard's whenever its tc0 is at most 126. */
  lemma ChromaBslt4MeetsStandard(s: seq<byte>, e: Edge, per: nat, alphaCb: int, betaCb: int, alphaCr: int, betaCr: int,
                                 bs: nat, tableCb: seq<byte>, tableCr: seq<byte>, n: nat, c: nat)
    requires per > 0 && TableCovers(bs, tableCb) && TableCovers(bs, tableCr) && n < 4 * per && c <= 1
    requires var plan := ChromaPlan(per, alphaCb, betaCb, alphaCr, betaCr, bs, tableCb, tableCr);
             AllFit(Jobs(e, plan), |s|) && LinesApart(e, plan)
    requires var strength := BsByte(bs, Piece(n, per));
             strength != 0 && (if c == 0 then tableCb else tableCr)[strength] <= 126
    ensures var plan := ChromaPlan(per, alphaCb, betaCb, alphaCr, betaCr, bs, tableCb, tableCr);
            var at, strength := LinePlaces(e.Line(n) + c, e.step, 2), BsByte(bs, Piece(n, per));
            && Places(at, |s|)
            && Pull(Run(s, Jobs(e, plan)), at) ==
               if c == 0 then StandardBslt4(Pull(s, at), true, alphaCb, betaCb, tableCb[strength])
               else StandardBslt4(Pull(s, at), true, alphaCr, betaCr, tableCr[strength])
  {
    var plan := ChromaPlan(per, alphaCb, betaCb, alphaCr, betaCr, bs, tableCb, tableCr);
    ChromaLineFilter(per, alphaCb, betaCb, alphaCr, betaCr, bs, tableCb, tableCr, n);
    ChromaLineMeetsStandard(s, e, plan, n, c);
  }

  /** The same for any list of lines. */
  lemma ChromaLineMeetsStandard(s: seq<byte>, e: Edge, plan: Plan, n: nat, i: nat)
    requires AllFit(Jobs(e, plan), |s|) && LinesApart(e, plan) && n < |plan| && i < |plan[n]| && plan[n][i].offset == i
    requires plan[n][i].filter.ChromaBslt4? && plan[n][i].filter.tc0 <= 126
    ensures var at, f := LinePlaces(e.Line(n) + i, e.step, 2), plan[n][i].filter;
            && Places(at, |s|)
            && Pull(Run(s, Jobs(e, plan)), at) == StandardBslt4(Pull(s, at), true, f.alpha, f.beta, f.tc0)
  {
    hide Jobs, Run, AllFit, LinePlaces, LinesApart, StandardBslt4, MachineChromaBslt4;
    EveryLineFiltered(s, e, plan, n, i);
    ChromaMachineMeetsStandard(plan[n][i].filter.tc0);
  }

  lemma ChromaLineFilter(per: nat, alphaCb: int, betaCb: int, alphaCr: int, betaCr: int,
                         bs: nat, tableCb: seq<byte>, tableCr: seq<byte>, n: nat)
    requires per > 0 && TableCovers(bs, tableCb) && TableCovers(bs, tableCr) && n < 4 * per
    requires BsByte(bs, Piece(n, per)) != 0
    ensures var strength := BsByte(bs, Piece(n, per));
            strength < |tableCb| && strength < |tableCr| &&
            ChromaPlan(per, alphaCb, betaCb, alphaCr, betaCr, bs, tableCb, tableCr)[n] ==
            Chroma(ChromaBslt4(alphaCb, betaCb, tableCb[strength]), ChromaBslt4(alphaCr, betaCr, tableCr[strength]))
  {
    hide BsByte;
  }

  // ---------------------------------------------------------------------------------------
  // Horizontal edges are vertical edges of the transposed neighbourhood.
  // ---------------------------------------------------------------------------------------

  /** Row by row, what lies around a horizontal edge column by column: `lines` columns (of `planes` interleaved
      samples each), `d` samples to either side of the edge. */
  function Neighbourhood(src: int, strd: int, lines: nat, planes: nat, d: nat): (at: seq<int>)
    requires planes > 0 && d > 0
    ensures |at| == lines * (2 * d * planes)
  {
    seq(lines * (2 * d * planes), x requires 0 <= x < lines * (2 * d * planes) =>
      var row, col := x / (2 * d * planes), x % (2 * d * planes);
      src + planes * row + col % planes + (col / planes - d) * strd)
  }

  /** The place in the neighbourhood of sample `k` of plane `i` of line `n`. */
  lemma NeighbourAt(src: int, strd: int, lines: nat, planes: nat, d: nat, n: nat, i: nat, k: nat)
    requires (planes == 1 && (d == 3 || d == 4)) || (planes == 2 && d == 2)
    requires n < lines && i < planes && k < 2 * d
    ensures var x := n * (2 * d * planes) + k * planes + i;
            && 0 <= x < lines * (2 * d * planes)
            && Neighbourhood(src, strd, lines, planes, d)[x] == src + planes * n + i + (k - d) * strd
  {
    var w, col := 2 * d * planes, k * planes + i;
    assert col < w;
    DivMod(n, w, col);
    DivMod(k, planes, i);
    BelowProduct(n, lines, w);
  }

  lemma DivMod(n: nat, w: nat, r: nat)
    requires r < w && (w == 1 || w == 2 || w == 6 || w == 8)
    ensures (n * w + r) / w == n && (n * w + r) % w == r
  {
    assert (n * 2 + if r < 2 then r else 0) / 2 == n;
    assert (n * 6 + if r < 6 then r else 0) / 6 == n;
    assert (n * 8 + if r < 8 then r else 0) / 8 == n;
  }

  lemma BelowProduct(n: nat, lines: nat, w: nat)
    requires n < lines
    ensures n * w + w <= lines * w
  {
    assert (n + 1) * w <= lines * w;
  }

  lemma {:induction false} TransposedLines(src: int, strd: int, plan: Plan, lines: nat, planes: nat, d: nat, at: seq<int>)
    requires (planes == 1 && (d == 3 || d == 4)) || (planes == 2 && d == 2)
    requires Regular(plan, lines, planes, d) && at == Neighbourhood(src, strd, lines, planes, d)
    ensures SameLines(Jobs(Edge(d * planes, 2 * d * planes, planes), plan), Jobs(Edge(src, planes, strd), plan), at)
  {
    hide Neighbourhood, SameLine, LinePlaces, Edge.Line;
    if plan != [] {
      var l := |plan| - 1;
      TransposedLines(src, strd, plan[..l], lines, planes, d, at);
      var v, h := Edge(d * planes, 2 * d * planes, planes), Edge(src, planes, strd);
      var vs, hs := JobsOfLine(v.Line(l), v.step, plan[l]), JobsOfLine(h.Line(l), h.step, plan[l]);
      forall i | 0 <= i < |vs| ensures SameLine(vs[i], hs[i], at) {
        TransposedLine(src, strd, lines, planes, d, at, l, i, vs[i], hs[i]);
      }
    }
  }

  lemma ViewPlace(planes: nat, d: nat, n: nat, i: nat, k: nat)
    ensures Edge(d * planes, 2 * d * planes, planes).Line(n) + i + (k - d) * planes ==
            n * (2 * d * planes) + k * planes + i
  {
    assert (k - d) * planes == k * planes - d * planes;
  }

  lemma TransposedLine(src: int, strd: int, lines: nat, planes: nat, d: nat, at: seq<int>, n: nat, i: nat, v: Job, h: Job)
    requires (planes == 1 && (d == 3 || d == 4)) || (planes == 2 && d == 2)
    requires n < lines && i < planes && at == Neighbourhood(src, strd, lines, planes, d)
    requires v.filter == h.filter && v.filter.Depth() == d
    requires v.at == LinePlaces(Edge(d * planes, 2 * d * planes, planes).Line(n) + i, planes, d)
    requires h.at == LinePlaces(Edge(src, planes, strd).Line(n) + i, strd, d)
    ensures SameLine(v, h, at)
  {
    hide Neighbourhood;
    forall k | 0 <= k < 2 * d ensures 0 <= v.at[k] < |at| && at[v.at[k]] == h.at[k] {
      NeighbourAt(src, strd, lines, planes, d, n, i, k);
      ViewPlace(planes, d, n, i, k);
    }
  }

  /** Filtering a horizontal edge is transposing its neighbourhood, filtering a vertical edge there, and transposing
      back. Everything outside the neighbourhood stays. */
  lemma HorizontalIsTransposedVertical(s: seq<byte>, src: int, strd: int, plan: Plan, lines: nat, planes: nat, d: nat)
    requires (planes == 1 && (d == 3 || d == 4)) || (planes == 2 && d == 2)
    requires Regular(plan, lines, planes, d) && AllFit(Jobs(Edge(src, planes, strd), plan), |s|)
    requires Places(Neighbourhood(src, strd, lines, planes, d), |s|)
    ensures var at := Neighbourhood(src, strd, lines, planes, d);
            var vertical := Jobs(Edge(d * planes, 2 * d * planes, planes), plan);
            && AllFit(vertical, |at|)
            && Run(s, Jobs(Edge(src, planes, strd), plan)) == Push(s, at, Run(Pull(s, at), vertical))
  {
    var at := Neighbourhood(src, strd, lines, planes, d);
    var horizontal, vertical := Jobs(Edge(src, planes, strd), plan), Jobs(Edge(d * planes, 2 * d * planes, planes), plan);
    TransposedLines(src, strd, plan, lines, planes, d, at);
    ViewOfRun(s, at, vertical, horizontal);
    forall x | 0 <= x < |s| && x !in at ensures Run(s, horizontal)[x] == s[x] {
      forall j | 0 <= j < |horizontal| ensures x !in horizontal[j].at {
        assert SameLine(vertical[j], horizontal[j], at);
      }
      RunKeepsOutside(s, horizontal, x);
    }
    PushIs(s, at, Run(Pull(s, at), vertical), Run(s, horizontal));
  }

  /** The neighbourhood's samples are all different once the stride is no shorter than a row of it. */
  lemma NeighbourhoodDistinct(src: int, strd: int, lines: nat, planes: nat, d: nat, x: nat, y: nat)
    requires (planes == 1 && (d == 3 || d == 4)) || (planes == 2 && d == 2)
    requires Abs(strd) >= lines * planes && x < lines * (2 * d * planes) && y < lines * (2 * d * planes) && x != y
    ensures var at := Neighbourhood(src, strd, lines, planes, d); at[x] != at[y]
  {
    var n, i, k := NeighbourParts(x, lines, planes, d);
    var n', i', k' := NeighbourParts(y, lines, planes, d);
    NeighbourAt(src, strd, lines, planes, d, n, i, k);
    NeighbourAt(src, strd, lines, planes, d, n', i', k');
    DifferentParts(n, i, k, n', i', k', strd, lines, planes, d);
  }

  lemma DifferentParts(n: nat, i: nat, k: nat, n': nat, i': nat, k': nat, strd: int, lines: nat, planes: nat, d: nat)
    requires planes == 1 || planes == 2
    requires n < lines && n' < lines && i < planes && i' < planes && Abs(strd) >= lines * planes
    requires n != n' || i != i' || k != k'
    ensures planes * n + i + (k - d) * strd != planes * n' + i' + (k' - d) * strd
  {
    var b, b' := planes * n + i, planes * n' + i';
    assert b < lines * planes && b' < lines * planes by {
      if planes == 1 { assert lines * planes == lines; } else { assert lines * planes == 2 * lines; }
    }
    if (k - d) * strd + b == (k' - d) * strd + b' {
      RowAndColumn(k - d, b, k' - d, b', strd);
    }
  }

  lemma NeighbourParts(x: nat, lines: nat, planes: nat, d: nat) returns (n: nat, i: nat, k: nat)
    requires (planes == 1 && (d == 3 || d == 4)) || (planes == 2 && d == 2)
    requires x < lines * (2 * d * planes)
    ensures n < lines && i < planes && k < 2 * d && x == n * (2 * d * planes) + k * planes + i
  {
    var w := if d == 3 then 6 else 8;
    assert w == 2 * d * planes;
    n := if d == 3 then x / 6 else x / 8;
    var c := if d == 3 then x % 6 else x % 8;
    k, i := if planes == 1 then c else c / 2, if planes == 1 then 0 else c % 2;
    if d == 3 {
      assert lines * w == lines * 6;
    } else {
      assert lines * w == lines * 8;
    }
  }

  // ---------------------------------------------------------------------------------------
  // Double calls of the MBAFF filters.
  // ---------------------------------------------------------------------------------------

  lemma HalvesMakeWhole(s: seq<byte>, e: Edge, upper: Plan, below: Edge, lower: Plan)
    requires AllFit(Jobs(e, upper + lower), |s|) && below == e.From(|upper|)
    ensures AllFit(Jobs(e, upper), |s|) && AllFit(Jobs(below, lower), |s|)
    ensures Run(Run(s, Jobs(e, upper)), Jobs(below, lower)) == Run(s, Jobs(e, upper + lower))
  {
    JobsAppend(e, upper, lower);
    PartsFit(Jobs(e, upper), Jobs(below, lower), |s|);
    RunAppend(s, Jobs(e, upper), Jobs(below, lower));
  }

  lemma LowerHalf(src: int, strd: int)
    ensures LumaVert(src, strd).From(8) == LumaVert(src + 8 * strd, strd)
    ensures ChromaVert(src, strd).From(4) == ChromaVert(src + 4 * strd, strd)
  {
  }

  /** Strength 4, luma and chroma: calls on the upper and the lower half equal one call of the full filter. */
  lemma MbaffHalvesBs4(s: seq<byte>, src: int, strd: int, alpha: int, beta: int)
    requires AllFit(Jobs(LumaVert(src, strd), LumaEven(16, alpha, beta)), |s|)
    ensures var half := LumaEven(8, alpha, beta);
            var upper, lower := Jobs(LumaVert(src, strd), half), Jobs(LumaVert(src + 8 * strd, strd), half);
            && AllFit(upper, |s|) && AllFit(lower, |s|)
            && Run(Run(s, upper), lower) == Run(s, Jobs(LumaVert(src, strd), LumaEven(16, alpha, beta)))
  {
    hide Jobs, Run, AllFit, Edge.Line, Edge.From;
    var half := LumaEven(8, alpha, beta);
    assert half + half == LumaEven(16, alpha, beta);
    LowerHalf(src, strd);
    HalvesMakeWhole(s, LumaVert(src, strd), half, LumaVert(src + 8 * strd, strd), half);
  }

  lemma ChromaMbaffHalvesBs4(s: seq<byte>, src: int, strd: int, alphaCb: int, betaCb: int, alphaCr: int, betaCr: int)
    requires AllFit(Jobs(ChromaVert(src, strd), ChromaEven(8, alphaCb, betaCb, alphaCr, betaCr)), |s|)
    ensures var half := ChromaEven(4, alphaCb, betaCb, alphaCr, betaCr);
            var full := ChromaEven(8, alphaCb, betaCb, alphaCr, betaCr);
            var upper, lower := Jobs(ChromaVert(src, strd), half), Jobs(ChromaVert(src + 4 * strd, strd), half);
            && AllFit(upper, |s|) && AllFit(lower, |s|)
            && Run(Run(s, upper), lower) == Run(s, Jobs(ChromaVert(src, strd), full))
  {
    hide Jobs, Run, AllFit, Edge.Line, Edge.From;
    var half := ChromaEven(4, alphaCb, betaCb, alphaCr, betaCr);
    assert half + half == ChromaEven(8, alphaCb, betaCb, alphaCr, betaCr);
    LowerHalf(src, strd);
    HalvesMakeWhole(s, ChromaVert(src, strd), half, ChromaVert(src + 4 * strd, strd), half);
  }

  /** The strengths of a half edge: each of its two bytes serves two of the half's four pieces. */
  lemma HalfStrengths(b0: byte, b1: byte, b2: byte, b3: byte, per: nat, n: nat)
    requires per > 0 && n < 4 * (2 * per)
    ensures BsByte(PackBs(b0, b1, b2, b3), Piece(n, 2 * per))
         == if n < 4 * per then BsByte(PackBs(b0, b0, b1, b1), Piece(n, per))
            else BsByte(PackBs(b2, b2, b3, b3), Piece(n - 4 * per, per))
  {
    hide PackBs, BsByte;
    PackedBytes(b0, b1, b2, b3);
    PackedBytes(b0, b0, b1, b1);
    PackedBytes(b2, b2, b3, b3);
  }

  lemma HalfTables(b0: byte, b1: byte, b2: byte, b3: byte, table: seq<byte>)
    requires TableCovers(PackBs(b0, b1, b2, b3), table)
    ensures TableCovers(PackBs(b0, b0, b1, b1), table) && TableCovers(PackBs(b2, b2, b3, b3), table)
  {
    hide PackBs, BsByte;
    PackedBytes(b0, b1, b2, b3);
    PackedBytes(b0, b0, b1, b1);
    PackedBytes(b2, b2, b3, b3);
  }

  /** Below strength 4: half calls with strengths (b0, b0, b1, b1) and (b2, b2, b3, b3) equal one full call with
      (b0, b1, b2, b3). */
  lemma MbaffHalvesBslt4(s: seq<byte>, src: int, strd: int, alpha: int, beta: int,
                         b0: byte, b1: byte, b2: byte, b3: byte, table: seq<byte>)
    requires TableCovers(PackBs(b0, b1, b2, b3), table)
    requires AllFit(Jobs(LumaVert(src, strd), LumaPlan(4, alpha, beta, PackBs(b0, b1, b2, b3), table)), |s|)
    ensures TableCovers(PackBs(b0, b0, b1, b1), table) && TableCovers(PackBs(b2, b2, b3, b3), table)
    ensures var upper := Jobs(LumaVert(src, strd), LumaPlan(2, alpha, beta, PackBs(b0, b0, b1, b1), table));
            var lower := Jobs(LumaVert(src + 8 * strd, strd), LumaPlan(2, alpha, beta, PackBs(b2, b2, b3, b3), table));
            && AllFit(upper, |s|) && AllFit(lower, |s|)
            && Run(Run(s, upper), lower)
                 == Run(s, Jobs(LumaVert(src, strd), LumaPlan(4, alpha, beta, PackBs(b0, b1, b2, b3), table)))
  {
    hide PackBs, BsByte, Piece, Jobs, Run, AllFit, Edge.Line, Edge.From;
    HalfTables(b0, b1, b2, b3, table);
    var upper := LumaPlan(2, alpha, beta, PackBs(b0, b0, b1, b1), table);
    var lower := LumaPlan(2, alpha, beta, PackBs(b2, b2, b3, b3), table);
    var full := LumaPlan(4, alpha, beta, PackBs(b0, b1, b2, b3), table);
    forall n | 0 <= n < 16 ensures (upper + lower)[n] == full[n] { HalfStrengths(b0, b1, b2, b3, 2, n); }
    assert upper + lower == full;
    LowerHalf(src, strd);
    HalvesMakeWhole(s, LumaVert(src, strd), upper, LumaVert(src + 8 * strd, strd), lower);
  }

  lemma ChromaMbaffHalvesBslt4(s: seq<byte>, src: int, strd: int, alphaCb: int, betaCb: int, alphaCr: int, betaCr: int,
                               b0: byte, b1: byte, b2: byte, b3: byte, tableCb: seq<byte>, tableCr: seq<byte>)
    requires TableCovers(PackBs(b0, b1, b2, b3), tableCb) && TableCovers(PackBs(b0, b1, b2, b3), tableCr)
    requires AllFit(Jobs(ChromaVert(src, strd), ChromaPlan(2, alphaCb, betaCb, alphaCr, betaCr,
                                                           PackBs(b0, b1, b2, b3), tableCb, tableCr)), |s|)
    ensures TableCovers(PackBs(b0, b0, b1, b1), tableCb) && TableCovers(PackBs(b2, b2, b3, b3), tableCb)
    ensures TableCovers(PackBs(b0, b0, b1, b1), tableCr) && TableCovers(PackBs(b2, b2, b3, b3), tableCr)
    ensures var upper := Jobs(ChromaVert(src, strd), ChromaPlan(1, alphaCb, betaCb, alphaCr, betaCr,
                                                                PackBs(b0, b0, b1, b1), tableCb, tableCr));
            var lower := Jobs(ChromaVert(src + 4 * strd, strd), ChromaPlan(1, alphaCb, betaCb, alphaCr, betaCr,
                                                                PackBs(b2, b2, b3, b3), tableCb, tableCr));
            && AllFit(upper, |s|) && AllFit(lower, |s|)
            && Run(Run(s, upper), lower)
                 == Run(s, Jobs(ChromaVert(src, strd), ChromaPlan(2, alphaCb, betaCb, alphaCr, betaCr,
                                                                  PackBs(b0, b1, b2, b3), tableCb, tableCr)))
  {
    hide PackBs, BsByte, Piece, Jobs, Run, AllFit, Edge.Line, Edge.From;
    HalfTables(b0, b1, b2, b3, tableCb);
    HalfTables(b0, b1, b2, b3, tableCr);
    var upper := ChromaPlan(1, alphaCb, betaCb, alphaCr, betaCr, PackBs(b0, b0, b1, b1), tableCb, tableCr);
    var lower := ChromaPlan(1, alphaCb, betaCb, alphaCr, betaCr, PackBs(b2, b2, b3, b3), tableCb, tableCr);
    var full := ChromaPlan(2, alphaCb, betaCb, alphaCr, betaCr, PackBs(b0, b1, b2, b3), tableCb, tableCr);
    forall n | 0 <= n < 8 ensures (upper + lower)[n] == full[n] { HalfStrengths(b0, b1, b2, b3, 1, n); }
    assert upper + lower == full;
    LowerHalf(src, strd);
    HalvesMakeWhole(s, ChromaVert(src, strd), upper, ChromaVert(src + 4 * strd, strd), lower);
  }

  /** Every other line of a plan, from line `first` on. */
  function Field(plan: Plan, first: nat): (r: Plan)
    requires first <= 1 && |plan| % 2 == 0
    ensures |r| == |plan| / 2
  {
    seq(|plan| / 2, m requires 0 <= m < |plan| / 2 => plan[2 * m + first])
  }

  function FieldEdge(e: Edge, first: nat): Edge { Edge(e.Line(first), 2 * e.lineStep, e.step) }

  lemma FieldLine(e: Edge, first: nat, m: nat)
    ensures FieldEdge(e, first).Line(m) == e.Line(2 * m + first)
  {
    assert (2 * m + first) * e.lineStep == m * (2 * e.lineStep) + first * e.lineStep;
  }

  lemma FieldApart(e: Edge, plan: Plan, first: nat)
    requires first <= 1 && |plan| % 2 == 0 && LinesApart(e, plan)
    ensures LinesApart(FieldEdge(e, first), Field(plan, first))
  {
    hide LinePlaces, Apart;
    var f, p := FieldEdge(e, first), Field(plan, first);
    forall m, i, n, j | 0 <= m < |p| && 0 <= i < |p[m]| && 0 <= n < |p| && 0 <= j < |p[n]| && (m != n || i != j)
      ensures Apart(PlacesOf(f, p, m, i), PlacesOf(f, p, n, j))
    {
      FieldLine(e, first, m);
      FieldLine(e, first, n);
      assert Apart(PlacesOf(e, plan, 2 * m + first, i), PlacesOf(e, plan, 2 * n + first, j));
    }
  }

  lemma FieldJobs(e: Edge, plan: Plan, first: nat, x: nat) returns (n: nat, i: nat)
    requires first <= 1 && |plan| % 2 == 0 && x < |Jobs(FieldEdge(e, first), Field(plan, first))|
    ensures n % 2 == first && IsJobOf(Jobs(FieldEdge(e, first), Field(plan, first))[x], e, plan, n, i)
  {
    var m;
    m, i := JobHasLine(FieldEdge(e, first), Field(plan, first), x);
    n := 2 * m + first;
    FieldLine(e, first, m);
  }

  lemma JobInField(e: Edge, plan: Plan, n: nat, i: nat)
    requires |plan| % 2 == 0 && n < |plan| && i < |plan[n]|
    ensures Job(PlacesOf(e, plan, n, i), plan[n][i].filter) in Jobs(FieldEdge(e, n % 2), Field(plan, n % 2))
  {
    FieldLine(e, n % 2, n / 2);
    var x := LineHasJob(FieldEdge(e, n % 2), Field(plan, n % 2), n / 2, i);
  }

  /** Calls on the two interleaved fields, with doubled stride, equal one call on all lines. */
  lemma FieldsMakeWhole(s: seq<byte>, e: Edge, plan: Plan)
    requires |plan| % 2 == 0 && AllFit(Jobs(e, plan), |s|) && LinesApart(e, plan)
    ensures var top, bottom := Jobs(FieldEdge(e, 0), Field(plan, 0)), Jobs(FieldEdge(e, 1), Field(plan, 1));
            && AllFit(top, |s|) && AllFit(bottom, |s|)
            && Run(Run(s, top), bottom) == Run(s, Jobs(e, plan))
  {
    var all, top, bottom := Jobs(e, plan), Jobs(FieldEdge(e, 0), Field(plan, 0)), Jobs(FieldEdge(e, 1), Field(plan, 1));
    FieldsHoldAllJobs(e, plan);
    assert AllFit(top, |s|) by { forall x | 0 <= x < |top| ensures top[x].Fits(|s|) { assert top[x] in all; } }
    assert AllFit(bottom, |s|) by {
      forall x | 0 <= x < |bottom| ensures bottom[x].Fits(|s|) { assert bottom[x] in all; }
    }
    FieldsApart(e, plan);
    JobsPairwiseApart(e, plan);
    RunAppend(s, top, bottom);
    RunOrderIrrelevant(s, top + bottom, all);
  }

  lemma FieldsHoldAllJobs(e: Edge, plan: Plan)
    requires |plan| % 2 == 0
    ensures forall j :: j in Jobs(e, plan) <==>
              j in Jobs(FieldEdge(e, 0), Field(plan, 0)) || j in Jobs(FieldEdge(e, 1), Field(plan, 1))
  {
    hide Jobs, LinePlaces, Field, FieldEdge;
    var all, top, bottom := Jobs(e, plan), Jobs(FieldEdge(e, 0), Field(plan, 0)), Jobs(FieldEdge(e, 1), Field(plan, 1));
    forall j | j in all ensures j in top || j in bottom {
      var x :| 0 <= x < |all| && all[x] == j;
      var n, i := JobHasLine(e, plan, x);
      JobInField(e, plan, n, i);
    }
    forall j | j in top || j in bottom ensures j in all {
      var first := if j in top then 0 else 1;
      var field := Jobs(FieldEdge(e, first), Field(plan, first));
      var x :| 0 <= x < |field| && field[x] == j;
      var n, i := FieldJobs(e, plan, first, x);
      var y := LineHasJob(e, plan, n, i);
    }
  }

  lemma FieldsApart(e: Edge, plan: Plan)
    requires |plan| % 2 == 0 && LinesApart(e, plan)
    ensures PairwiseApart(Jobs(FieldEdge(e, 0), Field(plan, 0)) + Jobs(FieldEdge(e, 1), Field(plan, 1)))
  {
    hide Apart, LinePlaces;
    var top, bottom := Jobs(FieldEdge(e, 0), Field(plan, 0)), Jobs(FieldEdge(e, 1), Field(plan, 1));
    FieldApart(e, plan, 0);
    FieldApart(e, plan, 1);
    JobsPairwiseApart(FieldEdge(e, 0), Field(plan, 0));
    JobsPairwiseApart(FieldEdge(e, 1), Field(plan, 1));
    forall x, y | 0 <= x < |top| && 0 <= y < |bottom| ensures Apart(top[x].at, bottom[y].at) {
      var n, i := FieldJobs(e, plan, 0, x);
      var m, j := FieldJobs(e, plan, 1, y);
      assert Apart(PlacesOf(e, plan, n, i), PlacesOf(e, plan, m, j));
    }
    AppendApart(top, bottom);
  }

  /** What the two field calls are given: for strength 4 half the lines each, below 4 the same strengths each. */
  lemma FieldPlans(alpha: int, beta: int, bs: nat, table: seq<byte>, first: nat)
    requires first <= 1 && TableCovers(bs, table)
    ensures Field(LumaEven(16, alpha, beta), first) == LumaEven(8, alpha, beta)
    ensures Field(LumaPlan(4, alpha, beta, bs, table), first) == LumaPlan(2, alpha, beta, bs, table)
  {
    forall m: nat | m < 8 ensures Piece(2 * m + first, 4) == Piece(m, 2) {}
  }

  lemma ChromaFieldPlans(alphaCb: int, betaCb: int, alphaCr: int, betaCr: int, bs: nat,
                         tableCb: seq<byte>, tableCr: seq<byte>, first: nat)
    requires first <= 1 && TableCovers(bs, tableCb) && TableCovers(bs, tableCr)
    ensures Field(ChromaEven(8, alphaCb, betaCb, alphaCr, betaCr), first) ==
            ChromaEven(4, alphaCb, betaCb, alphaCr, betaCr)
    ensures Field(ChromaPlan(2, alphaCb, betaCb, alphaCr, betaCr, bs, tableCb, tableCr), first)
         == ChromaPlan(1, alphaCb, betaCb, alphaCr, betaCr, bs, tableCb, tableCr)
  {
    forall m: nat | m < 4 ensures Piece(2 * m + first, 2) == Piece(m, 1) {}
  }
}
