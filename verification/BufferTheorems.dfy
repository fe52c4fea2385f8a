/** What the edge filters make of the buffer, in plain numbers: where each line lies, and what its samples become. */
module BufferTheorems {
  import opened CInt
  import opened LineFilters
  import opened LineJobs
  import opened EdgePlans
  import opened EdgeGeometry
  import opened DeblockLines
  import opened EdgeTheorems
  import opened SampleTheorems

  /** Every sample of the line is what it was; samples beyond the buffer are not looked at. */
  predicate LineKept(s: seq<byte>, t: seq<byte>, q: int, step: int, d: nat)
    requires |t| == |s|
  {
    forall k {:trigger LinePlaces(q, step, d)[k]} :: 0 <= k < 2 * d ==>
      var x := LinePlaces(q, step, d)[k]; 0 <= x < |s| ==> t[x] == s[x]
  }

  /** A luma line at strength 4. */
  predicate NewLumaBs4(s: seq<byte>, t: seq<byte>, q: int, step: int, alpha: int, beta: int) {
    && |t| == |s| && 0 <= q < |s| && 0 <= q + step < |s| && 0 <= q + 2 * step < |s| && 0 <= q + 3 * step < |s|
    && 0 <= q - step < |s| && 0 <= q - 2 * step < |s| && 0 <= q - 3 * step < |s| && 0 <= q - 4 * step < |s|
    && var p3: int, p2: int, p1: int, p0: int := s[q - 4 * step], s[q - 3 * step], s[q - 2 * step], s[q - step];
       var q0: int, q1: int, q2: int, q3: int := s[q], s[q + step], s[q + 2 * step], s[q + 3 * step];
       && t[q - 4 * step] == p3 && t[q + 3 * step] == q3
       && if Decided(p1, p0, q0, q1, alpha, beta) then
            && Taps(p3, p2, p1, p0, q0, q1, Strong(p2, p0, q0, alpha, beta),
                    t[q - 3 * step], t[q - 2 * step], t[q - step])
            && Taps(q3, q2, q1, q0, p0, p1, Strong(q2, q0, p0, alpha, beta), t[q + 2 * step], t[q + step], t[q])
          else
            && t[q - 3 * step] == p2 && t[q - 2 * step] == p1 && t[q - step] == p0
            && t[q] == q0 && t[q + step] == q1 && t[q + 2 * step] == q2
  }

  lemma NewLumaBs4From(s: seq<byte>, t: seq<byte>, q: int, step: int, alpha: int, beta: int)
    requires |t| == |s| && Places(LinePlaces(q, step, 4), |s|)
    requires Pull(t, LinePlaces(q, step, 4)) == Apply(LumaBs4(alpha, beta), Pull(s, LinePlaces(q, step, 4)))
    ensures NewLumaBs4(s, t, q, step, alpha, beta)
  {
    var at := LinePlaces(q, step, 4);
    LumaBs4Taps(Pull(s, at), alpha, beta);
    hide Apply, Taps, Strong, Decided, LinePlaces, Pull, Places;
    EightPlaces(q, step);
    PulledPlaces(s, at);
    PulledPlaces(t, at);
  }

  lemma EightPlaces(q: int, step: int)
    ensures var at := LinePlaces(q, step, 4);
            && at[0] == q - 4 * step && at[1] == q - 3 * step && at[2] == q - 2 * step && at[3] == q - step
            && at[4] == q && at[5] == q + step && at[6] == q + 2 * step && at[7] == q + 3 * step
  {
  }

  lemma PulledPlaces(s: seq<byte>, at: seq<int>)
    requires Places(at, |s|)
    ensures forall k {:trigger at[k]} {:trigger Pull(s, at)[k]} :: 0 <= k < |at| ==>
              0 <= at[k] < |s| && Pull(s, at)[k] == s[at[k]]
  {
  }

  /** A luma line below strength 4. */
  ghost predicate NewLumaBslt4(s: seq<byte>, t: seq<byte>, q: int, step: int, alpha: int, beta: int, tc0: int) {
    && |t| == |s| && 0 <= q < |s| && 0 <= q + step < |s| && 0 <= q + 2 * step < |s|
    && 0 <= q - step < |s| && 0 <= q - 2 * step < |s| && 0 <= q - 3 * step < |s|
    && var p2: int, p1: int, p0: int := s[q - 3 * step], s[q - 2 * step], s[q - step];
       var q0: int, q1: int, q2: int := s[q], s[q + step], s[q + 2 * step];
       && t[q - 3 * step] == p2 && t[q + 2 * step] == q2
       && if Decided(p1, p0, q0, q1, alpha, beta) then
            && SecondBecomes(p2, p1, p0, q0, beta, tc0, t[q - 2 * step])
            && EdgeBecomes(p1, p0, q0, q1, Tc(p2, p0, q0, q2, beta, tc0), t[q - step], t[q])
            && SecondBecomes(q2, q1, q0, p0, beta, tc0, t[q + step])
          else t[q - 2 * step] == p1 && t[q - step] == p0 && t[q] == q0 && t[q + step] == q1
  }

  ghost predicate EdgeBecomes(p1: int, p0: int, q0: int, q1: int, tc: int, p0': int, q0': int) {
    exists d, c :: EdgeMoves(p1, p0, q0, q1, tc, p0', q0', d, c)
  }

  lemma NewLumaBslt4From(s: seq<byte>, t: seq<byte>, q: int, step: int, alpha: int, beta: int, tc0: byte)
    requires |t| == |s| && Places(LinePlaces(q, step, 3), |s|) && tc0 <= 125
    requires Pull(t, LinePlaces(q, step, 3)) == Apply(LumaBslt4(alpha, beta, tc0), Pull(s, LinePlaces(q, step, 3)))
    ensures NewLumaBslt4(s, t, q, step, alpha, beta, tc0)
  {
    var at := LinePlaces(q, step, 3);
    var d, c := LumaBslt4Moves(Pull(s, at), alpha, beta, tc0);
    hide Apply, SecondBecomes, EdgeMoves, Tc, Decided, LinePlaces, Pull, Places;
    SixPlaces(q, step);
    PulledPlaces(s, at);
    PulledPlaces(t, at);
  }

  lemma SixPlaces(q: int, step: int)
    ensures var at := LinePlaces(q, step, 3);
            && at[0] == q - 3 * step && at[1] == q - 2 * step && at[2] == q - step
            && at[3] == q && at[4] == q + step && at[5] == q + 2 * step
  {
  }

  /** A chroma line at strength 4. */
  predicate NewChromaBs4(s: seq<byte>, t: seq<byte>, q: int, step: int, alpha: int, beta: int) {
    && |t| == |s| && 0 <= q < |s| && 0 <= q + step < |s| && 0 <= q - step < |s| && 0 <= q - 2 * step < |s|
    && var p1: int, p0: int, q0: int, q1: int := s[q - 2 * step], s[q - step], s[q], s[q + step];
       && t[q - 2 * step] == p1 && t[q + step] == q1
       && if Decided(p1, p0, q0, q1, alpha, beta) then
            Rounds(t[q - step], 2 * p1 + p0 + q1, 4) && Rounds(t[q], 2 * q1 + q0 + p1, 4)
          else t[q - step] == p0 && t[q] == q0
  }

  lemma NewChromaBs4From(s: seq<byte>, t: seq<byte>, q: int, step: int, alpha: int, beta: int)
    requires |t| == |s| && Places(LinePlaces(q, step, 2), |s|)
    requires Pull(t, LinePlaces(q, step, 2)) == Apply(ChromaBs4(alpha, beta), Pull(s, LinePlaces(q, step, 2)))
    ensures NewChromaBs4(s, t, q, step, alpha, beta)
  {
    var at := LinePlaces(q, step, 2);
    ChromaBs4Taps(Pull(s, at), alpha, beta);
    hide Apply, Rounds, Decided, LinePlaces, Pull, Places;
    FourPlaces(q, step);
    PulledPlaces(s, at);
    PulledPlaces(t, at);
  }

  lemma FourPlaces(q: int, step: int)
    ensures var at := LinePlaces(q, step, 2);
            at[0] == q - 2 * step && at[1] == q - step && at[2] == q && at[3] == q + step
  {
  }

  /** A chroma line below strength 4. */
  ghost predicate NewChromaBslt4(s: seq<byte>, t: seq<byte>, q: int, step: int, alpha: int, beta: int, tc0: int) {
    && |t| == |s| && 0 <= q < |s| && 0 <= q + step < |s| && 0 <= q - step < |s| && 0 <= q - 2 * step < |s|
    && var p1: int, p0: int, q0: int, q1: int := s[q - 2 * step], s[q - step], s[q], s[q + step];
       && t[q - 2 * step] == p1 && t[q + step] == q1
       && if Decided(p1, p0, q0, q1, alpha, beta) then EdgeBecomes(p1, p0, q0, q1, tc0 + 1, t[q - step], t[q])
          else t[q - step] == p0 && t[q] == q0
  }

  lemma NewChromaBslt4From(s: seq<byte>, t: seq<byte>, q: int, step: int, alpha: int, beta: int, tc0: byte)
    requires |t| == |s| && Places(LinePlaces(q, step, 2), |s|) && tc0 <= 126
    requires Pull(t, LinePlaces(q, step, 2)) == Apply(ChromaBslt4(alpha, beta, tc0), Pull(s, LinePlaces(q, step, 2)))
    ensures NewChromaBslt4(s, t, q, step, alpha, beta, tc0)
  {
    var at := LinePlaces(q, step, 2);
    var d, c := ChromaBslt4Moves(Pull(s, at), alpha, beta, tc0);
    hide Apply, EdgeMoves, Decided, LinePlaces, Pull, Places;
    FourPlaces(q, step);
    PulledPlaces(s, at);
    PulledPlaces(t, at);
  }

  // ---------------------------------------------------------------------------------------
  // Any edge.
  // ---------------------------------------------------------------------------------------

  /** What a filter makes of the line with q0 at `q`. */
  ghost predicate LineBecomes(f: Filter, s: seq<byte>, t: seq<byte>, q: int, step: int) {
    match f
    case LumaBs4(alpha, beta) => NewLumaBs4(s, t, q, step, alpha, beta)
    case LumaBslt4(alpha, beta, tc0) => tc0 <= 125 ==> NewLumaBslt4(s, t, q, step, alpha, beta, tc0)
    case ChromaBs4(alpha, beta) => NewChromaBs4(s, t, q, step, alpha, beta)
    case ChromaBslt4(alpha, beta, tc0) => tc0 <= 126 ==> NewChromaBslt4(s, t, q, step, alpha, beta, tc0)
  }

  lemma LineFrom(f: Filter, s: seq<byte>, t: seq<byte>, q: int, step: int)
    requires |t| == |s| && Places(LinePlaces(q, step, f.Depth()), |s|)
    requires Pull(t, LinePlaces(q, step, f.Depth())) == Apply(f, Pull(s, LinePlaces(q, step, f.Depth())))
    ensures LineBecomes(f, s, t, q, step)
  {
    hide Apply, Places, LinePlaces, NewLumaBs4, NewLumaBslt4, NewChromaBs4, NewChromaBslt4;
    match f
    case LumaBs4(alpha, beta) => NewLumaBs4From(s, t, q, step, alpha, beta);
    case LumaBslt4(alpha, beta, tc0) => if tc0 <= 125 { NewLumaBslt4From(s, t, q, step, alpha, beta, tc0); }
    case ChromaBs4(alpha, beta) => NewChromaBs4From(s, t, q, step, alpha, beta);
    case ChromaBslt4(alpha, beta, tc0) => if tc0 <= 126 { NewChromaBslt4From(s, t, q, step, alpha, beta, tc0); }
  }

  /** The edge's lines lie in the buffer and share no sample. */
  ghost predicate Separate(s: seq<byte>, e: Edge, plan: Plan) { AllFit(Jobs(e, plan), |s|) && LinesApart(e, plan) }

  ghost function Filtered(s: seq<byte>, e: Edge, plan: Plan): (t: seq<byte>)
    requires AllFit(Jobs(e, plan), |s|)
    ensures |t| == |s|
  {
    Run(s, Jobs(e, plan))
  }

  lemma LineInBuffer(s: seq<byte>, e: Edge, plan: Plan, n: nat, i: nat)
    requires Separate(s, e, plan) && n < |plan| && i < |plan[n]|
    ensures LineBecomes(plan[n][i].filter, s, Filtered(s, e, plan), e.Line(n) + plan[n][i].offset, e.step)
  {
    hide Run, Jobs, AllFit, LinesApart, Apply, Places, LinePlaces, LineBecomes, Edge.Line;
    EveryLineFiltered(s, e, plan, n, i);
    LineFrom(plan[n][i].filter, s, Filtered(s, e, plan), e.Line(n) + plan[n][i].offset, e.step);
  }

  /** A line that the plan leaves out keeps its samples, if it lies apart from the others. */
  lemma SkippedLineKept(s: seq<byte>, e: Edge, plan: Plan, n: nat, planes: seq<Plane>, i: nat)
    requires Separate(s, e, plan) && n < |plan| && plan[n] == [] && LinesApart(e, plan[n := planes]) && i < |planes|
    ensures LineKept(s, Filtered(s, e, plan), e.Line(n) + planes[i].offset, e.step, planes[i].filter.Depth())
  {
    hide Run, Jobs, AllFit, LinesApart, LinePlaces, Edge.Line;
    var at := LinePlaces(e.Line(n) + planes[i].offset, e.step, planes[i].filter.Depth());
    forall k | 0 <= k < |at| && 0 <= at[k] < |s| ensures Run(s, Jobs(e, plan))[at[k]] == s[at[k]] {
      NotOnOthers(e, plan, n, planes, i, at[k]);
      NothingElseTouched(s, e, plan, at[k]);
    }
  }

  lemma NotOnOthers(e: Edge, plan: Plan, n: nat, planes: seq<Plane>, i: nat, x: int)
    requires n < |plan| && plan[n] == [] && LinesApart(e, plan[n := planes]) && i < |planes|
    requires x in LinePlaces(e.Line(n) + planes[i].offset, e.step, planes[i].filter.Depth())
    ensures forall m, j :: 0 <= m < |plan| && 0 <= j < |plan[m]| ==> x !in PlacesOf(e, plan, m, j)
  {
    hide LinePlaces, Edge.Line;
    var full := plan[n := planes];
    assert x in PlacesOf(e, full, n, i);
    forall m, j | 0 <= m < |plan| && 0 <= j < |plan[m]| ensures x !in PlacesOf(e, plan, m, j) {
      assert Apart(PlacesOf(e, full, n, i), PlacesOf(e, full, m, j));
      assert PlacesOf(e, full, m, j) == PlacesOf(e, plan, m, j);
    }
  }

  // ---------------------------------------------------------------------------------------
  // Luma. Line `n` of a vertical edge lies along row `n`, of a horizontal one down column `n`.
  // ---------------------------------------------------------------------------------------

  lemma Lines(src: int, strd: int, n: int)
    ensures LumaVert(src, strd).Line(n) == src + n * strd && LumaVert(src, strd).step == 1
    ensures LumaHorz(src, strd).Line(n) == src + n && LumaHorz(src, strd).step == strd
    ensures ChromaVert(src, strd).Line(n) == src + n * strd && ChromaVert(src, strd).step == 2
    ensures ChromaHorz(src, strd).Line(n) == src + 2 * n && ChromaHorz(src, strd).step == strd
  {
  }

  lemma LumaBs4InBuffer(s: seq<byte>, e: Edge, alpha: int, beta: int, n: nat)
    requires Separate(s, e, LumaEven(16, alpha, beta)) && n < 16
    ensures NewLumaBs4(s, Filtered(s, e, LumaEven(16, alpha, beta)), e.Line(n), e.step, alpha, beta)
  {
    var plan := LumaEven(16, alpha, beta);
    assert plan[n] == [Plane(0, LumaBs4(alpha, beta))];
    hide Separate, Filtered, LumaEven, NewLumaBs4, Edge.Line;
    LineInBuffer(s, e, plan, n, 0);
  }

  lemma LumaVertBs4Buffer(s: seq<byte>, src: int, strd: int, alpha: int, beta: int, n: nat)
    requires AllFit(Jobs(LumaVert(src, strd), LumaEven(16, alpha, beta)), |s|) && Abs(strd) >= 8 && n < 16
    ensures NewLumaBs4(s, Filtered(s, LumaVert(src, strd), LumaEven(16, alpha, beta)), src + n * strd, 1, alpha, beta)
  {
    hide Run, Jobs, AllFit, LinesApart, NewLumaBs4, Filtered, Edge.Line, LumaVert;
    LumaVertApart(src, strd, LumaEven(16, alpha, beta), 16, 4);
    Lines(src, strd, n);
    LumaBs4InBuffer(s, LumaVert(src, strd), alpha, beta, n);
  }

  lemma LumaHorzBs4Buffer(s: seq<byte>, src: int, strd: int, alpha: int, beta: int, n: nat)
    requires AllFit(Jobs(LumaHorz(src, strd), LumaEven(16, alpha, beta)), |s|) && Abs(strd) >= 16 && n < 16
    ensures NewLumaBs4(s, Filtered(s, LumaHorz(src, strd), LumaEven(16, alpha, beta)), src + n, strd, alpha, beta)
  {
    hide Run, Jobs, AllFit, LinesApart, NewLumaBs4, Filtered, Edge.Line, LumaHorz;
    LumaHorzApart(src, strd, LumaEven(16, alpha, beta), 16, 4);
    Lines(src, strd, n);
    LumaBs4InBuffer(s, LumaHorz(src, strd), alpha, beta, n);
  }

  /** The strengths of an edge's four pieces, as they are packed into `u4_bs`. */
  function Packed(b: seq<byte>): nat
    requires |b| == 4
  {
    0x100_0000 * (b[0] as int) + 0x1_0000 * (b[1] as int) + 0x100 * (b[2] as int) + b[3]
  }

  lemma PackedPiece(b: seq<byte>, piece: nat)
    requires |b| == 4 && piece < 4
    ensures BsByte(Packed(b), piece) == b[piece]
  {
    PackedBytes(b[0], b[1], b[2], b[3]);
    hide BsByte;
    assert Packed(b) == PackBs(b[0], b[1], b[2], b[3]);
  }

  lemma PieceIs(n: nat, per: nat)
    requires (per == 1 || per == 2 || per == 4) && n < 4 * per
    ensures Piece(n, per) == n / per
  {
  }

  /** What becomes of line `n` of a luma edge below strength 4, `per` lines to a piece: with strength 0 nothing, else what
      the strength's entry in the table says. */
  ghost predicate LumaPieceLine(s: seq<byte>, t: seq<byte>, q: int, step: int, alpha: int, beta: int, b: byte,
                                table: seq<byte>)
  {
    && |t| == |s|
    && (b == 0 ==> LineKept(s, t, q, step, 3))
    && (0 < b < |table| && table[b] <= 125 ==> NewLumaBslt4(s, t, q, step, alpha, beta, table[b]))
  }

  /** The edge with line `n` filled in, if its strength is 0. */
  ghost predicate SeparateWith(s: seq<byte>, e: Edge, plan: Plan, n: nat, planes: seq<Plane>)
    requires n < |plan|
  {
    Separate(s, e, plan) && LinesApart(e, plan[n := planes])
  }

  lemma LumaPieceInBuffer(s: seq<byte>, e: Edge, per: nat, alpha: int, beta: int, b: seq<byte>, table: seq<byte>,
                          n: nat)
    requires |b| == 4 && per > 0 && n < 4 * per && TableCovers(Packed(b), table)
    requires SeparateWith(s, e, LumaPlan(per, alpha, beta, Packed(b), table), n, Luma(LumaBslt4(alpha, beta, 0)))
    ensures LumaPieceLine(s, Filtered(s, e, LumaPlan(per, alpha, beta, Packed(b), table)), e.Line(n), e.step,
                          alpha, beta, b[Piece(n, per)], table)
  {
    hide Separate, AllFit, Jobs, LinesApart, Filtered, NewLumaBslt4, LineKept, Edge.Line, BsByte, Packed;
    var plan := LumaPlan(per, alpha, beta, Packed(b), table);
    PackedPiece(b, Piece(n, per));
    LumaPlanAt(per, alpha, beta, b, table, n);
    hide LumaPlan, TableCovers;
    if b[Piece(n, per)] == 0 {
      SkippedLineKept(s, e, plan, n, Luma(LumaBslt4(alpha, beta, 0)), 0);
    } else {
      LineInBuffer(s, e, plan, n, 0);
    }
  }

  lemma LumaPlanAt(per: nat, alpha: int, beta: int, b: seq<byte>, table: seq<byte>, n: nat)
    requires |b| == 4 && per > 0 && n < 4 * per && TableCovers(Packed(b), table)
    ensures b[Piece(n, per)] == 0 || b[Piece(n, per)] < |table|
    ensures LumaPlan(per, alpha, beta, Packed(b), table)[n] ==
            if b[Piece(n, per)] == 0 then [] else [Plane(0, LumaBslt4(alpha, beta, table[b[Piece(n, per)]]))]
  {
    PackedPiece(b, Piece(n, per));
    hide BsByte, Packed;
  }

  lemma StillRegular(plan: Plan, lines: nat, planes: nat, d: nat, n: nat, line: seq<Plane>)
    requires Regular(plan, lines, planes, d) && n < |plan| && RegularLine(line, planes, d)
    ensures Regular(plan[n := line], lines, planes, d)
  {
  }

  lemma LumaVertBslt4Buffer(s: seq<byte>, src: int, strd: int, alpha: int, beta: int, b: seq<byte>, table: seq<byte>,
                            n: nat)
    requires |b| == 4 && n < 16 && TableCovers(Packed(b), table) && Abs(strd) >= 6
    requires AllFit(Jobs(LumaVert(src, strd), LumaPlan(4, alpha, beta, Packed(b), table)), |s|)
    ensures LumaPieceLine(s, Filtered(s, LumaVert(src, strd), LumaPlan(4, alpha, beta, Packed(b), table)),
                          src + n * strd, 1, alpha, beta, b[n / 4], table)
  {
    hide Run, Jobs, AllFit, LinesApart, Packed, TableCovers, BsByte, LumaPieceLine, Filtered, Edge.Line, LumaVert,
      LumaPlan, Regular;
    var plan, planes := LumaPlan(4, alpha, beta, Packed(b), table), Luma(LumaBslt4(alpha, beta, 0));
    LumaPlansRegular(16, 4, alpha, beta, Packed(b), table);
    LumaVertApart(src, strd, plan, 16, 3);
    StillRegular(plan, 16, 1, 3, n, planes);
    LumaVertApart(src, strd, plan[n := planes], 16, 3);
    Lines(src, strd, n);
    PieceIs(n, 4);
    LumaPieceInBuffer(s, LumaVert(src, strd), 4, alpha, beta, b, table, n);
  }

  lemma LumaHorzBslt4Buffer(s: seq<byte>, src: int, strd: int, alpha: int, beta: int, b: seq<byte>, table: seq<byte>,
                            n: nat)
    requires |b| == 4 && n < 16 && TableCovers(Packed(b), table) && Abs(strd) >= 16
    requires AllFit(Jobs(LumaHorz(src, strd), LumaPlan(4, alpha, beta, Packed(b), table)), |s|)
    ensures LumaPieceLine(s, Filtered(s, LumaHorz(src, strd), LumaPlan(4, alpha, beta, Packed(b), table)),
                          src + n, strd, alpha, beta, b[n / 4], table)
  {
    hide Run, Jobs, AllFit, LinesApart, Packed, TableCovers, BsByte, LumaPieceLine, Filtered, Edge.Line, LumaHorz,
      LumaPlan, Regular;
    var plan, planes := LumaPlan(4, alpha, beta, Packed(b), table), Luma(LumaBslt4(alpha, beta, 0));
    LumaPlansRegular(16, 4, alpha, beta, Packed(b), table);
    LumaHorzApart(src, strd, plan, 16, 3);
    StillRegular(plan, 16, 1, 3, n, planes);
    LumaHorzApart(src, strd, plan[n := planes], 16, 3);
    Lines(src, strd, n);
    PieceIs(n, 4);
    LumaPieceInBuffer(s, LumaHorz(src, strd), 4, alpha, beta, b, table, n);
  }

  // ---------------------------------------------------------------------------------------
  // Chroma: U lines at even distances, V lines (`c` = 1) one sample on. Samples of a plane are 2 apart in a row.
  // ---------------------------------------------------------------------------------------

  lemma ChromaBs4InBuffer(s: seq<byte>, e: Edge, alphaCb: int, betaCb: int, alphaCr: int, betaCr: int, n: nat)
    requires Separate(s, e, ChromaEven(8, alphaCb, betaCb, alphaCr, betaCr)) && n < 8
    ensures var t := Filtered(s, e, ChromaEven(8, alphaCb, betaCb, alphaCr, betaCr));
            && NewChromaBs4(s, t, e.Line(n), e.step, alphaCb, betaCb)
            && NewChromaBs4(s, t, e.Line(n) + 1, e.step, alphaCr, betaCr)
  {
    var plan := ChromaEven(8, alphaCb, betaCb, alphaCr, betaCr);
    assert plan[n] == [Plane(0, ChromaBs4(alphaCb, betaCb)), Plane(1, ChromaBs4(alphaCr, betaCr))];
    hide Separate, Filtered, ChromaEven, NewChromaBs4, Edge.Line;
    LineInBuffer(s, e, plan, n, 0);
    LineInBuffer(s, e, plan, n, 1);
  }

  lemma ChromaVertBs4Buffer(s: seq<byte>, src: int, strd: int, alphaCb: int, betaCb: int, alphaCr: int, betaCr: int,
                            n: nat)
    requires AllFit(Jobs(ChromaVert(src, strd), ChromaEven(8, alphaCb, betaCb, alphaCr, betaCr)), |s|)
    requires Abs(strd) >= 8 && n < 8
    ensures var t := Filtered(s, ChromaVert(src, strd), ChromaEven(8, alphaCb, betaCb, alphaCr, betaCr));
            && NewChromaBs4(s, t, src + n * strd, 2, alphaCb, betaCb)
            && NewChromaBs4(s, t, src + n * strd + 1, 2, alphaCr, betaCr)
  {
    hide Run, Jobs, AllFit, LinesApart, NewChromaBs4, Filtered, Edge.Line, ChromaVert;
    ChromaVertApart(src, strd, ChromaEven(8, alphaCb, betaCb, alphaCr, betaCr), 8);
    Lines(src, strd, n);
    ChromaBs4InBuffer(s, ChromaVert(src, strd), alphaCb, betaCb, alphaCr, betaCr, n);
  }

  lemma ChromaHorzBs4Buffer(s: seq<byte>, src: int, strd: int, alphaCb: int, betaCb: int, alphaCr: int, betaCr: int,
                            n: nat)
    requires AllFit(Jobs(ChromaHorz(src, strd), ChromaEven(8, alphaCb, betaCb, alphaCr, betaCr)), |s|)
    requires Abs(strd) >= 16 && n < 8
    ensures var t := Filtered(s, ChromaHorz(src, strd), ChromaEven(8, alphaCb, betaCb, alphaCr, betaCr));
            && NewChromaBs4(s, t, src + 2 * n, strd, alphaCb, betaCb)
            && NewChromaBs4(s, t, src + 2 * n + 1, strd, alphaCr, betaCr)
  {
    hide Run, Jobs, AllFit, LinesApart, NewChromaBs4, Filtered, Edge.Line, ChromaHorz;
    ChromaHorzApart(src, strd, ChromaEven(8, alphaCb, betaCb, alphaCr, betaCr), 8);
    Lines(src, strd, n);
    ChromaBs4InBuffer(s, ChromaHorz(src, strd), alphaCb, betaCb, alphaCr, betaCr, n);
  }

  ghost predicate ChromaPieceLine(s: seq<byte>, t: seq<byte>, q: int, step: int, alpha: int, beta: int, b: byte,
                                  table: seq<byte>)
  {
    && |t| == |s|
    && (b == 0 ==> LineKept(s, t, q, step, 2))
    && (0 < b < |table| && table[b] <= 126 ==> NewChromaBslt4(s, t, q, step, alpha, beta, table[b]))
  }

  lemma ChromaPieceInBuffer(s: seq<byte>, e: Edge, per: nat, alphaCb: int, betaCb: int, alphaCr: int, betaCr: int,
                            b: seq<byte>, tableCb: seq<byte>, tableCr: seq<byte>, n: nat)
    requires |b| == 4 && per > 0 && n < 4 * per
    requires TableCovers(Packed(b), tableCb) && TableCovers(Packed(b), tableCr)
    requires SeparateWith(s, e, ChromaPlan(per, alphaCb, betaCb, alphaCr, betaCr, Packed(b), tableCb, tableCr), n,
                          Chroma(ChromaBs4(0, 0), ChromaBs4(0, 0)))
    ensures var t := Filtered(s, e, ChromaPlan(per, alphaCb, betaCb, alphaCr, betaCr, Packed(b), tableCb, tableCr));
            && ChromaPieceLine(s, t, e.Line(n), e.step, alphaCb, betaCb, b[Piece(n, per)], tableCb)
            && ChromaPieceLine(s, t, e.Line(n) + 1, e.step, alphaCr, betaCr, b[Piece(n, per)], tableCr)
  {
    hide Separate, AllFit, Jobs, LinesApart, Filtered, NewChromaBslt4, LineKept, Edge.Line, BsByte, Packed;
    var plan := ChromaPlan(per, alphaCb, betaCb, alphaCr, betaCr, Packed(b), tableCb, tableCr);
    PackedPiece(b, Piece(n, per));
    ChromaPlanAt(per, alphaCb, betaCb, alphaCr, betaCr, b, tableCb, tableCr, n);
    hide ChromaPlan, TableCovers;
    if b[Piece(n, per)] == 0 {
      var planes := Chroma(ChromaBs4(0, 0), ChromaBs4(0, 0));
      assert |planes| == 2 && planes[0].offset == 0 && planes[1].offset == 1;
      SkippedLineKept(s, e, plan, n, planes, 0);
      SkippedLineKept(s, e, plan, n, planes, 1);
    } else {
      assert |plan[n]| == 2 && plan[n][0].offset == 0 && plan[n][1].offset == 1;
      LineInBuffer(s, e, plan, n, 0);
      LineInBuffer(s, e, plan, n, 1);
    }
  }

  lemma ChromaPlanAt(per: nat, alphaCb: int, betaCb: int, alphaCr: int, betaCr: int, b: seq<byte>,
                     tableCb: seq<byte>, tableCr: seq<byte>, n: nat)
    requires |b| == 4 && per > 0 && n < 4 * per
    requires TableCovers(Packed(b), tableCb) && TableCovers(Packed(b), tableCr)
    ensures b[Piece(n, per)] == 0 || (b[Piece(n, per)] < |tableCb| && b[Piece(n, per)] < |tableCr|)
    ensures ChromaPlan(per, alphaCb, betaCb, alphaCr, betaCr, Packed(b), tableCb, tableCr)[n] ==
            if b[Piece(n, per)] == 0 then []
            else [Plane(0, ChromaBslt4(alphaCb, betaCb, tableCb[b[Piece(n, per)]])),
                  Plane(1, ChromaBslt4(alphaCr, betaCr, tableCr[b[Piece(n, per)]]))]
  {
    PackedPiece(b, Piece(n, per));
    hide BsByte, Packed;
  }

  lemma ChromaVertBslt4Buffer(s: seq<byte>, src: int, strd: int, alphaCb: int, betaCb: int, alphaCr: int, betaCr: int,
                              b: seq<byte>, tableCb: seq<byte>, tableCr: seq<byte>, n: nat)
    requires |b| == 4 && n < 8 && Abs(strd) >= 8
    requires TableCovers(Packed(b), tableCb) && TableCovers(Packed(b), tableCr)
    requires AllFit(Jobs(ChromaVert(src, strd),
                         ChromaPlan(2, alphaCb, betaCb, alphaCr, betaCr, Packed(b), tableCb, tableCr)), |s|)
    ensures var t := Filtered(s, ChromaVert(src, strd),
                              ChromaPlan(2, alphaCb, betaCb, alphaCr, betaCr, Packed(b), tableCb, tableCr));
            && ChromaPieceLine(s, t, src + n * strd, 2, alphaCb, betaCb, b[n / 2], tableCb)
            && ChromaPieceLine(s, t, src + n * strd + 1, 2, alphaCr, betaCr, b[n / 2], tableCr)
  {
    hide Run, Jobs, AllFit, LinesApart, Packed, TableCovers, BsByte, ChromaPieceLine, Filtered, Edge.Line, ChromaVert,
      ChromaPlan, Regular;
    var plan := ChromaPlan(2, alphaCb, betaCb, alphaCr, betaCr, Packed(b), tableCb, tableCr);
    var planes := Chroma(ChromaBs4(0, 0), ChromaBs4(0, 0));
    ChromaPlansRegular(8, 2, alphaCb, betaCb, alphaCr, betaCr, Packed(b), tableCb, tableCr);
    ChromaVertApart(src, strd, plan, 8);
    StillRegular(plan, 8, 2, 2, n, planes);
    ChromaVertApart(src, strd, plan[n := planes], 8);
    Lines(src, strd, n);
    PieceIs(n, 2);
    ChromaPieceInBuffer(s, ChromaVert(src, strd), 2, alphaCb, betaCb, alphaCr, betaCr, b, tableCb, tableCr, n);
  }

  lemma ChromaHorzBslt4Buffer(s: seq<byte>, src: int, strd: int, alphaCb: int, betaCb: int, alphaCr: int, betaCr: int,
                              b: seq<byte>, tableCb: seq<byte>, tableCr: seq<byte>, n: nat)
    requires |b| == 4 && n < 8 && Abs(strd) >= 16
    requires TableCovers(Packed(b), tableCb) && TableCovers(Packed(b), tableCr)
    requires AllFit(Jobs(ChromaHorz(src, strd),
                         ChromaPlan(2, alphaCb, betaCb, alphaCr, betaCr, Packed(b), tableCb, tableCr)), |s|)
    ensures var t := Filtered(s, ChromaHorz(src, strd),
                              ChromaPlan(2, alphaCb, betaCb, alphaCr, betaCr, Packed(b), tableCb, tableCr));
            && ChromaPieceLine(s, t, src + 2 * n, strd, alphaCb, betaCb, b[n / 2], tableCb)
            && ChromaPieceLine(s, t, src + 2 * n + 1, strd, alphaCr, betaCr, b[n / 2], tableCr)
  {
    hide Run, Jobs, AllFit, LinesApart, Packed, TableCovers, BsByte, ChromaPieceLine, Filtered, Edge.Line, ChromaHorz,
      ChromaPlan, Regular;
    var plan := ChromaPlan(2, alphaCb, betaCb, alphaCr, betaCr, Packed(b), tableCb, tableCr);
    var planes := Chroma(ChromaBs4(0, 0), ChromaBs4(0, 0));
    ChromaPlansRegular(8, 2, alphaCb, betaCb, alphaCr, betaCr, Packed(b), tableCb, tableCr);
    ChromaHorzApart(src, strd, plan, 8);
    StillRegular(plan, 8, 2, 2, n, planes);
    ChromaHorzApart(src, strd, plan[n := planes], 8);
    Lines(src, strd, n);
    PieceIs(n, 2);
    ChromaPieceInBuffer(s, ChromaHorz(src, strd), 2, alphaCb, betaCb, alphaCr, betaCr, b, tableCb, tableCr, n);
  }

  // ---------------------------------------------------------------------------------------
  // Strides of 1: the U line and the V line of a pair share three samples.
  // ---------------------------------------------------------------------------------------

  /** Both lines are read before either is stored, and V is stored last: of the shared samples, the two at V's edge are
      V's if the V line is filtered. */
  lemma PairOfStrideOne(s: seq<byte>, u: Job, v: Job, q: int)
    requires u.filter.ChromaBs4? || u.filter.ChromaBslt4?
    requires v.filter.ChromaBs4? || v.filter.ChromaBslt4?
    requires u.Fits(|s|) && v.Fits(|s|) && u.at == [q - 2, q - 1, q, q + 1] && v.at == [q - 1, q, q + 1, q + 2]
    requires 2 <= q < |s| - 2
    ensures var uLine, vLine := [s[q - 2], s[q - 1], s[q], s[q + 1]], [s[q - 1], s[q], s[q + 1], s[q + 2]];
            var r, fu, fv := RunPair(s, u, v), ChromaFilters(u.filter, uLine), ChromaFilters(v.filter, vLine);
            && r[q - 1] == (if fu then Apply(u.filter, uLine)[1] else s[q - 1])
            && r[q] == (if fv then Apply(v.filter, vLine)[1] else if fu then Apply(u.filter, uLine)[2] else s[q])
            && r[q + 1] == (if fv then Apply(v.filter, vLine)[2] else s[q + 1])
            && forall x :: 0 <= x < |s| && !(q - 1 <= x <= q + 1) ==> r[x] == s[x]
  {
    assert u.at[0] == q - 2 && u.at[1] == q - 1 && u.at[2] == q && u.at[3] == q + 1;
    assert v.at[0] == q - 1 && v.at[1] == q && v.at[2] == q + 1 && v.at[3] == q + 2;
    assert Pull(s, u.at) == [s[q - 2], s[q - 1], s[q], s[q + 1]];
    assert Pull(s, v.at) == [s[q - 1], s[q], s[q + 1], s[q + 2]];
    hide Apply, ChromaFilters;
  }
}
