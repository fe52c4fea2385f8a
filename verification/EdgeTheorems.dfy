/** What holds of the filters' own edges: the theorems about lists of lines, at the layouts and plans of the eighteen
    filters. */
module EdgeTheorems {
  import opened CInt
  import opened LineFilters
  import opened LineJobs
  import opened EdgePlans
  import opened EdgeGeometry
  import opened DeblockTheorems
  import opened ChromaPlanes

  // ---------------------------------------------------------------------------------------
  // The plans are regular.
  // ---------------------------------------------------------------------------------------

  lemma LumaPlansRegular(lines: nat, per: nat, alpha: int, beta: int, bs: nat, table: seq<byte>)
    requires per > 0 && TableCovers(bs, table)
    ensures Regular(LumaEven(lines, alpha, beta), lines, 1, 4)
    ensures Regular(LumaPlan(per, alpha, beta, bs, table), 4 * per, 1, 3)
  {
    hide BsByte;
  }

  lemma ChromaPlansRegular(lines: nat, per: nat, alphaCb: int, betaCb: int, alphaCr: int, betaCr: int,
                           bs: nat, tableCb: seq<byte>, tableCr: seq<byte>)
    requires per > 0 && TableCovers(bs, tableCb) && TableCovers(bs, tableCr)
    ensures Regular(ChromaEven(lines, alphaCb, betaCb, alphaCr, betaCr), lines, 2, 2)
    ensures Regular(ChromaPlan(per, alphaCb, betaCb, alphaCr, betaCr, bs, tableCb, tableCr), 4 * per, 2, 2)
    ensures Interleaved(ChromaEven(lines, alphaCb, betaCb, alphaCr, betaCr))
    ensures Interleaved(ChromaPlan(per, alphaCb, betaCb, alphaCr, betaCr, bs, tableCb, tableCr))
  {
    hide BsByte;
  }

  // ---------------------------------------------------------------------------------------
  // Transposition: the vertical filter is called on the neighbourhood, a small buffer of its own.
  // ---------------------------------------------------------------------------------------

  /** `at` is seen through, filtered as `vertical`, and put back: that is what `horizontal` does. */
  ghost predicate Transposes(s: seq<byte>, at: seq<int>, horizontal: seq<Job>, vertical: seq<Job>) {
    && Places(at, |s|) && AllFit(horizontal, |s|) && AllFit(vertical, |at|)
    && Run(s, horizontal) == Push(s, at, Run(Pull(s, at), vertical))
  }

  /** ih264_deblk_luma_horz_bs4 is ih264_deblk_luma_vert_bs4 transposed. */
  lemma LumaBs4Transposes(s: seq<byte>, src: int, strd: int, alpha: int, beta: int)
    requires AllFit(Jobs(LumaHorz(src, strd), LumaEven(16, alpha, beta)), |s|)
    requires Places(Neighbourhood(src, strd, 16, 1, 4), |s|)
    ensures Transposes(s, Neighbourhood(src, strd, 16, 1, 4), Jobs(LumaHorz(src, strd), LumaEven(16, alpha, beta)),
                       Jobs(LumaVert(4, 8), LumaEven(16, alpha, beta)))
  {
    HorizontalIsTransposedVertical(s, src, strd, LumaEven(16, alpha, beta), 16, 1, 4);
  }

  /** And ih264_deblk_luma_horz_bslt4 is ih264_deblk_luma_vert_bslt4 transposed. */
  lemma LumaBslt4Transposes(s: seq<byte>, src: int, strd: int, alpha: int, beta: int, bs: nat, table: seq<byte>)
    requires TableCovers(bs, table)
    requires AllFit(Jobs(LumaHorz(src, strd), LumaPlan(4, alpha, beta, bs, table)), |s|)
    requires Places(Neighbourhood(src, strd, 16, 1, 3), |s|)
    ensures Transposes(s, Neighbourhood(src, strd, 16, 1, 3),
                       Jobs(LumaHorz(src, strd), LumaPlan(4, alpha, beta, bs, table)),
                       Jobs(LumaVert(3, 6), LumaPlan(4, alpha, beta, bs, table)))
  {
    LumaPlansRegular(16, 4, alpha, beta, bs, table);
    HorizontalIsTransposedVertical(s, src, strd, LumaPlan(4, alpha, beta, bs, table), 16, 1, 3);
  }

  lemma ChromaBs4Transposes(s: seq<byte>, src: int, strd: int, alphaCb: int, betaCb: int, alphaCr: int, betaCr: int)
    requires AllFit(Jobs(ChromaHorz(src, strd), ChromaEven(8, alphaCb, betaCb, alphaCr, betaCr)), |s|)
    requires Places(Neighbourhood(src, strd, 8, 2, 2), |s|)
    ensures var plan := ChromaEven(8, alphaCb, betaCb, alphaCr, betaCr);
            Transposes(s, Neighbourhood(src, strd, 8, 2, 2), Jobs(ChromaHorz(src, strd), plan),
                       Jobs(ChromaVert(4, 8), plan))
  {
    HorizontalIsTransposedVertical(s, src, strd, ChromaEven(8, alphaCb, betaCb, alphaCr, betaCr), 8, 2, 2);
  }

  lemma ChromaBslt4Transposes(s: seq<byte>, src: int, strd: int, alphaCb: int, betaCb: int, alphaCr: int, betaCr: int,
                              bs: nat, tableCb: seq<byte>, tableCr: seq<byte>)
    requires TableCovers(bs, tableCb) && TableCovers(bs, tableCr)
    requires AllFit(Jobs(ChromaHorz(src, strd),
                         ChromaPlan(2, alphaCb, betaCb, alphaCr, betaCr, bs, tableCb, tableCr)), |s|)
    requires Places(Neighbourhood(src, strd, 8, 2, 2), |s|)
    ensures var plan := ChromaPlan(2, alphaCb, betaCb, alphaCr, betaCr, bs, tableCb, tableCr);
            Transposes(s, Neighbourhood(src, strd, 8, 2, 2), Jobs(ChromaHorz(src, strd), plan),
                       Jobs(ChromaVert(4, 8), plan))
  {
    ChromaPlansRegular(8, 2, alphaCb, betaCb, alphaCr, betaCr, bs, tableCb, tableCr);
    HorizontalIsTransposedVertical(s, src, strd,
                                   ChromaPlan(2, alphaCb, betaCb, alphaCr, betaCr, bs, tableCb, tableCr), 8, 2, 2);
  }

  // ---------------------------------------------------------------------------------------
  // The two fields: an MBAFF filter called on every other line, twice.
  // ---------------------------------------------------------------------------------------

  ghost predicate MakeWhole(s: seq<byte>, top: seq<Job>, bottom: seq<Job>, full: seq<Job>) {
    && AllFit(top, |s|) && AllFit(bottom, |s|) && AllFit(full, |s|)
    && Run(Run(s, top), bottom) == Run(s, full)
  }

  lemma FieldEdges(src: int, strd: int)
    ensures FieldEdge(LumaVert(src, strd), 0) == LumaVert(src, 2 * strd)
    ensures FieldEdge(LumaVert(src, strd), 1) == LumaVert(src + strd, 2 * strd)
    ensures FieldEdge(ChromaVert(src, strd), 0) == ChromaVert(src, 2 * strd)
    ensures FieldEdge(ChromaVert(src, strd), 1) == ChromaVert(src + strd, 2 * strd)
  {
  }

  lemma LumaFieldsBs4(s: seq<byte>, src: int, strd: int, alpha: int, beta: int)
    requires AllFit(Jobs(LumaVert(src, strd), LumaEven(16, alpha, beta)), |s|) && Abs(strd) >= 8
    ensures MakeWhole(s, Jobs(LumaVert(src, 2 * strd), LumaEven(8, alpha, beta)),
                      Jobs(LumaVert(src + strd, 2 * strd), LumaEven(8, alpha, beta)),
                      Jobs(LumaVert(src, strd), LumaEven(16, alpha, beta)))
  {
    var e, plan := LumaVert(src, strd), LumaEven(16, alpha, beta);
    LumaVertApart(src, strd, plan, 16, 4);
    hide Jobs, Run, AllFit, LinesApart, Field, FieldEdge, LumaVert, LumaEven;
    FieldEdges(src, strd);
    FieldsMakeWhole(s, e, plan);
    EvenFields(alpha, beta);
  }

  lemma EvenFields(alpha: int, beta: int)
    ensures Field(LumaEven(16, alpha, beta), 0) == Field(LumaEven(16, alpha, beta), 1) == LumaEven(8, alpha, beta)
  {
  }

  lemma LumaFieldsBslt4(s: seq<byte>, src: int, strd: int, alpha: int, beta: int, bs: nat, table: seq<byte>)
    requires TableCovers(bs, table) && Abs(strd) >= 6
    requires AllFit(Jobs(LumaVert(src, strd), LumaPlan(4, alpha, beta, bs, table)), |s|)
    ensures MakeWhole(s, Jobs(LumaVert(src, 2 * strd), LumaPlan(2, alpha, beta, bs, table)),
                      Jobs(LumaVert(src + strd, 2 * strd), LumaPlan(2, alpha, beta, bs, table)),
                      Jobs(LumaVert(src, strd), LumaPlan(4, alpha, beta, bs, table)))
  {
    var e, plan := LumaVert(src, strd), LumaPlan(4, alpha, beta, bs, table);
    LumaPlansRegular(16, 4, alpha, beta, bs, table);
    LumaVertApart(src, strd, plan, 16, 3);
    hide BsByte, TableCovers, Jobs, Run, AllFit, LinesApart, Field, FieldEdge, LumaVert, LumaPlan;
    FieldEdges(src, strd);
    FieldsMakeWhole(s, e, plan);
    FieldPlans(alpha, beta, bs, table, 0);
    FieldPlans(alpha, beta, bs, table, 1);
  }

  lemma ChromaFieldsBs4(s: seq<byte>, src: int, strd: int, alphaCb: int, betaCb: int, alphaCr: int, betaCr: int)
    requires AllFit(Jobs(ChromaVert(src, strd), ChromaEven(8, alphaCb, betaCb, alphaCr, betaCr)), |s|) && Abs(strd) >= 8
    ensures var half := ChromaEven(4, alphaCb, betaCb, alphaCr, betaCr);
            MakeWhole(s, Jobs(ChromaVert(src, 2 * strd), half), Jobs(ChromaVert(src + strd, 2 * strd), half),
                      Jobs(ChromaVert(src, strd), ChromaEven(8, alphaCb, betaCb, alphaCr, betaCr)))
  {
    var e, plan := ChromaVert(src, strd), ChromaEven(8, alphaCb, betaCb, alphaCr, betaCr);
    ChromaVertApart(src, strd, plan, 8);
    hide Jobs, Run, AllFit, LinesApart, Field, FieldEdge, ChromaVert, ChromaEven;
    FieldEdges(src, strd);
    FieldsMakeWhole(s, e, plan);
    ChromaEvenFields(alphaCb, betaCb, alphaCr, betaCr);
  }

  lemma ChromaEvenFields(alphaCb: int, betaCb: int, alphaCr: int, betaCr: int)
    ensures var plan := ChromaEven(8, alphaCb, betaCb, alphaCr, betaCr);
            Field(plan, 0) == Field(plan, 1) == ChromaEven(4, alphaCb, betaCb, alphaCr, betaCr)
  {
  }

  lemma ChromaFieldsBslt4(s: seq<byte>, src: int, strd: int, alphaCb: int, betaCb: int, alphaCr: int, betaCr: int,
                          bs: nat, tableCb: seq<byte>, tableCr: seq<byte>)
    requires TableCovers(bs, tableCb) && TableCovers(bs, tableCr) && Abs(strd) >= 8
    requires AllFit(Jobs(ChromaVert(src, strd),
                         ChromaPlan(2, alphaCb, betaCb, alphaCr, betaCr, bs, tableCb, tableCr)), |s|)
    ensures var half := ChromaPlan(1, alphaCb, betaCb, alphaCr, betaCr, bs, tableCb, tableCr);
            MakeWhole(s, Jobs(ChromaVert(src, 2 * strd), half), Jobs(ChromaVert(src + strd, 2 * strd), half),
                      Jobs(ChromaVert(src, strd),
                           ChromaPlan(2, alphaCb, betaCb, alphaCr, betaCr, bs, tableCb, tableCr)))
  {
    var e, plan := ChromaVert(src, strd), ChromaPlan(2, alphaCb, betaCb, alphaCr, betaCr, bs, tableCb, tableCr);
    ChromaPlansRegular(8, 2, alphaCb, betaCb, alphaCr, betaCr, bs, tableCb, tableCr);
    ChromaVertApart(src, strd, plan, 8);
    hide BsByte, TableCovers, Jobs, Run, AllFit, LinesApart, Field, FieldEdge, ChromaVert, ChromaPlan;
    FieldEdges(src, strd);
    FieldsMakeWhole(s, e, plan);
    ChromaFieldPlans(alphaCb, betaCb, alphaCr, betaCr, bs, tableCb, tableCr, 0);
    ChromaFieldPlans(alphaCb, betaCb, alphaCr, betaCr, bs, tableCb, tableCr, 1);
  }

  // ---------------------------------------------------------------------------------------
  // The planes: with an even stride and position, a chroma edge is an edge of each plane alone, of half the stride.
  // ---------------------------------------------------------------------------------------

  /** Plane `c` ends as `own` leaves it, called on that plane alone. */
  ghost predicate PlaneAlone(s: seq<byte>, interleaved: seq<Job>, c: nat, own: seq<Job>)
    requires c <= 1
  {
    && AllFit(interleaved, |s|) && AllFit(own, |PlanePlaces(|s|, c)|)
    && Pull(Run(s, interleaved), PlanePlaces(|s|, c)) == Run(Pull(s, PlanePlaces(|s|, c)), own)
  }

  lemma PlaneEdges(src: int, strd: int, c: nat)
    requires src % 2 == 0 && strd % 2 == 0 && c <= 1
    ensures Parity(src + c) == c
    ensures PlaneEdge(ChromaVert(src, strd), c) == LumaVert(src / 2, strd / 2)
    ensures PlaneEdge(ChromaHorz(src, strd), c) == LumaHorz(src / 2, strd / 2)
  {
  }

  lemma PlaneIsAlone(s: seq<byte>, e: Edge, plan: Plan, c: nat)
    requires e.lineStep % 2 == 0 && e.step % 2 == 0 && c <= 1 && Parity(e.src + c) == c
    requires Interleaved(plan) && AllFit(Jobs(e, plan), |s|)
    ensures PlaneAlone(s, Jobs(e, plan), c, Jobs(PlaneEdge(e, c), PlanePlan(plan, c)))
  {
    PlanesAreIndependent(s, e, plan, c);
  }

  lemma ChromaVertPlane(s: seq<byte>, src: int, strd: int, plan: Plan, c: nat)
    requires src % 2 == 0 && strd % 2 == 0 && c <= 1 && Interleaved(plan)
    requires AllFit(Jobs(ChromaVert(src, strd), plan), |s|)
    ensures PlaneAlone(s, Jobs(ChromaVert(src, strd), plan), c,
                       Jobs(LumaVert(src / 2, strd / 2), PlanePlan(plan, c)))
  {
    PlaneEdges(src, strd, c);
    PlaneIsAlone(s, ChromaVert(src, strd), plan, c);
  }

  lemma ChromaHorzPlane(s: seq<byte>, src: int, strd: int, plan: Plan, c: nat)
    requires src % 2 == 0 && strd % 2 == 0 && c <= 1 && Interleaved(plan)
    requires AllFit(Jobs(ChromaHorz(src, strd), plan), |s|)
    ensures PlaneAlone(s, Jobs(ChromaHorz(src, strd), plan), c,
                       Jobs(LumaHorz(src / 2, strd / 2), PlanePlan(plan, c)))
  {
    PlaneEdges(src, strd, c);
    PlaneIsAlone(s, ChromaHorz(src, strd), plan, c);
  }

  /** Strength 4: a plane's plan is its own filter on every line, with nothing of the other plane in it. */
  lemma ChromaEvenPlane(lines: nat, alphaCb: int, betaCb: int, alphaCr: int, betaCr: int, c: nat)
    requires c <= 1
    ensures var plan := ChromaEven(lines, alphaCb, betaCb, alphaCr, betaCr);
            && Interleaved(plan)
            && PlanePlan(plan, c) ==
               EvenPlan(lines, Luma(if c == 0 then ChromaBs4(alphaCb, betaCb) else ChromaBs4(alphaCr, betaCr)))
  {
  }

  /** Below strength 4: the filter of each line is that of the plane's own thresholds and table. */
  lemma ChromaPlanPlane(per: nat, alphaCb: int, betaCb: int, alphaCr: int, betaCr: int,
                        bs: nat, tableCb: seq<byte>, tableCr: seq<byte>, c: nat, n: nat)
    requires per > 0 && TableCovers(bs, tableCb) && TableCovers(bs, tableCr) && c <= 1 && n < 4 * per
    ensures var plan, strength := ChromaPlan(per, alphaCb, betaCb, alphaCr, betaCr, bs, tableCb, tableCr),
              BsByte(bs, Piece(n, per));
            && Interleaved(plan)
            && PlanePlan(plan, c)[n] ==
               if strength == 0 then []
               else if c == 0 then Luma(ChromaBslt4(alphaCb, betaCb, tableCb[strength]))
               else Luma(ChromaBslt4(alphaCr, betaCr, tableCr[strength]))
  {
    ChromaPlansRegular(0, per, alphaCb, betaCb, alphaCr, betaCr, bs, tableCb, tableCr);
    hide BsByte;
  }
}
