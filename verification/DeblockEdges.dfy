/** The eighteen edge filters, looping over a flat sample buffer in place. Each contract says that the buffer ends
    as the list of line jobs of its plan leaves it; DeblockTheorems says what that list of jobs achieves. */
module DeblockEdges {
  import opened CInt
  import opened LineFilters
  import opened LineJobs
  import opened EdgePlans
  import opened DeblockLines

  /** After `n` lines of the plan the buffer is `t`. */
  predicate After(t: seq<byte>, s: seq<byte>, e: Edge, plan: Plan, n: nat) {
    && n <= |plan| && AllFit(Jobs(e, plan[..n]), |s|)
    && t == Run(s, Jobs(e, plan[..n]))
  }

  lemma NothingYet(s: seq<byte>, e: Edge, plan: Plan)
    ensures After(s, s, e, plan, 0)
  {
  }

  lemma AllDone(t: seq<byte>, s: seq<byte>, e: Edge, plan: Plan)
    requires After(t, s, e, plan, |plan|)
    ensures AllFit(Jobs(e, plan), |s|) && t == Run(s, Jobs(e, plan))
  {
    assert plan[..|plan|] == plan;
  }

  lemma LineAfterLine(e: Edge, n: int)
    ensures e.Line(n + 1) == e.Line(n) + e.lineStep
  {
  }

  function FirstPlaneJob(e: Edge, n: nat, f: Filter): Job { Job(LinePlaces(e.Line(n), e.step, f.Depth()), f) }
  function SecondPlaneJob(e: Edge, n: nat, f: Filter): Job { Job(LinePlaces(e.Line(n) + 1, e.step, f.Depth()), f) }

  lemma LineStep(t: seq<byte>, s: seq<byte>, e: Edge, plan: Plan, n: nat)
    requires AllFit(Jobs(e, plan), |s|) && n < |plan| && After(t, s, e, plan, n)
    ensures var now := JobsOfLine(e.Line(n), e.step, plan[n]);
            |t| == |s| && AllFit(now, |s|) && After(Run(t, now), s, e, plan, n + 1)
  {
    NextLine(e, plan, n, |s|);
    RunAppend(s, Jobs(e, plan[..n]), JobsOfLine(e.Line(n), e.step, plan[n]));
  }

  lemma LumaStep(t: seq<byte>, s: seq<byte>, e: Edge, plan: Plan, n: nat, f: Filter)
    requires AllFit(Jobs(e, plan), |s|) && n < |plan| && plan[n] == Luma(f) && After(t, s, e, plan, n)
    ensures FirstPlaneJob(e, n, f).Fits(|s|)
    ensures After(RunJob(t, FirstPlaneJob(e, n, f)), s, e, plan, n + 1)
  {
    hide After, RunJob, Places, LinePlaces;
    LineStep(t, s, e, plan, n);
    var now := JobsOfLine(e.Line(n), e.step, plan[n]);
    assert now[0] == FirstPlaneJob(e, n, f);
    assert now[..0] == [] && Run(t, now[..0]) == t;
  }

  lemma ChromaStep(t: seq<byte>, s: seq<byte>, e: Edge, plan: Plan, n: nat, fu: Filter, fv: Filter)
    requires AllFit(Jobs(e, plan), |s|) && n < |plan| && plan[n] == Chroma(fu, fv) && After(t, s, e, plan, n)
    ensures FirstPlaneJob(e, n, fu).Fits(|s|) && SecondPlaneJob(e, n, fv).Fits(|s|)
    ensures After(RunJob(RunJob(t, FirstPlaneJob(e, n, fu)), SecondPlaneJob(e, n, fv)), s, e, plan, n + 1)
  {
    hide After, RunJob, Run, Places, LinePlaces;
    LineStep(t, s, e, plan, n);
    var now := JobsOfLine(e.Line(n), e.step, plan[n]);
    assert now[0].Fits(|s|) && now[1].Fits(|s|);
    RunTwo(t, now[0], now[1]);
    assert now == [now[0], now[1]];
  }

  lemma RunTwo(s: seq<byte>, u: Job, v: Job)
    requires u.Fits(|s|) && v.Fits(|s|)
    ensures AllFit([u, v], |s|) && Run(s, [u, v]) == RunJob(RunJob(s, u), v)
  {
    assert [u, v][..1] == [u] && [u][..0] == [];
    assert Run(s, [u]) == RunJob(Run(s, []), u);
  }

  lemma {:induction false} SkippedJobs(e: Edge, plan: Plan, n: nat, m: nat)
    requires n + m <= |plan| && forall i :: n <= i < n + m ==> plan[i] == []
    ensures Jobs(e, plan[..n + m]) == Jobs(e, plan[..n])
  {
    hide AllFit;
    if m > 0 {
      SkippedJobs(e, plan, n, m - 1);
      var k := n + m - 1;
      assert plan[..k + 1][..k] == plan[..k] && plan[..k + 1][k] == [];
      assert Jobs(e, plan[..k + 1]) == Jobs(e, plan[..k]) + JobsOfLine(e.Line(k), e.step, []);
    }
  }

  /** Lines without planes are passed over. */
  lemma SkipLines(t: seq<byte>, s: seq<byte>, e: Edge, plan: Plan, n: nat, m: nat)
    requires After(t, s, e, plan, n) && n + m <= |plan| && forall i :: n <= i < n + m ==> plan[i] == []
    ensures After(t, s, e, plan, n + m)
  {
    SkippedJobs(e, plan, n, m);
  }

  // ---------------------------------------------------------------------------------------
  // Chroma lines read in pairs: for strides of 1 and -1 the U and the V line of a pair share samples.
  // ---------------------------------------------------------------------------------------

  predicate IsPair(planes: seq<Plane>) {
    && |planes| == 2 && planes[0].offset == 0 && planes[1].offset == 1
    && forall i :: 0 <= i < 2 ==> planes[i].filter.ChromaBs4? || planes[i].filter.ChromaBslt4?
  }

  /** Every line has both planes or none. */
  predicate InPairs(plan: Plan) { forall n :: 0 <= n < |plan| ==> plan[n] == [] || IsPair(plan[n]) }

  lemma PairFits(e: Edge, plan: Plan, n: nat, size: nat)
    requires AllFit(Jobs(e, plan), size) && n < |plan|
    ensures AllFit(Jobs(e, plan[..n]), size)
    ensures IsPair(plan[n]) ==>
              FirstPlaneJob(e, n, plan[n][0].filter).Fits(size) && SecondPlaneJob(e, n, plan[n][1].filter).Fits(size)
  {
    hide LinePlaces, Places;
    NextLine(e, plan, n, size);
    var now := JobsOfLine(e.Line(n), e.step, plan[n]);
    if IsPair(plan[n]) {
      assert now[0] == FirstPlaneJob(e, n, plan[n][0].filter) && now[1] == SecondPlaneJob(e, n, plan[n][1].filter);
    }
  }

  /** The lines in turn; of each, the samples of both planes are read before any is stored. */
  function RunPairs(s: seq<byte>, e: Edge, plan: Plan): (r: seq<byte>)
    requires InPairs(plan) && AllFit(Jobs(e, plan), |s|)
    ensures |r| == |s|
  {
    if plan == [] then s
    else
      var n := |plan| - 1;
      PairFits(e, plan, n, |s|);
      var t := RunPairs(s, e, plan[..n]);
      if plan[n] == [] then t
      else RunPair(t, FirstPlaneJob(e, n, plan[n][0].filter), SecondPlaneJob(e, n, plan[n][1].filter))
  }

  predicate AfterPairs(t: seq<byte>, s: seq<byte>, e: Edge, plan: Plan, n: nat) {
    && n <= |plan| && InPairs(plan) && AllFit(Jobs(e, plan[..n]), |s|)
    && t == RunPairs(s, e, plan[..n])
  }

  lemma NoPairYet(s: seq<byte>, e: Edge, plan: Plan)
    requires InPairs(plan)
    ensures AfterPairs(s, s, e, plan, 0)
  {
  }

  lemma PairStep(t: seq<byte>, s: seq<byte>, e: Edge, plan: Plan, n: nat, fu: Filter, fv: Filter)
    requires AllFit(Jobs(e, plan), |s|) && n < |plan| && plan[n] == Chroma(fu, fv) && IsPair(plan[n])
    requires AfterPairs(t, s, e, plan, n)
    ensures |t| == |s| && FirstPlaneJob(e, n, fu).Fits(|s|) && SecondPlaneJob(e, n, fv).Fits(|s|)
    ensures AfterPairs(RunPair(t, FirstPlaneJob(e, n, fu), SecondPlaneJob(e, n, fv)), s, e, plan, n + 1)
  {
    hide Jobs, AllFit, LinePlaces, RunPair, Places;
    PairFits(e, plan, n, |s|);
    PrefixFits(e, plan, n + 1, |s|);
    assert plan[..n + 1][..n] == plan[..n] && plan[..n + 1][n] == plan[n];
  }

  lemma {:induction false} SkipPairs(t: seq<byte>, s: seq<byte>, e: Edge, plan: Plan, n: nat, m: nat)
    requires AllFit(Jobs(e, plan), |s|)
    requires AfterPairs(t, s, e, plan, n) && n + m <= |plan| && forall i :: n <= i < n + m ==> plan[i] == []
    ensures AfterPairs(t, s, e, plan, n + m)
  {
    hide Jobs, AllFit, LinePlaces, RunPair, Places;
    if m > 0 {
      SkipPairs(t, s, e, plan, n, m - 1);
      var k := n + m - 1;
      PrefixFits(e, plan, k + 1, |s|);
      assert plan[..k + 1][..k] == plan[..k] && plan[..k + 1][k] == [];
    }
  }

  lemma AllPairsDone(t: seq<byte>, s: seq<byte>, e: Edge, plan: Plan)
    requires AfterPairs(t, s, e, plan, |plan|)
    ensures AllFit(Jobs(e, plan), |s|) && t == RunPairs(s, e, plan)
  {
    assert plan[..|plan|] == plan;
  }

  /** Where the planes of a line do not meet, that is one job after the other. */
  lemma PairsAreJobs(s: seq<byte>, e: Edge, plan: Plan)
    requires InPairs(plan) && AllFit(Jobs(e, plan), |s|) && e.step != 1 && e.step != -1
    ensures RunPairs(s, e, plan) == Run(s, Jobs(e, plan))
  {
    hide After, AfterPairs, Jobs, AllFit;
    var t := AfterBoth(s, e, plan, |plan|);
    AllDone(t, s, e, plan);
    AllPairsDone(t, s, e, plan);
  }

  lemma {:induction false} AfterBoth(s: seq<byte>, e: Edge, plan: Plan, n: nat) returns (t: seq<byte>)
    requires InPairs(plan) && AllFit(Jobs(e, plan), |s|) && e.step != 1 && e.step != -1 && n <= |plan|
    ensures After(t, s, e, plan, n) && AfterPairs(t, s, e, plan, n)
  {
    hide After, AfterPairs, Jobs, AllFit, LinePlaces, RunPair, RunJob, Places, Apart;
    if n == 0 {
      t := s;
      NothingYet(s, e, plan);
      NoPairYet(s, e, plan);
    } else {
      var k := n - 1;
      t := AfterBoth(s, e, plan, k);
      if plan[k] == [] {
        SkipLines(t, s, e, plan, k, 1);
        SkipPairs(t, s, e, plan, k, 1);
      } else {
        t := PairAfterBoth(t, s, e, plan, k, plan[k][0].filter, plan[k][1].filter);
      }
    }
  }

  lemma PairAfterBoth(t: seq<byte>, s: seq<byte>, e: Edge, plan: Plan, n: nat, fu: Filter, fv: Filter)
    returns (r: seq<byte>)
    requires AllFit(Jobs(e, plan), |s|) && e.step != 1 && e.step != -1
    requires n < |plan| && IsPair(plan[n]) && fu == plan[n][0].filter && fv == plan[n][1].filter
    requires After(t, s, e, plan, n) && AfterPairs(t, s, e, plan, n)
    ensures After(r, s, e, plan, n + 1) && AfterPairs(r, s, e, plan, n + 1)
  {
    hide After, AfterPairs, Jobs, AllFit, LinePlaces, RunPair, RunJob, Places, Apart;
    assert plan[n] == Chroma(fu, fv);
    ChromaStep(t, s, e, plan, n, fu, fv);
    PairStep(t, s, e, plan, n, fu, fv);
    PlanesApart(e.Line(n), e.step);
    DepthTwo(e, n, fu, fv);
    PairIsJobs(t, FirstPlaneJob(e, n, fu), SecondPlaneJob(e, n, fv));
    r := RunPair(t, FirstPlaneJob(e, n, fu), SecondPlaneJob(e, n, fv));
  }

  lemma DepthTwo(e: Edge, n: nat, fu: Filter, fv: Filter)
    requires (fu.ChromaBs4? || fu.ChromaBslt4?) && (fv.ChromaBs4? || fv.ChromaBslt4?)
    ensures FirstPlaneJob(e, n, fu).at == LinePlaces(e.Line(n), e.step, 2)
    ensures SecondPlaneJob(e, n, fv).at == LinePlaces(e.Line(n) + 1, e.step, 2)
  {
  }

  lemma LinePlaces4(q0: int, step: int)
    ensures LinePlaces(q0, step, 4) == [q0 - 4 * step, q0 - 3 * step, q0 - 2 * step, q0 - step,
                                        q0, q0 + step, q0 + 2 * step, q0 + 3 * step]
  {
  }

  lemma LinePlaces3(q0: int, step: int)
    ensures LinePlaces(q0, step, 3) == [q0 - 3 * step, q0 - 2 * step, q0 - step, q0, q0 + step, q0 + 2 * step]
  {
  }

  lemma LinePlaces2(q0: int, step: int)
    ensures LinePlaces(q0, step, 2) == [q0 - 2 * step, q0 - step, q0, q0 + step]
  {
  }

  /** The two planes of a chroma line do not meet unless neighbouring samples of a plane are neighbours in memory. */
  lemma PlanesApart(q0: int, step: int)
    requires step != 1 && step != -1
    ensures Apart(LinePlaces(q0 + 1, step, 2), LinePlaces(q0, step, 2))
  {
    var v, u := LinePlaces(q0 + 1, step, 2), LinePlaces(q0, step, 2);
    LinePlaces2(q0, step);
    LinePlaces2(q0 + 1, step);
    forall k | 0 <= k < 4 ensures v[k] !in u {
      assert v[k] != u[0] && v[k] != u[1] && v[k] != u[2] && v[k] != u[3];
    }
  }

  lemma PieceOf(n: nat, per: nat, piece: nat)
    requires piece < 4 && per > 0 && piece * per <= n < (piece + 1) * per
    ensures n < 4 * per && Piece(n, per) == piece
  {
  }

  lemma EdgeAfterEdge(e: Edge, n: int, per: int)
    ensures e.Line(n + per) == e.Line(n) + per * e.lineStep
  {
    assert (n + per) * e.lineStep == n * e.lineStep + per * e.lineStep;
  }

  /** ih264_deblk_luma_vert_bs4 */
  method LumaVertBs4(a: array<byte>, src: int, strd: int, alpha: int, beta: int)
    requires AllFit(Jobs(LumaVert(src, strd), LumaEven(16, alpha, beta)), a.Length)
    modifies a
    ensures a[..] == Run(old(a[..]), Jobs(LumaVert(src, strd), LumaEven(16, alpha, beta)))
  {
    hide After, Jobs, Run, RunJob, AllFit, LinePlaces, Apart;
    ghost var s, e := a[..], LumaVert(src, strd);
    ghost var plan := LumaEven(16, alpha, beta);
    NothingYet(s, e, plan);
    var pSrc, blkStrd, edge := src, strd * 4, 0;
    while edge < 4
      invariant 0 <= edge <= 4 && pSrc == e.Line(4 * edge)
      invariant After(a[..], s, e, plan, 4 * edge)
    {
      var i, q := 0, pSrc;
      while i < 4
        invariant 0 <= i <= 4 && q == e.Line(4 * edge + i)
        invariant After(a[..], s, e, plan, 4 * edge + i)
      {
        LumaStep(a[..], s, e, plan, 4 * edge + i, LumaBs4(alpha, beta));
        LinePlaces4(q, e.step);
        LumaBs4Line(a, alpha, beta,
                    q - 4, q - 3, q - 2, q - 1, q, q + 1, q + 2, q + 3);
        LineAfterLine(e, 4 * edge + i);
        i, q := i + 1, q + strd;
      }
      EdgeAfterEdge(e, 4 * edge, 4);
      edge, pSrc := edge + 1, pSrc + blkStrd;
    }
    AllDone(a[..], s, e, plan);
  }

  /** ih264_deblk_luma_horz_bs4 */
  method LumaHorzBs4(a: array<byte>, src: int, strd: int, alpha: int, beta: int)
    requires AllFit(Jobs(LumaHorz(src, strd), LumaEven(16, alpha, beta)), a.Length)
    modifies a
    ensures a[..] == Run(old(a[..]), Jobs(LumaHorz(src, strd), LumaEven(16, alpha, beta)))
  {
    hide After, Jobs, Run, RunJob, AllFit, LinePlaces, Apart;
    ghost var s, e := a[..], LumaHorz(src, strd);
    ghost var plan := LumaEven(16, alpha, beta);
    NothingYet(s, e, plan);
    var pSrc, pP3, edge := src, src - strd * 4, 0;
    while edge < 4
      invariant 0 <= edge <= 4 && pSrc == e.Line(4 * edge) && pP3 == pSrc - strd * 4
      invariant After(a[..], s, e, plan, 4 * edge)
    {
      var i, q, p := 0, pSrc, pP3;
      while i < 4
        invariant 0 <= i <= 4 && q == e.Line(4 * edge + i) && p == q - strd * 4
        invariant After(a[..], s, e, plan, 4 * edge + i)
      {
        LumaStep(a[..], s, e, plan, 4 * edge + i, LumaBs4(alpha, beta));
        LinePlaces4(q, e.step);
        LumaBs4Line(a, alpha, beta,
                    p, p + strd, p + 2 * strd, p + 3 * strd, q, q + strd, q + 2 * strd, q + 3 * strd);
        LineAfterLine(e, 4 * edge + i);
        i, q, p := i + 1, q + 1, p + 1;
      }
      EdgeAfterEdge(e, 4 * edge, 4);
      edge, pSrc, pP3 := edge + 1, pSrc + 4, pP3 + 4;
    }
    AllDone(a[..], s, e, plan);
  }

  /** ih264_deblk_chroma_vert_bs4_bp */
  method ChromaVertBs4Bp(a: array<byte>, src: int, strd: int, alpha: int, beta: int)
    requires AllFit(Jobs(ChromaVert(src, strd), ChromaEven(8, alpha, beta, alpha, beta)), a.Length)
    modifies a
    ensures a[..] == Run(old(a[..]), Jobs(ChromaVert(src, strd), ChromaEven(8, alpha, beta, alpha, beta)))
  {
    hide After, Jobs, Run, RunJob, RunPair, AllFit, LinePlaces, Apart;
    ghost var s, e := a[..], ChromaVert(src, strd);
    ghost var plan := ChromaEven(8, alpha, beta, alpha, beta);
    NothingYet(s, e, plan);
    var pSrcU, pSrcV, blkStrd, edge := src, src + 1, strd * 2, 0;
    while edge < 4
      invariant 0 <= edge <= 4 && pSrcU == e.Line(2 * edge) && pSrcV == pSrcU + 1
      invariant After(a[..], s, e, plan, 2 * edge)
    {
      var i, qU, qV := 0, pSrcU, pSrcV;
      while i < 2
        invariant 0 <= i <= 2 && qU == e.Line(2 * edge + i) && qV == qU + 1
        invariant After(a[..], s, e, plan, 2 * edge + i)
      {
        ChromaStep(a[..], s, e, plan, 2 * edge + i, ChromaBs4(alpha, beta), ChromaBs4(alpha, beta));
        LinePlaces2(qU, e.step);
        LinePlaces2(qU + 1, e.step);
        PlanesApart(qU, e.step);
        ChromaBs4Line(a, alpha, beta, alpha, beta,
                      qU - 4, qU - 2, qU, qU + 2, qV - 4, qV - 2, qV, qV + 2);
        LineAfterLine(e, 2 * edge + i);
        i, qU, qV := i + 1, qU + strd, qV + strd;
      }
      EdgeAfterEdge(e, 2 * edge, 2);
      edge, pSrcU, pSrcV := edge + 1, pSrcU + blkStrd, pSrcV + blkStrd;
    }
    AllDone(a[..], s, e, plan);
  }

  /** ih264_deblk_chroma_horz_bs4_bp */
  method ChromaHorzBs4Bp(a: array<byte>, src: int, strd: int, alpha: int, beta: int)
    requires AllFit(Jobs(ChromaHorz(src, strd), ChromaEven(8, alpha, beta, alpha, beta)), a.Length)
    modifies a
    ensures a[..] == RunPairs(old(a[..]), ChromaHorz(src, strd),
                              ChromaEven(8, alpha, beta, alpha, beta))
    ensures strd != 1 && strd != -1 ==>
              a[..] == Run(old(a[..]), Jobs(ChromaHorz(src, strd), ChromaEven(8, alpha, beta, alpha, beta)))
  {
    hide AfterPairs, RunPairs, RunPair, Jobs, Run, RunJob, AllFit, LinePlaces, Apart;
    ghost var s, e := a[..], ChromaHorz(src, strd);
    ghost var plan := ChromaEven(8, alpha, beta, alpha, beta);
    NoPairYet(s, e, plan);
    var pSrcU, pSrcV, edge := src, src + 1, 0;
    var pP1U, pP1V := pSrcU - strd * 2, pSrcV - strd * 2;
    while edge < 4
      invariant 0 <= edge <= 4 && pSrcU == e.Line(2 * edge) && pSrcV == pSrcU + 1
      invariant pP1U == pSrcU - strd * 2 && pP1V == pSrcV - strd * 2
      invariant AfterPairs(a[..], s, e, plan, 2 * edge)
    {
      var i, qU, qV, pU, pV := 0, pSrcU, pSrcV, pP1U, pP1V;
      while i < 2
        invariant 0 <= i <= 2 && qU == e.Line(2 * edge + i) && qV == qU + 1
        invariant pU == qU - strd * 2 && pV == qV - strd * 2
        invariant AfterPairs(a[..], s, e, plan, 2 * edge + i)
      {
        PairStep(a[..], s, e, plan, 2 * edge + i, ChromaBs4(alpha, beta), ChromaBs4(alpha, beta));
        LinePlaces2(qU, e.step);
        LinePlaces2(qU + 1, e.step);
        ChromaBs4Line(a, alpha, beta, alpha, beta,
                      pU, pU + strd, qU, qU + strd, pV, pV + strd, qV, qV + strd);
        LineAfterLine(e, 2 * edge + i);
        i, qU, qV, pU, pV := i + 1, qU + 2, qV + 2, pU + 2, pV + 2;
      }
      EdgeAfterEdge(e, 2 * edge, 2);
      edge, pSrcU, pSrcV, pP1U, pP1V := edge + 1, pSrcU + 4, pSrcV + 4, pP1U + 4, pP1V + 4;
    }
    AllPairsDone(a[..], s, e, plan);
    if strd != 1 && strd != -1 { PairsAreJobs(s, e, plan); }
  }

  /** ih264_deblk_luma_vert_bslt4 */
  method LumaVertBslt4(a: array<byte>, src: int, strd: int, alpha: int, beta: int, bs: nat, cliptab: seq<byte>)
    requires TableCovers(bs, cliptab)
    requires AllFit(Jobs(LumaVert(src, strd), LumaPlan(4, alpha, beta, bs, cliptab)), a.Length)
    modifies a
    ensures a[..] == Run(old(a[..]), Jobs(LumaVert(src, strd), LumaPlan(4, alpha, beta, bs, cliptab)))
  {
    hide After, Jobs, Run, RunJob, AllFit, LinePlaces, Apart;
    ghost var s, e := a[..], LumaVert(src, strd);
    ghost var plan := LumaPlan(4, alpha, beta, bs, cliptab);
    NothingYet(s, e, plan);
    var pSrc, blkStrd, edge := src, strd * 4, 0;
    while edge < 4
      invariant 0 <= edge <= 4 && pSrc == e.Line(4 * edge)
      invariant After(a[..], s, e, plan, 4 * edge)
    {
      var strength := BsByte(bs, edge);
      forall n | 4 * edge <= n < 4 * edge + 4 ensures Piece(n, 4) == edge { PieceOf(n, 4, edge); }
      if strength == 0 {
        SkipLines(a[..], s, e, plan, 4 * edge, 4);
      } else {
        var tc0 := cliptab[strength];
        var i, q := 0, pSrc;
        while i < 4
          invariant 0 <= i <= 4 && q == e.Line(4 * edge + i)
          invariant After(a[..], s, e, plan, 4 * edge + i)
        {
          LumaStep(a[..], s, e, plan, 4 * edge + i, LumaBslt4(alpha, beta, tc0));
          LinePlaces3(q, e.step);
          LumaBslt4Line(a, alpha, beta, tc0,
                        q - 3, q - 2, q - 1, q, q + 1, q + 2);
          LineAfterLine(e, 4 * edge + i);
          i, q := i + 1, q + strd;
        }
      }
      EdgeAfterEdge(e, 4 * edge, 4);
      edge, pSrc := edge + 1, pSrc + blkStrd;
    }
    AllDone(a[..], s, e, plan);
  }

  /** ih264_deblk_chroma_vert_bslt4_bp */
  method ChromaVertBslt4Bp(a: array<byte>, src: int, strd: int, alpha: int, beta: int, bs: nat, cliptab: seq<byte>)
    requires TableCovers(bs, cliptab)
    requires AllFit(Jobs(ChromaVert(src, strd),
                         ChromaPlan(2, alpha, beta, alpha, beta, bs, cliptab, cliptab)), a.Length)
    modifies a
    ensures a[..] == Run(old(a[..]), Jobs(ChromaVert(src, strd),
                                          ChromaPlan(2, alpha, beta, alpha, beta, bs, cliptab, cliptab)))
  {
    hide After, Jobs, Run, RunJob, RunPair, AllFit, LinePlaces, Apart;
    ghost var s, e := a[..], ChromaVert(src, strd);
    ghost var plan := ChromaPlan(2, alpha, beta, alpha, beta, bs, cliptab, cliptab);
    NothingYet(s, e, plan);
    var pSrcU, pSrcV, blkStrd, edge := src, src + 1, strd * 2, 0;
    while edge < 4
      invariant 0 <= edge <= 4 && pSrcU == e.Line(2 * edge) && pSrcV == pSrcU + 1
      invariant After(a[..], s, e, plan, 2 * edge)
    {
      var strength := BsByte(bs, edge);
      forall n | 2 * edge <= n < 2 * edge + 2 ensures Piece(n, 2) == edge { PieceOf(n, 2, edge); }
      if strength == 0 {
        SkipLines(a[..], s, e, plan, 2 * edge, 2);
      } else {
        var tc0 := cliptab[strength];
        var i, qU, qV := 0, pSrcU, pSrcV;
        while i < 2
          invariant 0 <= i <= 2 && qU == e.Line(2 * edge + i) && qV == qU + 1
          invariant After(a[..], s, e, plan, 2 * edge + i)
        {
          ChromaStep(a[..], s, e, plan, 2 * edge + i, ChromaBslt4(alpha, beta, tc0), ChromaBslt4(alpha, beta, tc0));
          LinePlaces2(qU, e.step);
          LinePlaces2(qU + 1, e.step);
          PlanesApart(qU, e.step);
          ChromaBslt4Line(a, alpha, beta, tc0, alpha, beta, tc0,
                          qU - 4, qU - 2, qU, qU + 2, qV - 4, qV - 2, qV, qV + 2);
          LineAfterLine(e, 2 * edge + i);
          i, qU, qV := i + 1, qU + strd, qV + strd;
        }
      }
      EdgeAfterEdge(e, 2 * edge, 2);
      edge, pSrcU, pSrcV := edge + 1, pSrcU + blkStrd, pSrcV + blkStrd;
    }
    AllDone(a[..], s, e, plan);
  }

  /** ih264_deblk_luma_horz_bslt4 */
  method LumaHorzBslt4(a: array<byte>, src: int, strd: int, alpha: int, beta: int, bs: nat, cliptab: seq<byte>)
    requires TableCovers(bs, cliptab)
    requires AllFit(Jobs(LumaHorz(src, strd), LumaPlan(4, alpha, beta, bs, cliptab)), a.Length)
    modifies a
    ensures a[..] == Run(old(a[..]), Jobs(LumaHorz(src, strd), LumaPlan(4, alpha, beta, bs, cliptab)))
  {
    hide After, Jobs, Run, RunJob, AllFit, LinePlaces, Apart;
    ghost var s, e := a[..], LumaHorz(src, strd);
    ghost var plan := LumaPlan(4, alpha, beta, bs, cliptab);
    NothingYet(s, e, plan);
    var pSrc, pP2, edge := src, src - strd * 4, 0;
    while edge < 4
      invariant 0 <= edge <= 4 && pSrc == e.Line(4 * edge) && pP2 == pSrc - strd * 4
      invariant After(a[..], s, e, plan, 4 * edge)
    {
      var strength := BsByte(bs, edge);
      forall n | 4 * edge <= n < 4 * edge + 4 ensures Piece(n, 4) == edge { PieceOf(n, 4, edge); }
      if strength == 0 {
        SkipLines(a[..], s, e, plan, 4 * edge, 4);
      } else {
        var tc0 := cliptab[strength];
        var i, q, p := 0, pSrc, pP2;
        while i < 4
          invariant 0 <= i <= 4 && q == e.Line(4 * edge + i) && p == q - strd * 4
          invariant After(a[..], s, e, plan, 4 * edge + i)
        {
          LumaStep(a[..], s, e, plan, 4 * edge + i, LumaBslt4(alpha, beta, tc0));
          LinePlaces3(q, e.step);
          LumaBslt4Line(a, alpha, beta, tc0,
                        p + strd, p + 2 * strd, p + 3 * strd, q, q + strd, q + 2 * strd);
          LineAfterLine(e, 4 * edge + i);
          i, q, p := i + 1, q + 1, p + 1;
        }
      }
      EdgeAfterEdge(e, 4 * edge, 4);
      edge, pSrc, pP2 := edge + 1, pSrc + 4, pP2 + 4;
    }
    AllDone(a[..], s, e, plan);
  }

  /** ih264_deblk_chroma_horz_bslt4_bp */
  method ChromaHorzBslt4Bp(a: array<byte>, src: int, strd: int, alpha: int, beta: int, bs: nat, cliptab: seq<byte>)
    requires TableCovers(bs, cliptab)
    requires AllFit(Jobs(ChromaHorz(src, strd),
                         ChromaPlan(2, alpha, beta, alpha, beta, bs, cliptab, cliptab)), a.Length)
    modifies a
    ensures a[..] == RunPairs(old(a[..]), ChromaHorz(src, strd),
                              ChromaPlan(2, alpha, beta, alpha, beta, bs, cliptab, cliptab))
    ensures strd != 1 && strd != -1 ==>
              a[..] == Run(old(a[..]), Jobs(ChromaHorz(src, strd),
                                            ChromaPlan(2, alpha, beta, alpha, beta, bs, cliptab, cliptab)))
  {
    hide AfterPairs, RunPairs, RunPair, Jobs, Run, RunJob, AllFit, LinePlaces, Apart;
    ghost var s, e := a[..], ChromaHorz(src, strd);
    ghost var plan := ChromaPlan(2, alpha, beta, alpha, beta, bs, cliptab, cliptab);
    NoPairYet(s, e, plan);
    var pSrcU, pSrcV, edge := src, src + 1, 0;
    var pP1U, pP1V := pSrcU - strd * 2, pSrcV - strd * 2;
    while edge < 4
      invariant 0 <= edge <= 4 && pSrcU == e.Line(2 * edge) && pSrcV == pSrcU + 1
      invariant pP1U == pSrcU - strd * 2 && pP1V == pSrcV - strd * 2
      invariant AfterPairs(a[..], s, e, plan, 2 * edge)
    {
      var strength := BsByte(bs, edge);
      forall n | 2 * edge <= n < 2 * edge + 2 ensures Piece(n, 2) == edge { PieceOf(n, 2, edge); }
      if strength == 0 {
        SkipPairs(a[..], s, e, plan, 2 * edge, 2);
      } else {
        var tc0 := cliptab[strength];
        var i, qU, qV, pU, pV := 0, pSrcU, pSrcV, pP1U, pP1V;
        while i < 2
          invariant 0 <= i <= 2 && qU == e.Line(2 * edge + i) && qV == qU + 1
          invariant pU == qU - strd * 2 && pV == qV - strd * 2
          invariant AfterPairs(a[..], s, e, plan, 2 * edge + i)
        {
          PairStep(a[..], s, e, plan, 2 * edge + i, ChromaBslt4(alpha, beta, tc0), ChromaBslt4(alpha, beta, tc0));
          LinePlaces2(qU, e.step);
          LinePlaces2(qU + 1, e.step);
          ChromaBslt4Line(a, alpha, beta, tc0, alpha, beta, tc0,
                          pU, pU + strd, qU, qU + strd, pV, pV + strd, qV, qV + strd);
          LineAfterLine(e, 2 * edge + i);
          i, qU, qV, pU, pV := i + 1, qU + 2, qV + 2, pU + 2, pV + 2;
        }
      }
      EdgeAfterEdge(e, 2 * edge, 2);
      edge, pSrcU, pSrcV, pP1U, pP1V := edge + 1, pSrcU + 4, pSrcV + 4, pP1U + 4, pP1V + 4;
    }
    AllPairsDone(a[..], s, e, plan);
    if strd != 1 && strd != -1 { PairsAreJobs(s, e, plan); }
  }

  /** ih264_deblk_luma_vert_bs4_mbaff */
  method LumaVertBs4Mbaff(a: array<byte>, src: int, strd: int, alpha: int, beta: int)
    requires AllFit(Jobs(LumaVert(src, strd), LumaEven(8, alpha, beta)), a.Length)
    modifies a
    ensures a[..] == Run(old(a[..]), Jobs(LumaVert(src, strd), LumaEven(8, alpha, beta)))
  {
    hide After, Jobs, Run, RunJob, AllFit, LinePlaces, Apart;
    ghost var s, e := a[..], LumaVert(src, strd);
    ghost var plan := LumaEven(8, alpha, beta);
    NothingYet(s, e, plan);
    var pSrc, blkStrd, edge := src, strd * 2, 0;
    while edge < 4
      invariant 0 <= edge <= 4 && pSrc == e.Line(2 * edge)
      invariant After(a[..], s, e, plan, 2 * edge)
    {
      var i, q := 0, pSrc;
      while i < 2
        invariant 0 <= i <= 2 && q == e.Line(2 * edge + i)
        invariant After(a[..], s, e, plan, 2 * edge + i)
      {
        LumaStep(a[..], s, e, plan, 2 * edge + i, LumaBs4(alpha, beta));
        LinePlaces4(q, e.step);
        LumaBs4Line(a, alpha, beta,
                    q - 4, q - 3, q - 2, q - 1, q, q + 1, q + 2, q + 3);
        LineAfterLine(e, 2 * edge + i);
        i, q := i + 1, q + strd;
      }
      EdgeAfterEdge(e, 2 * edge, 2);
      edge, pSrc := edge + 1, pSrc + blkStrd;
    }
    AllDone(a[..], s, e, plan);
  }

  /** ih264_deblk_chroma_vert_bs4_mbaff_bp */
  method ChromaVertBs4MbaffBp(a: array<byte>, src: int, strd: int, alpha: int, beta: int)
    requires AllFit(Jobs(ChromaVert(src, strd), ChromaEven(4, alpha, beta, alpha, beta)), a.Length)
    modifies a
    ensures a[..] == Run(old(a[..]), Jobs(ChromaVert(src, strd), ChromaEven(4, alpha, beta, alpha, beta)))
  {
    hide After, Jobs, Run, RunJob, RunPair, AllFit, LinePlaces, Apart;
    ghost var s, e := a[..], ChromaVert(src, strd);
    ghost var plan := ChromaEven(4, alpha, beta, alpha, beta);
    NothingYet(s, e, plan);
    var pSrcU, pSrcV, blkStrd, edge := src, src + 1, strd, 0;
    while edge < 4
      invariant 0 <= edge <= 4 && pSrcU == e.Line(edge) && pSrcV == pSrcU + 1
      invariant After(a[..], s, e, plan, edge)
    {
      ChromaStep(a[..], s, e, plan, edge, ChromaBs4(alpha, beta), ChromaBs4(alpha, beta));
      LinePlaces2(pSrcU, e.step);
      LinePlaces2(pSrcU + 1, e.step);
      PlanesApart(pSrcU, e.step);
      ChromaBs4Line(a, alpha, beta, alpha, beta,
                    pSrcU - 4, pSrcU - 2, pSrcU, pSrcU + 2, pSrcV - 4, pSrcV - 2, pSrcV, pSrcV + 2);
      EdgeAfterEdge(e, edge, 1);
      edge, pSrcU, pSrcV := edge + 1, pSrcU + blkStrd, pSrcV + blkStrd;
    }
    AllDone(a[..], s, e, plan);
  }

  /** ih264_deblk_luma_vert_bslt4_mbaff */
  method LumaVertBslt4Mbaff(a: array<byte>, src: int, strd: int, alpha: int, beta: int, bs: nat, cliptab: seq<byte>)
    requires TableCovers(bs, cliptab)
    requires AllFit(Jobs(LumaVert(src, strd), LumaPlan(2, alpha, beta, bs, cliptab)), a.Length)
    modifies a
    ensures a[..] == Run(old(a[..]), Jobs(LumaVert(src, strd), LumaPlan(2, alpha, beta, bs, cliptab)))
  {
    hide After, Jobs, Run, RunJob, AllFit, LinePlaces, Apart;
    ghost var s, e := a[..], LumaVert(src, strd);
    ghost var plan := LumaPlan(2, alpha, beta, bs, cliptab);
    NothingYet(s, e, plan);
    var pSrc, blkStrd, edge := src, strd * 2, 0;
    while edge < 4
      invariant 0 <= edge <= 4 && pSrc == e.Line(2 * edge)
      invariant After(a[..], s, e, plan, 2 * edge)
    {
      var strength := BsByte(bs, edge);
      forall n | 2 * edge <= n < 2 * edge + 2 ensures Piece(n, 2) == edge { PieceOf(n, 2, edge); }
      if strength == 0 {
        SkipLines(a[..], s, e, plan, 2 * edge, 2);
      } else {
        var tc0 := cliptab[strength];
        var i, q := 0, pSrc;
        while i < 2
          invariant 0 <= i <= 2 && q == e.Line(2 * edge + i)
          invariant After(a[..], s, e, plan, 2 * edge + i)
        {
          LumaStep(a[..], s, e, plan, 2 * edge + i, LumaBslt4(alpha, beta, tc0));
          LinePlaces3(q, e.step);
          LumaBslt4Line(a, alpha, beta, tc0,
                        q - 3, q - 2, q - 1, q, q + 1, q + 2);
          LineAfterLine(e, 2 * edge + i);
          i, q := i + 1, q + strd;
        }
      }
      EdgeAfterEdge(e, 2 * edge, 2);
      edge, pSrc := edge + 1, pSrc + blkStrd;
    }
    AllDone(a[..], s, e, plan);
  }

  /** ih264_deblk_chroma_vert_bslt4_mbaff_bp */
  method ChromaVertBslt4MbaffBp(a: array<byte>, src: int, strd: int, alpha: int, beta: int,
                                bs: nat, cliptab: seq<byte>)
    requires TableCovers(bs, cliptab)
    requires AllFit(Jobs(ChromaVert(src, strd),
                         ChromaPlan(1, alpha, beta, alpha, beta, bs, cliptab, cliptab)), a.Length)
    modifies a
    ensures a[..] == Run(old(a[..]), Jobs(ChromaVert(src, strd),
                                          ChromaPlan(1, alpha, beta, alpha, beta, bs, cliptab, cliptab)))
  {
    hide After, Jobs, Run, RunJob, RunPair, AllFit, LinePlaces, Apart;
    ghost var s, e := a[..], ChromaVert(src, strd);
    ghost var plan := ChromaPlan(1, alpha, beta, alpha, beta, bs, cliptab, cliptab);
    NothingYet(s, e, plan);
    var pSrcU, pSrcV, blkStrd, edge := src, src + 1, strd, 0;
    while edge < 4
      invariant 0 <= edge <= 4 && pSrcU == e.Line(edge) && pSrcV == pSrcU + 1
      invariant After(a[..], s, e, plan, edge)
    {
      var strength := BsByte(bs, edge);
      forall n | edge <= n < edge + 1 ensures Piece(n, 1) == edge { PieceOf(n, 1, edge); }
      if strength == 0 {
        SkipLines(a[..], s, e, plan, edge, 1);
      } else {
        var tc0 := cliptab[strength];
        ChromaStep(a[..], s, e, plan, edge, ChromaBslt4(alpha, beta, tc0), ChromaBslt4(alpha, beta, tc0));
        LinePlaces2(pSrcU, e.step);
        LinePlaces2(pSrcU + 1, e.step);
        PlanesApart(pSrcU, e.step);
        ChromaBslt4Line(a, alpha, beta, tc0, alpha, beta, tc0,
                        pSrcU - 4, pSrcU - 2, pSrcU, pSrcU + 2, pSrcV - 4, pSrcV - 2, pSrcV, pSrcV + 2);
      }
      EdgeAfterEdge(e, edge, 1);
      edge, pSrcU, pSrcV := edge + 1, pSrcU + blkStrd, pSrcV + blkStrd;
    }
    AllDone(a[..], s, e, plan);
  }

  /** ih264_deblk_chroma_vert_bs4 */
  method ChromaVertBs4(a: array<byte>, src: int, strd: int, alphaCb: int, betaCb: int, alphaCr: int, betaCr: int)
    requires AllFit(Jobs(ChromaVert(src, strd), ChromaEven(8, alphaCb, betaCb, alphaCr, betaCr)), a.Length)
    modifies a
    ensures a[..] == Run(old(a[..]), Jobs(ChromaVert(src, strd), ChromaEven(8, alphaCb, betaCb, alphaCr, betaCr)))
  {
    hide After, Jobs, Run, RunJob, RunPair, AllFit, LinePlaces, Apart;
    ghost var s, e := a[..], ChromaVert(src, strd);
    ghost var plan := ChromaEven(8, alphaCb, betaCb, alphaCr, betaCr);
    NothingYet(s, e, plan);
    var pSrcU, pSrcV, blkStrd, edge := src, src + 1, strd * 2, 0;
    while edge < 4
      invariant 0 <= edge <= 4 && pSrcU == e.Line(2 * edge) && pSrcV == pSrcU + 1
      invariant After(a[..], s, e, plan, 2 * edge)
    {
      var i, qU, qV := 0, pSrcU, pSrcV;
      while i < 2
        invariant 0 <= i <= 2 && qU == e.Line(2 * edge + i) && qV == qU + 1
        invariant After(a[..], s, e, plan, 2 * edge + i)
      {
        ChromaStep(a[..], s, e, plan, 2 * edge + i, ChromaBs4(alphaCb, betaCb), ChromaBs4(alphaCr, betaCr));
        LinePlaces2(qU, e.step);
        LinePlaces2(qU + 1, e.step);
        PlanesApart(qU, e.step);
        ChromaBs4Line(a, alphaCb, betaCb, alphaCr, betaCr,
                      qU - 4, qU - 2, qU, qU + 2, qV - 4, qV - 2, qV, qV + 2);
        LineAfterLine(e, 2 * edge + i);
        i, qU, qV := i + 1, qU + strd, qV + strd;
      }
      EdgeAfterEdge(e, 2 * edge, 2);
      edge, pSrcU, pSrcV := edge + 1, pSrcU + blkStrd, pSrcV + blkStrd;
    }
    AllDone(a[..], s, e, plan);
  }

  /** ih264_deblk_chroma_horz_bs4 */
  method ChromaHorzBs4(a: array<byte>, src: int, strd: int, alphaCb: int, betaCb: int, alphaCr: int, betaCr: int)
    requires AllFit(Jobs(ChromaHorz(src, strd), ChromaEven(8, alphaCb, betaCb, alphaCr, betaCr)), a.Length)
    modifies a
    ensures a[..] == RunPairs(old(a[..]), ChromaHorz(src, strd),
                              ChromaEven(8, alphaCb, betaCb, alphaCr, betaCr))
    ensures strd != 1 && strd != -1 ==>
              a[..] == Run(old(a[..]), Jobs(ChromaHorz(src, strd), ChromaEven(8, alphaCb, betaCb, alphaCr, betaCr)))
  {
    hide AfterPairs, RunPairs, RunPair, Jobs, Run, RunJob, AllFit, LinePlaces, Apart;
    ghost var s, e := a[..], ChromaHorz(src, strd);
    ghost var plan := ChromaEven(8, alphaCb, betaCb, alphaCr, betaCr);
    NoPairYet(s, e, plan);
    var pSrcU, pSrcV, edge := src, src + 1, 0;
    var pP1U, pP1V := pSrcU - strd * 2, pSrcV - strd * 2;
    while edge < 4
      invariant 0 <= edge <= 4 && pSrcU == e.Line(2 * edge) && pSrcV == pSrcU + 1
      invariant pP1U == pSrcU - strd * 2 && pP1V == pSrcV - strd * 2
      invariant AfterPairs(a[..], s, e, plan, 2 * edge)
    {
      var i, qU, qV, pU, pV := 0, pSrcU, pSrcV, pP1U, pP1V;
      while i < 2
        invariant 0 <= i <= 2 && qU == e.Line(2 * edge + i) && qV == qU + 1
        invariant pU == qU - strd * 2 && pV == qV - strd * 2
        invariant AfterPairs(a[..], s, e, plan, 2 * edge + i)
      {
        PairStep(a[..], s, e, plan, 2 * edge + i, ChromaBs4(alphaCb, betaCb), ChromaBs4(alphaCr, betaCr));
        LinePlaces2(qU, e.step);
        LinePlaces2(qU + 1, e.step);
        ChromaBs4Line(a, alphaCb, betaCb, alphaCr, betaCr,
                      pU, pU + strd, qU, qU + strd, pV, pV + strd, qV, qV + strd);
        LineAfterLine(e, 2 * edge + i);
        i, qU, qV, pU, pV := i + 1, qU + 2, qV + 2, pU + 2, pV + 2;
      }
      EdgeAfterEdge(e, 2 * edge, 2);
      edge, pSrcU, pSrcV, pP1U, pP1V := edge + 1, pSrcU + 4, pSrcV + 4, pP1U + 4, pP1V + 4;
    }
    AllPairsDone(a[..], s, e, plan);
    if strd != 1 && strd != -1 { PairsAreJobs(s, e, plan); }
  }

  /** ih264_deblk_chroma_vert_bslt4 */
  method ChromaVertBslt4(a: array<byte>, src: int, strd: int, alphaCb: int, betaCb: int, alphaCr: int, betaCr: int,
                         bs: nat, cliptabCb: seq<byte>, cliptabCr: seq<byte>)
    requires TableCovers(bs, cliptabCb) && TableCovers(bs, cliptabCr)
    requires AllFit(Jobs(ChromaVert(src, strd),
                         ChromaPlan(2, alphaCb, betaCb, alphaCr, betaCr, bs, cliptabCb, cliptabCr)), a.Length)
    modifies a
    ensures a[..] == Run(old(a[..]), Jobs(ChromaVert(src, strd),
                                          ChromaPlan(2, alphaCb, betaCb, alphaCr, betaCr, bs, cliptabCb, cliptabCr)))
  {
    hide After, Jobs, Run, RunJob, RunPair, AllFit, LinePlaces, Apart;
    ghost var s, e := a[..], ChromaVert(src, strd);
    ghost var plan := ChromaPlan(2, alphaCb, betaCb, alphaCr, betaCr, bs, cliptabCb, cliptabCr);
    NothingYet(s, e, plan);
    var pSrcU, pSrcV, blkStrd, edge := src, src + 1, strd * 2, 0;
    while edge < 4
      invariant 0 <= edge <= 4 && pSrcU == e.Line(2 * edge) && pSrcV == pSrcU + 1
      invariant After(a[..], s, e, plan, 2 * edge)
    {
      var strength := BsByte(bs, edge);
      forall n | 2 * edge <= n < 2 * edge + 2 ensures Piece(n, 2) == edge { PieceOf(n, 2, edge); }
      if strength == 0 {
        SkipLines(a[..], s, e, plan, 2 * edge, 2);
      } else {
        var tcb0, tcr0 := cliptabCb[strength], cliptabCr[strength];
        var i, qU, qV := 0, pSrcU, pSrcV;
        while i < 2
          invariant 0 <= i <= 2 && qU == e.Line(2 * edge + i) && qV == qU + 1
          invariant After(a[..], s, e, plan, 2 * edge + i)
        {
          ChromaStep(a[..], s, e, plan, 2 * edge + i, ChromaBslt4(alphaCb, betaCb, tcb0),
                     ChromaBslt4(alphaCr, betaCr, tcr0));
          LinePlaces2(qU, e.step);
          LinePlaces2(qU + 1, e.step);
          PlanesApart(qU, e.step);
          ChromaBslt4Line(a, alphaCb, betaCb, tcb0, alphaCr, betaCr, tcr0,
                          qU - 4, qU - 2, qU, qU + 2, qV - 4, qV - 2, qV, qV + 2);
          LineAfterLine(e, 2 * edge + i);
          i, qU, qV := i + 1, qU + strd, qV + strd;
        }
      }
      EdgeAfterEdge(e, 2 * edge, 2);
      edge, pSrcU, pSrcV := edge + 1, pSrcU + blkStrd, pSrcV + blkStrd;
    }
    AllDone(a[..], s, e, plan);
  }

  /** ih264_deblk_chroma_horz_bslt4 */
  method ChromaHorzBslt4(a: array<byte>, src: int, strd: int, alphaCb: int, betaCb: int, alphaCr: int, betaCr: int,
                         bs: nat, cliptabCb: seq<byte>, cliptabCr: seq<byte>)
    requires TableCovers(bs, cliptabCb) && TableCovers(bs, cliptabCr)
    requires AllFit(Jobs(ChromaHorz(src, strd),
                         ChromaPlan(2, alphaCb, betaCb, alphaCr, betaCr, bs, cliptabCb, cliptabCr)), a.Length)
    modifies a
    ensures a[..] == RunPairs(old(a[..]), ChromaHorz(src, strd),
                              ChromaPlan(2, alphaCb, betaCb, alphaCr, betaCr, bs, cliptabCb, cliptabCr))
    ensures strd != 1 && strd != -1 ==>
              a[..] == Run(old(a[..]), Jobs(ChromaHorz(src, strd),
                                            ChromaPlan(2, alphaCb, betaCb, alphaCr, betaCr, bs, cliptabCb, cliptabCr)))
  {
    hide AfterPairs, RunPairs, RunPair, Jobs, Run, RunJob, AllFit, LinePlaces, Apart;
    ghost var s, e := a[..], ChromaHorz(src, strd);
    ghost var plan := ChromaPlan(2, alphaCb, betaCb, alphaCr, betaCr, bs, cliptabCb, cliptabCr);
    NoPairYet(s, e, plan);
    var pSrcU, pSrcV, edge := src, src + 1, 0;
    var pP1U, pP1V := pSrcU - strd * 2, pSrcV - strd * 2;
    while edge < 4
      invariant 0 <= edge <= 4 && pSrcU == e.Line(2 * edge) && pSrcV == pSrcU + 1
      invariant pP1U == pSrcU - strd * 2 && pP1V == pSrcV - strd * 2
      invariant AfterPairs(a[..], s, e, plan, 2 * edge)
    {
      var strength := BsByte(bs, edge);
      forall n | 2 * edge <= n < 2 * edge + 2 ensures Piece(n, 2) == edge { PieceOf(n, 2, edge); }
      if strength == 0 {
        SkipPairs(a[..], s, e, plan, 2 * edge, 2);
      } else {
        var tcb0, tcr0 := cliptabCb[strength], cliptabCr[strength];
        var i, qU, qV, pU, pV := 0, pSrcU, pSrcV, pP1U, pP1V;
        while i < 2
          invariant 0 <= i <= 2 && qU == e.Line(2 * edge + i) && qV == qU + 1
          invariant pU == qU - strd * 2 && pV == qV - strd * 2
          invariant AfterPairs(a[..], s, e, plan, 2 * edge + i)
        {
          PairStep(a[..], s, e, plan, 2 * edge + i, ChromaBslt4(alphaCb, betaCb, tcb0),
                   ChromaBslt4(alphaCr, betaCr, tcr0));
          LinePlaces2(qU, e.step);
          LinePlaces2(qU + 1, e.step);
          ChromaBslt4Line(a, alphaCb, betaCb, tcb0, alphaCr, betaCr, tcr0,
                          pU, pU + strd, qU, qU + strd, pV, pV + strd, qV, qV + strd);
          LineAfterLine(e, 2 * edge + i);
          i, qU, qV, pU, pV := i + 1, qU + 2, qV + 2, pU + 2, pV + 2;
        }
      }
      EdgeAfterEdge(e, 2 * edge, 2);
      edge, pSrcU, pSrcV, pP1U, pP1V := edge + 1, pSrcU + 4, pSrcV + 4, pP1U + 4, pP1V + 4;
    }
    AllPairsDone(a[..], s, e, plan);
    if strd != 1 && strd != -1 { PairsAreJobs(s, e, plan); }
  }

  /** ih264_deblk_chroma_vert_bs4_mbaff */
  method ChromaVertBs4Mbaff(a: array<byte>, src: int, strd: int, alphaCb: int, betaCb: int, alphaCr: int, betaCr: int)
    requires AllFit(Jobs(ChromaVert(src, strd), ChromaEven(4, alphaCb, betaCb, alphaCr, betaCr)), a.Length)
    modifies a
    ensures a[..] == Run(old(a[..]), Jobs(ChromaVert(src, strd), ChromaEven(4, alphaCb, betaCb, alphaCr, betaCr)))
  {
    hide After, Jobs, Run, RunJob, RunPair, AllFit, LinePlaces, Apart;
    ghost var s, e := a[..], ChromaVert(src, strd);
    ghost var plan := ChromaEven(4, alphaCb, betaCb, alphaCr, betaCr);
    NothingYet(s, e, plan);
    var pSrcU, pSrcV, blkStrd, edge := src, src + 1, strd, 0;
    while edge < 4
      invariant 0 <= edge <= 4 && pSrcU == e.Line(edge) && pSrcV == pSrcU + 1
      invariant After(a[..], s, e, plan, edge)
    {
      ChromaStep(a[..], s, e, plan, edge, ChromaBs4(alphaCb, betaCb), ChromaBs4(alphaCr, betaCr));
      LinePlaces2(pSrcU, e.step);
      LinePlaces2(pSrcU + 1, e.step);
      PlanesApart(pSrcU, e.step);
      ChromaBs4Line(a, alphaCb, betaCb, alphaCr, betaCr,
                    pSrcU - 4, pSrcU - 2, pSrcU, pSrcU + 2, pSrcV - 4, pSrcV - 2, pSrcV, pSrcV + 2);
      EdgeAfterEdge(e, edge, 1);
      edge, pSrcU, pSrcV := edge + 1, pSrcU + blkStrd, pSrcV + blkStrd;
    }
    AllDone(a[..], s, e, plan);
  }

  /** ih264_deblk_chroma_vert_bslt4_mbaff */
  method ChromaVertBslt4Mbaff(a: array<byte>, src: int, strd: int, alphaCb: int, betaCb: int, alphaCr: int, betaCr: int,
                              bs: nat, cliptabCb: seq<byte>, cliptabCr: seq<byte>)
    requires TableCovers(bs, cliptabCb) && TableCovers(bs, cliptabCr)
    requires AllFit(Jobs(ChromaVert(src, strd),
                         ChromaPlan(1, alphaCb, betaCb, alphaCr, betaCr, bs, cliptabCb, cliptabCr)), a.Length)
    modifies a
    ensures a[..] == Run(old(a[..]), Jobs(ChromaVert(src, strd),
                                          ChromaPlan(1, alphaCb, betaCb, alphaCr, betaCr, bs, cliptabCb, cliptabCr)))
  {
    hide After, Jobs, Run, RunJob, RunPair, AllFit, LinePlaces, Apart;
    ghost var s, e := a[..], ChromaVert(src, strd);
    ghost var plan := ChromaPlan(1, alphaCb, betaCb, alphaCr, betaCr, bs, cliptabCb, cliptabCr);
    NothingYet(s, e, plan);
    var pSrcU, pSrcV, blkStrd, edge := src, src + 1, strd, 0;
    while edge < 4
      invariant 0 <= edge <= 4 && pSrcU == e.Line(edge) && pSrcV == pSrcU + 1
      invariant After(a[..], s, e, plan, edge)
    {
      var strength := BsByte(bs, edge);
      forall n | edge <= n < edge + 1 ensures Piece(n, 1) == edge { PieceOf(n, 1, edge); }
      if strength == 0 {
        SkipLines(a[..], s, e, plan, edge, 1);
      } else {
        var tcb0, tcr0 := cliptabCb[strength], cliptabCr[strength];
        ChromaStep(a[..], s, e, plan, edge, ChromaBslt4(alphaCb, betaCb, tcb0), ChromaBslt4(alphaCr, betaCr, tcr0));
        LinePlaces2(pSrcU, e.step);
        LinePlaces2(pSrcU + 1, e.step);
        PlanesApart(pSrcU, e.step);
        ChromaBslt4Line(a, alphaCb, betaCb, tcb0, alphaCr, betaCr, tcr0,
                        pSrcU - 4, pSrcU - 2, pSrcU, pSrcU + 2, pSrcV - 4, pSrcV - 2, pSrcV, pSrcV + 2);
      }
      EdgeAfterEdge(e, edge, 1);
      edge, pSrcU, pSrcV := edge + 1, pSrcU + blkStrd, pSrcV + blkStrd;
    }
    AllDone(a[..], s, e, plan);
  }
}
