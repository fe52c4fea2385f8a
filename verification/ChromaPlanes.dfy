/** Chroma samples of the two planes alternate in memory. Filtering them together is filtering each plane alone; and
    for strength 4 it does not matter which side of the edge is called p. */
module ChromaPlanes {
  import opened CInt
  import opened LineFilters
  import opened LineTheorems
  import opened LineJobs
  import opened EdgePlans
  import opened EdgeGeometry
  import opened DeblockEdges

  /** The places of one plane in a buffer of `n` samples: every other one, starting at `r`. */
  function PlanePlaces(n: nat, r: nat): (at: seq<int>)
    requires r <= 1
    ensures Places(at, n) && forall x {:trigger at[x]} :: 0 <= x < |at| ==> at[x] == 2 * x + r
    ensures |at| == (n + 1 - r) / 2
  {
    seq((n + 1 - r) / 2, x => 2 * x + r)
  }

  /** Which of the two planes place `x` belongs to. */
  function Parity(x: int): (r: nat)
    ensures r <= 1
  {
    x % 2
  }

  /** The edge as it lies in the plane that plane `c` of the line (0 for U, 1 for V) belongs to. */
  function PlaneEdge(e: Edge, c: nat): Edge {
    Edge((e.src + c - Parity(e.src + c)) / 2, e.lineStep / 2, e.step / 2)
  }

  /** Plane `c` of every line, on its own. */
  function PlanePlan(plan: Plan, c: nat): (r: Plan)
    requires Interleaved(plan) && c <= 1
    ensures |r| == |plan|
  {
    seq(|plan|, n requires 0 <= n < |plan| => if plan[n] == [] then [] else [Plane(0, plan[n][c].filter)])
  }

  /** Every line has both planes or none. */
  predicate Interleaved(plan: Plan) {
    forall n :: 0 <= n < |plan| ==>
      plan[n] == [] || (|plan[n]| == 2 && plan[n][0].offset == 0 && plan[n][1].offset == 1)
  }

  lemma PlaneLine(e: Edge, c: nat, n: int)
    requires e.lineStep % 2 == 0 && e.step % 2 == 0
    ensures e.Line(n) + c == 2 * PlaneEdge(e, c).Line(n) + Parity(e.src + c)
    ensures Parity(e.Line(n) + c) == Parity(e.src + c)
  {
    assert n * e.lineStep == 2 * (n * (e.lineStep / 2));
  }

  lemma HalvedPlaces(q0: int, r: nat, step: int, d: nat, k: nat)
    requires r <= 1 && step % 2 == 0 && k < 2 * d
    ensures LinePlaces(2 * q0 + r, step, d)[k] == 2 * LinePlaces(q0, step / 2, d)[k] + r
  {
    assert (k - d) * step == 2 * ((k - d) * (step / 2));
  }

  /** A line seen in its own plane is a line there. */
  lemma SeenInOwnPlane(q0: int, r: nat, step: int, f: Filter, n: nat)
    requires r <= 1 && step % 2 == 0 && Job(LinePlaces(2 * q0 + r, step, f.Depth()), f).Fits(n)
    ensures SameLine(Job(LinePlaces(q0, step / 2, f.Depth()), f), Job(LinePlaces(2 * q0 + r, step, f.Depth()), f),
                     PlanePlaces(n, r))
    ensures Job(LinePlaces(q0, step / 2, f.Depth()), f).Fits(|PlanePlaces(n, r)|)
  {
    var view, job := LinePlaces(q0, step / 2, f.Depth()), LinePlaces(2 * q0 + r, step, f.Depth());
    forall k | 0 <= k < |view| ensures job[k] == 2 * view[k] + r { HalvedPlaces(q0, r, step, f.Depth(), k); }
    forall k, l | 0 <= k < |view| && 0 <= l < |view| && k != l ensures view[k] != view[l] {
      assert job[k] != job[l];
    }
  }

  /** A line of the other plane is not seen at all. */
  lemma HiddenInOtherPlane(s: seq<byte>, q0: int, r: nat, step: int, f: Filter)
    requires r <= 1 && step % 2 == 0 && Job(LinePlaces(2 * q0 + r, step, f.Depth()), f).Fits(|s|)
    ensures Pull(RunJob(s, Job(LinePlaces(2 * q0 + r, step, f.Depth()), f)), PlanePlaces(|s|, 1 - r))
         == Pull(s, PlanePlaces(|s|, 1 - r))
  {
    var j, at := Job(LinePlaces(2 * q0 + r, step, f.Depth()), f), PlanePlaces(|s|, 1 - r);
    forall x | 0 <= x < |at| ensures at[x] !in j.at {
      forall k | 0 <= k < |j.at| ensures j.at[k] != at[x] { HalvedPlaces(q0, r, step, f.Depth(), k); }
    }
    ApartJobKeepsLine(s, j, at);
  }

  /** One line of both planes: plane `c` ends as if its own line alone had been filtered there. */
  lemma LineInPlane(s: seq<byte>, e: Edge, n: nat, planes: seq<Plane>, c: nat)
    requires e.lineStep % 2 == 0 && e.step % 2 == 0 && c <= 1
    requires |planes| == 2 && planes[0].offset == 0 && planes[1].offset == 1
    requires AllFit(JobsOfLine(e.Line(n), e.step, planes), |s|)
    ensures var at, pe := PlanePlaces(|s|, Parity(e.src + c)), PlaneEdge(e, c);
            var own := JobsOfLine(pe.Line(n), pe.step, [Plane(0, planes[c].filter)]);
            && AllFit(own, |at|)
            && Pull(Run(s, JobsOfLine(e.Line(n), e.step, planes)), at) == Run(Pull(s, at), own)
  {
    hide LinePlaces, Places, RunJob, SameLine, PlanePlaces, Edge.Line, Apply, Parity;
    var r, pe := Parity(e.src + c), PlaneEdge(e, c);
    var at, js := PlanePlaces(|s|, r), JobsOfLine(e.Line(n), e.step, planes);
    PlaneLine(e, 0, n);
    PlaneLine(e, 1, n);
    assert js[0].Fits(|s|) && js[1].Fits(|s|);
    RunTwo(s, js[0], js[1]);
    assert js == [js[0], js[1]];
    var own := Job(LinePlaces(pe.Line(n), pe.step, planes[c].filter.Depth()), planes[c].filter);
    assert js[c].at == LinePlaces(2 * pe.Line(n) + r, e.step, planes[c].filter.Depth());
    SeenInOwnPlane(pe.Line(n), r, e.step, planes[c].filter, |s|);
    if c == 0 {
      ViewOfJob(s, at, own, js[0]);
      PlaneParities(e.src);
      HiddenInOtherPlane(RunJob(s, js[0]), PlaneEdge(e, 1).Line(n), 1 - r, e.step, planes[1].filter);
    } else {
      PlaneParities(e.src);
      HiddenInOtherPlane(s, PlaneEdge(e, 0).Line(n), 1 - r, e.step, planes[0].filter);
      ViewOfJob(RunJob(s, js[0]), at, own, js[1]);
    }
    OneJob(Pull(s, at), own);
    assert JobsOfLine(pe.Line(n), pe.step, [Plane(0, planes[c].filter)]) == [own];
  }

  lemma PlaneParities(src: int)
    ensures Parity(src + 1) == 1 - Parity(src + 0) && Parity(src) == Parity(src + 0)
  {
  }

  lemma OneJob(s: seq<byte>, j: Job)
    requires j.Fits(|s|)
    ensures AllFit([j], |s|) && Run(s, [j]) == RunJob(s, j)
  {
    assert [j][..0] == [];
    assert Run(s, [j][..0]) == s;
  }

  /** De-interleaving after filtering equals filtering the planes independently: neither plane's samples, thresholds
      nor clipping table have any influence on the other. */
  lemma {:induction false} PlanesAreIndependent(s: seq<byte>, e: Edge, plan: Plan, c: nat)
    requires e.lineStep % 2 == 0 && e.step % 2 == 0 && c <= 1 && Interleaved(plan) && AllFit(Jobs(e, plan), |s|)
    ensures var at, own := PlanePlaces(|s|, Parity(e.src + c)), Jobs(PlaneEdge(e, c), PlanePlan(plan, c));
            AllFit(own, |at|) && Pull(Run(s, Jobs(e, plan)), at) == Run(Pull(s, at), own)
  {
    hide LinePlaces, Places, RunJob, PlanePlaces, Parity, PlaneEdge, Edge.Line;
    if plan != [] {
      var l, at, pe := |plan| - 1, PlanePlaces(|s|, Parity(e.src + c)), PlaneEdge(e, c);
      var front, now := Jobs(e, plan[..l]), JobsOfLine(e.Line(l), e.step, plan[l]);
      PartsFit(front, now, |s|);
      PlanesAreIndependent(s, e, plan[..l], c);
      assert PlanePlan(plan, c)[..l] == PlanePlan(plan[..l], c);
      RunAppend(s, front, now);
      var ownNow := JobsOfLine(pe.Line(l), pe.step, PlanePlan(plan, c)[l]);
      if plan[l] != [] {
        LineInPlane(Run(s, front), e, l, plan[l], c);
      }
      RunAppend(Pull(s, at), Jobs(pe, PlanePlan(plan[..l], c)), ownNow);
    }
  }

  // ---------------------------------------------------------------------------------------
  // The baseline filters are the high profile filters with the two planes treated alike.
  // ---------------------------------------------------------------------------------------

  method BothProfiles(a: array<byte>, b: array<byte>, src: int, strd: int, alpha: int, beta: int,
                      bs: nat, cliptab: seq<byte>, which: nat)
    requires a != b && a[..] == b[..] && which < 6 && TableCovers(bs, cliptab)
    requires which == 0 ==> AllFit(Jobs(ChromaVert(src, strd), ChromaEven(8, alpha, beta, alpha, beta)), a.Length)
    requires which == 1 ==> AllFit(Jobs(ChromaHorz(src, strd), ChromaEven(8, alpha, beta, alpha, beta)), a.Length)
    requires which == 2 ==> AllFit(Jobs(ChromaVert(src, strd), ChromaEven(4, alpha, beta, alpha, beta)), a.Length)
    requires which == 3 ==> AllFit(Jobs(ChromaVert(src, strd),
                                        ChromaPlan(2, alpha, beta, alpha, beta, bs, cliptab, cliptab)), a.Length)
    requires which == 4 ==> AllFit(Jobs(ChromaHorz(src, strd),
                                        ChromaPlan(2, alpha, beta, alpha, beta, bs, cliptab, cliptab)), a.Length)
    requires which == 5 ==> AllFit(Jobs(ChromaVert(src, strd),
                                        ChromaPlan(1, alpha, beta, alpha, beta, bs, cliptab, cliptab)), a.Length)
    modifies a, b
    ensures a[..] == b[..]
  {
    hide *;
    assert a.Length == b.Length by { assert |a[..]| == |b[..]|; }
    match which {
      case 0 =>
        ChromaVertBs4(a, src, strd, alpha, beta, alpha, beta);
        ChromaVertBs4Bp(b, src, strd, alpha, beta);
      case 1 =>
        ChromaHorzBs4(a, src, strd, alpha, beta, alpha, beta);
        ChromaHorzBs4Bp(b, src, strd, alpha, beta);
      case 2 =>
        ChromaVertBs4Mbaff(a, src, strd, alpha, beta, alpha, beta);
        ChromaVertBs4MbaffBp(b, src, strd, alpha, beta);
      case 3 =>
        ChromaVertBslt4(a, src, strd, alpha, beta, alpha, beta, bs, cliptab, cliptab);
        ChromaVertBslt4Bp(b, src, strd, alpha, beta, bs, cliptab);
      case 4 =>
        ChromaHorzBslt4(a, src, strd, alpha, beta, alpha, beta, bs, cliptab, cliptab);
        ChromaHorzBslt4Bp(b, src, strd, alpha, beta, bs, cliptab);
      case _ =>
        ChromaVertBslt4Mbaff(a, src, strd, alpha, beta, alpha, beta, bs, cliptab, cliptab);
        ChromaVertBslt4MbaffBp(b, src, strd, alpha, beta, bs, cliptab);
    }
  }

  // ---------------------------------------------------------------------------------------
  // Strength 4: exchanging p and q.
  // ---------------------------------------------------------------------------------------

  /** The same edge with its two sides exchanged. */
  function Mirror(e: Edge): Edge { Edge(e.src - e.step, e.lineStep, -e.step) }

  predicate AllBs4(plan: Plan) {
    forall n, i :: 0 <= n < |plan| && 0 <= i < |plan[n]| ==> plan[n][i].filter.LumaBs4? || plan[n][i].filter.ChromaBs4?
  }

  lemma MirrorLine(q0: int, step: int, f: Filter)
    ensures Job(LinePlaces(q0 - step, -step, f.Depth()), f) == Flip(Job(LinePlaces(q0, step, f.Depth()), f))
  {
    var d := f.Depth();
    var a, b := LinePlaces(q0 - step, -step, d), ReversePlaces(LinePlaces(q0, step, d));
    forall k | 0 <= k < 2 * d ensures a[k] == b[k] {
      assert (k - d) * -step == (d - k) * step;
      assert (2 * d - 1 - k - d) * step == (d - k) * step - step;
    }
  }

  lemma {:induction false} FlippedJobs(s: seq<byte>, jobs: seq<Job>, flipped: seq<Job>)
    requires AllFit(jobs, |s|) && |flipped| == |jobs|
    requires forall x :: 0 <= x < |jobs| ==> flipped[x] == Flip(jobs[x])
    requires forall x :: 0 <= x < |jobs| ==> jobs[x].filter.LumaBs4? || jobs[x].filter.ChromaBs4?
    ensures AllFit(flipped, |s|) && Run(s, flipped) == Run(s, jobs)
  {
    hide Places, ReversePlaces, Flip, RunJob, Apply;
    if jobs != [] {
      var l := |jobs| - 1;
      FlippedJobs(s, jobs[..l], flipped[..l]);
      FlippedBs4(Run(s, jobs[..l]), jobs[l]);
    }
  }

  lemma FlippedBs4(s: seq<byte>, j: Job)
    requires j.Fits(|s|) && (j.filter.LumaBs4? || j.filter.ChromaBs4?)
    ensures Flip(j).Fits(|s|) && RunJob(s, Flip(j)) == RunJob(s, j)
  {
    Bs4Mirrors(Pull(s, j.at), j.filter.ChromaBs4?, j.filter.alpha, j.filter.beta);
    FlippedJob(s, j);
  }

  lemma {:induction false} MirroredJobs(e: Edge, plan: Plan)
    ensures |Jobs(Mirror(e), plan)| == |Jobs(e, plan)|
    ensures forall x :: 0 <= x < |Jobs(e, plan)| ==> Jobs(Mirror(e), plan)[x] == Flip(Jobs(e, plan)[x])
  {
    hide LinePlaces, Flip;
    if plan != [] {
      var l := |plan| - 1;
      MirroredJobs(e, plan[..l]);
      var a, b := JobsOfLine(Mirror(e).Line(l), -e.step, plan[l]), JobsOfLine(e.Line(l), e.step, plan[l]);
      forall i | 0 <= i < |b| ensures a[i] == Flip(b[i]) {
        MirrorLine(e.Line(l) + plan[l][i].offset, e.step, plan[l][i].filter);
      }
    }
  }

  /** A whole strength 4 edge, luma or chroma, comes out the same when its two sides are exchanged. */
  lemma Bs4EdgeMirrors(s: seq<byte>, e: Edge, plan: Plan)
    requires AllFit(Jobs(e, plan), |s|) && AllBs4(plan)
    ensures AllFit(Jobs(Mirror(e), plan), |s|) && Run(s, Jobs(Mirror(e), plan)) == Run(s, Jobs(e, plan))
  {
    MirroredJobs(e, plan);
    forall x | 0 <= x < |Jobs(e, plan)| ensures Jobs(e, plan)[x].filter.LumaBs4? || Jobs(e, plan)[x].filter.ChromaBs4? {
      var n, i := JobHasLine(e, plan, x);
    }
    FlippedJobs(s, Jobs(e, plan), Jobs(Mirror(e), plan));
  }

  /** If every sample of a line of a strength 4 edge lies within `lo..hi`, so it does afterwards. */
  lemma Bs4EdgeStaysWithin(s: seq<byte>, e: Edge, plan: Plan, n: nat, i: nat, lo: int, hi: int)
    requires AllFit(Jobs(e, plan), |s|) && LinesApart(e, plan) && AllBs4(plan) && n < |plan| && i < |plan[n]|
    requires Places(PlacesOf(e, plan, n, i), |s|) && Within(Pull(s, PlacesOf(e, plan, n, i)), lo, hi)
    ensures Within(Pull(Run(s, Jobs(e, plan)), PlacesOf(e, plan, n, i)), lo, hi)
  {
    var f := plan[n][i].filter;
    EveryLineFiltered(s, e, plan, n, i);
    Bs4StaysWithin(Pull(s, PlacesOf(e, plan, n, i)), f.ChromaBs4?, f.alpha, f.beta, lo, hi);
  }
}
