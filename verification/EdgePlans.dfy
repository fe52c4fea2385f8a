/** Which lines an edge filter visits, and with which filter. */
module EdgePlans {
  import opened CInt
  import opened LineFilters
  import opened LineJobs

  /** An edge: where its first line's q0 lies, the distance from line to line, and the distance from sample to
      sample along a line. */
  datatype Edge = Edge(src: int, lineStep: int, step: int) {
    /** Where the n-th line's q0 lies. */
    function Line(n: int): int { src + n * lineStep }
    /** The same edge from its m-th line on. */
    function From(m: int): Edge { Edge(Line(m), lineStep, step) }
  }

  function LumaVert(src: int, strd: int): Edge { Edge(src, strd, 1) }
  function LumaHorz(src: int, strd: int): Edge { Edge(src, 1, strd) }
  /** U and V samples alternate, so chroma samples of a plane are two bytes apart. */
  function ChromaVert(src: int, strd: int): Edge { Edge(src, strd, 2) }
  function ChromaHorz(src: int, strd: int): Edge { Edge(src, 2, strd) }

  /** One plane's share of a line: where it starts relative to the line, and its filter. */
  datatype Plane = Plane(offset: int, filter: Filter)

  /** For every line in turn, its planes; none for a line that is left alone. */
  type Plan = seq<seq<Plane>>

  /** The places of a line with q0 at `q0`: p(d-1), .., p0, q0, .., q(d-1). */
  function LinePlaces(q0: int, step: int, d: nat): (at: seq<int>)
    ensures |at| == 2 * d && forall k {:trigger at[k]} :: 0 <= k < 2 * d ==> at[k] == q0 + (k - d) * step
  {
    seq(2 * d, k => q0 + (k - d) * step)
  }

  function JobsOfLine(q0: int, step: int, planes: seq<Plane>): (r: seq<Job>)
    ensures |r| == |planes|
    ensures forall i {:trigger r[i]} :: 0 <= i < |planes| ==>
      r[i] == Job(LinePlaces(q0 + planes[i].offset, step, planes[i].filter.Depth()), planes[i].filter)
  {
    seq(|planes|, i requires 0 <= i < |planes| =>
      Job(LinePlaces(q0 + planes[i].offset, step, planes[i].filter.Depth()), planes[i].filter))
  }

  function Jobs(e: Edge, plan: Plan): (r: seq<Job>) {
    if plan == [] then []
    else
      var n := |plan| - 1;
      Jobs(e, plan[..n]) + JobsOfLine(e.Line(n), e.step, plan[n])
  }

  lemma {:induction false} JobsAppend(e: Edge, a: Plan, b: Plan)
    ensures Jobs(e, a + b) == Jobs(e, a) + Jobs(e.From(|a|), b)
  {
    if b == [] {
      assert a + b == a;
    } else {
      var n := |b| - 1;
      assert (a + b)[..|a| + n] == a + b[..n];
      JobsAppend(e, a, b[..n]);
      LineFrom(e, |a|, n);
      var last := JobsOfLine(e.Line(|a| + n), e.step, b[n]);
      assert Jobs(e, a + b) == Jobs(e, a + b[..n]) + last;
      assert Jobs(e.From(|a|), b) == Jobs(e.From(|a|), b[..n]) + last;
    }
  }

  lemma LineFrom(e: Edge, m: int, n: int)
    ensures e.From(m).Line(n) == e.Line(m + n)
  {
    assert (m + n) * e.lineStep == m * e.lineStep + n * e.lineStep;
  }

  lemma PrefixFits(e: Edge, plan: Plan, n: nat, size: nat)
    requires n <= |plan| && AllFit(Jobs(e, plan), size)
    ensures AllFit(Jobs(e, plan[..n]), size)
  {
    assert plan == plan[..n] + plan[n..];
    JobsAppend(e, plan[..n], plan[n..]);
    PartsFit(Jobs(e, plan[..n]), Jobs(e.From(n), plan[n..]), size);
  }

  /** The step a filter's loop takes: one more line, whose jobs fit if all do. */
  lemma NextLine(e: Edge, plan: Plan, n: nat, size: nat)
    requires n < |plan| && AllFit(Jobs(e, plan), size)
    ensures Jobs(e, plan[..n + 1]) == Jobs(e, plan[..n]) + JobsOfLine(e.Line(n), e.step, plan[n])
    ensures AllFit(Jobs(e, plan[..n]), size)
    ensures AllFit(JobsOfLine(e.Line(n), e.step, plan[n]), size)
  {
    PrefixFits(e, plan, n + 1, size);
    assert plan[..n + 1][..n] == plan[..n];
    PartsFit(Jobs(e, plan[..n]), JobsOfLine(e.Line(n), e.step, plan[n]), size);
  }

  // ---------------------------------------------------------------------------------------
  // The plans of the filters.
  // ---------------------------------------------------------------------------------------

  function Luma(f: Filter): seq<Plane> { [Plane(0, f)] }
  function Chroma(u: Filter, v: Filter): seq<Plane> { [Plane(0, u), Plane(1, v)] }

  /** Boundary strength 4: `lines` lines, all alike. */
  function EvenPlan(lines: nat, planes: seq<Plane>): (r: Plan)
    ensures |r| == lines && forall n :: 0 <= n < lines ==> r[n] == planes
  {
    seq(lines, _ => planes)
  }

  function LumaEven(lines: nat, alpha: int, beta: int): (r: Plan)
    ensures |r| == lines && forall n :: 0 <= n < lines ==> r[n] == Luma(LumaBs4(alpha, beta))
  {
    EvenPlan(lines, Luma(LumaBs4(alpha, beta)))
  }

  function ChromaEven(lines: nat, alphaCb: int, betaCb: int, alphaCr: int, betaCr: int): (r: Plan)
    ensures |r| == lines
    ensures forall n :: 0 <= n < lines ==> r[n] == Chroma(ChromaBs4(alphaCb, betaCb), ChromaBs4(alphaCr, betaCr))
  {
    EvenPlan(lines, Chroma(ChromaBs4(alphaCb, betaCb), ChromaBs4(alphaCr, betaCr)))
  }

  /** The boundary strength of one of the four pieces of an edge: a byte of `u4_bs`, the first piece's on top. */
  function BsByte(bs: nat, piece: nat): byte
    requires piece < 4
  {
    bs / [0x100_0000, 0x1_0000, 0x100, 1][piece] % 256
  }

  function PackBs(b0: byte, b1: byte, b2: byte, b3: byte): nat {
    b0 * 0x100_0000 + b1 * 0x1_0000 + b2 * 0x100 + b3
  }

  lemma PackedBytes(b0: byte, b1: byte, b2: byte, b3: byte)
    ensures var bs := PackBs(b0, b1, b2, b3);
            BsByte(bs, 0) == b0 && BsByte(bs, 1) == b1 && BsByte(bs, 2) == b2 && BsByte(bs, 3) == b3
  {
    var bs: nat := PackBs(b0, b1, b2, b3);
    assert bs / 0x100 == b0 * 0x1_0000 + b1 * 0x100 + b2;
    assert bs / 0x1_0000 == b0 * 0x100 + b1;
    assert bs / 0x100_0000 == b0;
  }

  /** The table of clipping values is read only where a strength is not zero. */
  predicate TableCovers(bs: nat, table: seq<byte>) {
    forall piece :: 0 <= piece < 4 ==> BsByte(bs, piece) == 0 || BsByte(bs, piece) < |table|
  }

  function LumaPiece(alpha: int, beta: int, strength: byte, table: seq<byte>): seq<Plane>
    requires strength == 0 || strength < |table|
  {
    if strength == 0 then [] else Luma(LumaBslt4(alpha, beta, table[strength]))
  }

  /** Boundary strength below 4: `per` lines for each of the four pieces. */
  function LumaPlan(per: nat, alpha: int, beta: int, bs: nat, table: seq<byte>): (r: Plan)
    requires per > 0 && TableCovers(bs, table)
    ensures |r| == 4 * per
  {
    seq(4 * per, n requires 0 <= n < 4 * per => LumaPiece(alpha, beta, BsByte(bs, Piece(n, per)), table))
  }

  function Piece(n: nat, per: nat): (piece: nat)
    requires n < 4 * per
    ensures piece < 4 && piece * per <= n < (piece + 1) * per
  {
    if n < per then 0 else if n < 2 * per then 1 else if n < 3 * per then 2 else 3
  }

  function ChromaPiece(alphaCb: int, betaCb: int, alphaCr: int, betaCr: int, strength: byte,
                       tableCb: seq<byte>, tableCr: seq<byte>): seq<Plane>
    requires strength == 0 || (strength < |tableCb| && strength < |tableCr|)
  {
    if strength == 0 then []
    else Chroma(ChromaBslt4(alphaCb, betaCb, tableCb[strength]), ChromaBslt4(alphaCr, betaCr, tableCr[strength]))
  }

  function ChromaPlan(per: nat, alphaCb: int, betaCb: int, alphaCr: int, betaCr: int, bs: nat,
                      tableCb: seq<byte>, tableCr: seq<byte>): (r: Plan)
    requires per > 0 && TableCovers(bs, tableCb) && TableCovers(bs, tableCr)
    ensures |r| == 4 * per
  {
    seq(4 * per, n requires 0 <= n < 4 * per =>
      ChromaPiece(alphaCb, betaCb, alphaCr, betaCr, BsByte(bs, Piece(n, per)), tableCb, tableCr))
  }
}
