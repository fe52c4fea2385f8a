/** One line of samples across a block edge, and what the H.264 deblocking filter makes of it.
    A line is [p(d-1), .., p0, q0, .., q(d-1)], where d is how far the filter looks. */
module LineFilters {
  import opened CInt

  type Line = seq<byte>

  function Reverse(s: Line): (r: Line)
    ensures |r| == |s|
    ensures forall k {:trigger r[k]} :: 0 <= k < |s| ==> r[k] == s[|s| - 1 - k]
  {
    seq(|s|, i requires 0 <= i < |s| => s[|s| - 1 - i])
  }

  datatype Filter =
    | LumaBs4(alpha: int, beta: int)
    | LumaBslt4(alpha: int, beta: int, tc0: byte)
    | ChromaBs4(alpha: int, beta: int)
    | ChromaBslt4(alpha: int, beta: int, tc0: byte)
  {
    function Depth(): (d: nat) {
      match this
      case LumaBs4(_, _) => 4
      case LumaBslt4(_, _, _) => 3
      case ChromaBs4(_, _) => 2
      case ChromaBslt4(_, _, _) => 2
    }

    function Taps(): nat { 2 * Depth() }
  }

  // ---------------------------------------------------------------------------------------
  // The filter as sections 8.7.2.3 and 8.7.2.4 of ITU-T Rec. H.264 state it.
  // ---------------------------------------------------------------------------------------

  /** filterSamplesFlag for a non-zero boundary strength (section 8.7.2.2). */
  predicate FilterSamples(p1: int, p0: int, q0: int, q1: int, alpha: int, beta: int) {
    Abs(p0 - q0) < alpha && Abs(p1 - p0) < beta && Abs(q1 - q0) < beta
  }

  /** Boundary strength 4: the new a2, a1, a0 on one side of the edge, where the a are the samples of that side
      and the b those of the other, counted from the edge. The standard states the q side as the p side with
      the two exchanged. */
  function SideBs4(a3: byte, a2: byte, a1: byte, a0: byte, b0: byte, b1: byte,
                   chroma: bool, alpha: int, beta: int): (byte, byte, byte)
  {
    if !chroma && Abs(a2 - a0) < beta && Abs(a0 - b0) < Shr2(alpha) + 2 then
      (Shr3(2 * a3 + 3 * a2 + a1 + a0 + b0 + 4),
       Shr2(a2 + a1 + a0 + b0 + 2),
       Shr3(a2 + 2 * a1 + 2 * a0 + 2 * b0 + b1 + 4))
    else
      (a2, a1, Shr2(2 * a1 + a0 + b1 + 2))
  }

  /** Boundary strength below 4: the clipping range tC. */
  function ClipRange(a2: int, b2: int, chroma: bool, beta: int, tc0: nat): nat {
    if chroma then tc0 + 1
    else tc0 + (if a2 < beta then 1 else 0) + (if b2 < beta then 1 else 0)
  }

  function DeltaRaw(p1: int, p0: int, q0: int, q1: int): int {
    Shr3((q0 - p0) * 4 + (p1 - q1) + 4)
  }

  /** Boundary strength below 4: the second luma sample of a side, and the step it makes when not clipped. */
  function SecondStep(a2: int, a1: int, a0: int, b0: int): int {
    Shr1(a2 + Shr1(a0 + b0 + 1) - 2 * a1)
  }

  function SecondSample(a2: int, a1: int, a0: int, b0: int, tc0: int): int {
    a1 + Clip3(-tc0, tc0, SecondStep(a2, a1, a0, b0))
  }

  /** Chroma filtering does not look at a third sample, so the zeros are not used. */
  function StandardBs4(line: Line, chroma: bool, alpha: int, beta: int): (r: Line)
    requires |line| == if chroma then 4 else 8
    ensures |r| == |line|
  {
    if chroma then
      var p1, p0, q0, q1 := line[0], line[1], line[2], line[3];
      if FilterSamples(p1, p0, q0, q1, alpha, beta) then
        [p1, SideBs4(0, 0, p1, p0, q0, q1, true, alpha, beta).2, SideBs4(0, 0, q1, q0, p0, p1, true, alpha, beta).2, q1]
      else line
    else
      var p3, p2, p1, p0 := line[0], line[1], line[2], line[3];
      var q0, q1, q2, q3 := line[4], line[5], line[6], line[7];
      if FilterSamples(p1, p0, q0, q1, alpha, beta) then
        var p := SideBs4(p3, p2, p1, p0, q0, q1, false, alpha, beta);
        var q := SideBs4(q3, q2, q1, q0, p0, p1, false, alpha, beta);
        [p3, p.0, p.1, p.2, q.2, q.1, q.0, q3]
      else line
  }

  /** Boundary strength below 4: what the standard gives for p1, p0, q0, q1. The second samples are not
      clipped to a byte, and SecondSampleFits says they need not be. */
  function StandardInner(p2: int, p1: int, p0: int, q0: int, q1: int, q2: int,
                         chroma: bool, alpha: int, beta: int, tc0: nat): (int, int, int, int)
  {
    if !FilterSamples(p1, p0, q0, q1, alpha, beta) then (p1, p0, q0, q1)
    else
      var ap, aq := Abs(p2 - p0), Abs(q2 - q0);
      var tc: int := ClipRange(ap, aq, chroma, beta, tc0);
      var delta := Clip3(-tc, tc, DeltaRaw(p1, p0, q0, q1));
      (if !chroma && ap < beta then SecondSample(p2, p1, p0, q0, tc0) else p1,
       ClipU8(p0 + delta),
       ClipU8(q0 - delta),
       if !chroma && aq < beta then SecondSample(q2, q1, q0, p0, tc0) else q1)
  }

  /** The same on a whole line; chroma filtering does not look at a third sample. */
  function StandardBslt4(line: Line, chroma: bool, alpha: int, beta: int, tc0: nat): (r: seq<int>)
    requires |line| == if chroma then 4 else 6
    ensures |r| == |line|
  {
    if chroma then
      var r := StandardInner(0, line[0], line[1], line[2], line[3], 0, true, alpha, beta, tc0);
      [r.0, r.1, r.2, r.3]
    else
      var r := StandardInner(line[0], line[1], line[2], line[3], line[4], line[5], false, alpha, beta, tc0);
      [line[0], r.0, r.1, r.2, r.3, line[5]]
  }

  // ---------------------------------------------------------------------------------------
  // The filter as the C code computes it, with every narrow variable.
  // ---------------------------------------------------------------------------------------

  /** `delta`, a WORD8, from the WORD8 `tc` and the WORD16 `val`. */
  function MachineDelta(p1: int, p0: int, q0: int, q1: int, tc: int): int {
    ToWord8(Clip3(-ToWord8(tc), ToWord8(tc), ToWord16(DeltaRaw(p1, p0, q0, q1))))
  }

  /** `pu1_src_temp[pos_p1] += CLIP3(-tc0, tc0, val)`, with no CLIP_U8. */
  function MachineSecondSample(a2: int, a1: int, a0: int, b0: int, tc0: int): byte {
    ToUWord8(a1 + Clip3(-tc0, tc0, ToWord16(SecondStep(a2, a1, a0, b0))))
  }

  function MachineLumaInner(p2: byte, p1: byte, p0: byte, q0: byte, q1: byte, q2: byte,
                            alpha: int, beta: int, tc0: byte): (byte, byte, byte, byte)
  {
    if Abs(p0 - q0) >= alpha || Abs(q1 - q0) >= beta || Abs(p1 - p0) >= beta then (p1, p0, q0, q1)
    else
      var ap, aq := Abs(p2 - p0), Abs(q2 - q0);
      var tc := tc0 + (if ap < beta then 1 else 0) + (if aq < beta then 1 else 0);
      var delta := MachineDelta(p1, p0, q0, q1, tc);
      (if ap < beta then MachineSecondSample(p2, p1, p0, q0, tc0) else p1,
       ClipU8(ToWord16(p0 + delta)),
       ClipU8(ToWord16(q0 - delta)),
       if aq < beta then MachineSecondSample(q2, q1, q0, p0, tc0) else q1)
  }

  function MachineChromaInner(p1: byte, p0: byte, q0: byte, q1: byte,
                              alpha: int, beta: int, tc0: byte): (byte, byte)
  {
    if Abs(p0 - q0) < alpha && Abs(q1 - q0) < beta && Abs(p1 - p0) < beta then
      var delta := MachineDelta(p1, p0, q0, q1, tc0 + 1);
      (ClipU8(ToWord16(p0 + delta)), ClipU8(ToWord16(q0 - delta)))
    else (p0, q0)
  }

  function MachineLumaBslt4(line: Line, alpha: int, beta: int, tc0: byte): (r: Line)
    requires |line| == 6
    ensures |r| == 6
  {
    var r := MachineLumaInner(line[0], line[1], line[2], line[3], line[4], line[5], alpha, beta, tc0);
    [line[0], r.0, r.1, r.2, r.3, line[5]]
  }

  function MachineChromaBslt4(line: Line, alpha: int, beta: int, tc0: byte): (r: Line)
    requires |line| == 4
    ensures |r| == 4
  {
    var r := MachineChromaInner(line[0], line[1], line[2], line[3], alpha, beta, tc0);
    [line[0], r.0, r.1, line[3]]
  }

  /** What each filter leaves in the buffer for one line. For boundary strength 4 no narrow variable
      is ever out of range, so this is the standard's line at once; below 4 it is the machine's, and
      LumaMachineMeetsStandard and ChromaMachineMeetsStandard say exactly when the two agree. */
  function Apply(f: Filter, line: Line): (r: Line)
    requires |line| == f.Taps()
    ensures |r| == |line|
  {
    match f
    case LumaBs4(alpha, beta) => StandardBs4(line, false, alpha, beta)
    case LumaBslt4(alpha, beta, tc0) => MachineLumaBslt4(line, alpha, beta, tc0)
    case ChromaBs4(alpha, beta) => StandardBs4(line, true, alpha, beta)
    case ChromaBslt4(alpha, beta, tc0) => MachineChromaBslt4(line, alpha, beta, tc0)
  }
}
