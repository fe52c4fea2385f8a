/** The inner loop bodies of the deblocking filters: one line, filtered in place. */
module DeblockLines {
  import opened CInt
  import opened LineFilters
  import opened LineTheorems
  import opened LineJobs

  // ---------------------------------------------------------------------------------------
  // Luma, boundary strength 4.
  // ---------------------------------------------------------------------------------------

  method LumaBs4PSide(near: bool, alpha: int, beta: int, p3: byte, p2: byte, p1: byte, p0: byte, q0: byte, q1: byte)
    returns (p2': byte, p1': byte, p0': byte)
    requires near == (Abs(p0 - q0) < Shr2(alpha) + 2)
    ensures (p2', p1', p0') == SideBs4(p3, p2, p1, p0, q0, q1, false, alpha, beta)
  {
    hide Shr2, Shr3, ToUWord8;
    UWord8Exact(Abs(p2 - p0));
    var ap := ToUWord8(Abs(p2 - p0));
    if near && ap < beta {
      p0' := Shr3(p2 + 2 * p1 + 2 * p0 + 2 * q0 + q1 + 4);
      p1' := Shr2(p2 + p1 + p0 + q0 + 2);
      p2' := Shr3(2 * p3 + 3 * p2 + p1 + p0 + q0 + 4);
    } else {
      p2', p1', p0' := p2, p1, Shr2(2 * p1 + p0 + q1 + 2);
    }
  }

  method LumaBs4QSide(near: bool, alpha: int, beta: int, p1: byte, p0: byte, q0: byte, q1: byte, q2: byte, q3: byte)
    returns (q0': byte, q1': byte, q2': byte)
    requires near == (Abs(p0 - q0) < Shr2(alpha) + 2)
    ensures (q2', q1', q0') == SideBs4(q3, q2, q1, q0, p0, p1, false, alpha, beta)
  {
    hide Shr2, Shr3, ToUWord8;
    UWord8Exact(Abs(q2 - q0));
    var aq := ToUWord8(Abs(q2 - q0));
    if near && aq < beta {
      q0' := Shr3(p1 + 2 * p0 + 2 * q0 + 2 * q1 + q2 + 4);
      q1' := Shr2(p0 + q0 + q1 + q2 + 2);
      q2' := Shr3(2 * q3 + 3 * q2 + q1 + q0 + p0 + 4);
    } else {
      q2', q1', q0' := q2, q1, Shr2(2 * q1 + q0 + p1 + 2);
    }
  }

  method LumaBs4Samples(p3: byte, p2: byte, p1: byte, p0: byte, q0: byte, q1: byte, q2: byte, q3: byte,
                        alpha: int, beta: int)
    returns (p2': byte, p1': byte, p0': byte, q0': byte, q1': byte, q2': byte)
    ensures [p3, p2', p1', p0', q0', q1', q2', q3] == Apply(LumaBs4(alpha, beta), [p3, p2, p1, p0, q0, q1, q2, q3])
  {
    p2', p1', p0', q0', q1', q2' := p2, p1, p0, q0, q1, q2;
    if Abs(p0 - q0) >= alpha || Abs(q1 - q0) >= beta || Abs(p1 - p0) >= beta {
      return;
    }
    var near := Abs(p0 - q0) < Shr2(alpha) + 2;
    p2', p1', p0' := LumaBs4PSide(near, alpha, beta, p3, p2, p1, p0, q0, q1);
    q0', q1', q2' := LumaBs4QSide(near, alpha, beta, p1, p0, q0, q1, q2, q3);
  }

  /** One pass of the inner loop: the samples are read, the decision taken, and the filtered samples stored. */
  method LumaBs4Line(a: array<byte>, alpha: int, beta: int, p3At: int, p2At: int, p1At: int, p0At: int,
                     q0At: int, q1At: int, q2At: int, q3At: int)
    requires Places([p3At, p2At, p1At, p0At, q0At, q1At, q2At, q3At], a.Length)
    modifies a
    ensures a[..] == RunJob(old(a[..]), Job([p3At, p2At, p1At, p0At, q0At, q1At, q2At, q3At], LumaBs4(alpha, beta)))
  {
    ghost var at, s := [p3At, p2At, p1At, p0At, q0At, q1At, q2At, q3At], a[..];
    LinePulled(s, at);
    var p2', p1', p0', q0', q1', q2' := LumaBs4Samples(a[p3At], a[p2At], a[p1At], a[p0At],
                                                       a[q0At], a[q1At], a[q2At], a[q3At], alpha, beta);
    InnerPushed(s, at, [a[p3At], p2', p1', p0', q0', q1', q2', a[q3At]]);
    a[p2At] := p2';
    a[p1At] := p1';
    a[p0At] := p0';
    a[q0At] := q0';
    a[q1At] := q1';
    a[q2At] := q2';
  }

  lemma LinePulled(s: seq<byte>, at: seq<int>)
    requires |at| == 8 && Places(at, |s|)
    ensures Pull(s, at) == [s[at[0]], s[at[1]], s[at[2]], s[at[3]], s[at[4]], s[at[5]], s[at[6]], s[at[7]]]
  {
  }

  /** Putting back a line whose ends have not changed only stores the six samples between. */
  lemma InnerPushed(s: seq<byte>, at: seq<int>, line: Line)
    requires |at| == 8 && |line| == 8 && Places(at, |s|) && line[0] == s[at[0]] && line[7] == s[at[7]]
    ensures Push(s, at, line) == s[at[1] := line[1]][at[2] := line[2]][at[3] := line[3]]
                                  [at[4] := line[4]][at[5] := line[5]][at[6] := line[6]]
  {
    PlacesOf8(at, |s|);
    var r := s[at[1] := line[1]][at[2] := line[2]][at[3] := line[3]]
              [at[4] := line[4]][at[5] := line[5]][at[6] := line[6]];
    LinePulled(r, at);
    assert Pull(r, at) == line;
    PushIs(s, at, line, r);
  }

  lemma PlacesOf8(at: seq<int>, n: nat)
    requires |at| == 8 && Places(at, n)
    ensures at[0] != at[1] && at[0] != at[2] && at[0] != at[3] && at[0] != at[4] && at[0] != at[5] && at[0] != at[6]
    ensures at[0] != at[7] && at[1] != at[2] && at[1] != at[3] && at[1] != at[4] && at[1] != at[5] && at[1] != at[6]
    ensures at[1] != at[7] && at[2] != at[3] && at[2] != at[4] && at[2] != at[5] && at[2] != at[6] && at[2] != at[7]
    ensures at[3] != at[4] && at[3] != at[5] && at[3] != at[6] && at[3] != at[7] && at[4] != at[5] && at[4] != at[6]
    ensures at[4] != at[7] && at[5] != at[6] && at[5] != at[7] && at[6] != at[7]
  {
  }

  // ---------------------------------------------------------------------------------------
  // Luma, boundary strength below 4.
  // ---------------------------------------------------------------------------------------

  method LumaBslt4Samples(p2: byte, p1: byte, p0: byte, q0: byte, q1: byte, q2: byte,
                          alpha: int, beta: int, tc0: byte)
    returns (p1': byte, p0': byte, q0': byte, q1': byte)
    ensures (p1', p0', q0', q1') == MachineLumaInner(p2, p1, p0, q0, q1, q2, alpha, beta, tc0)
  {
    hide ToWord8, ToWord16, Clip3, ClipU8, DeltaRaw;
    p1', p0', q0', q1' := p1, p0, q0, q1;
    if Abs(p0 - q0) >= alpha || Abs(q1 - q0) >= beta || Abs(p1 - p0) >= beta {
      return;
    }
    var ap, aq := Abs(p2 - p0), Abs(q2 - q0);
    var tc := ToWord8(tc0 + (if ap < beta then 1 else 0) + (if aq < beta then 1 else 0));
    var val := EdgeValue(p1, p0, q0, q1);
    var delta := ToWord8(Clip3(-tc, tc, val));
    val := ToWord16(p0 + delta);
    p0' := ClipU8(val);
    val := ToWord16(q0 - delta);
    q0' := ClipU8(val);
    if ap < beta {
      p1' := AddClipped(p2, p1, p0, q0, tc0);
    }
    if aq < beta {
      q1' := AddClipped(q2, q1, q0, p0, tc0);
    }
  }

  /** The WORD16 `val` that `delta` is clipped from. */
  method EdgeValue(p1: byte, p0: byte, q0: byte, q1: byte) returns (val: int)
    ensures val == ToWord16(DeltaRaw(p1, p0, q0, q1))
  {
    val := ToWord16(Shr3((q0 - p0) * 4 + (p1 - q1) + 4));
  }

  /** `val = ((a2 + ((a0 + b0 + 1) >> 1) - (a1 << 1)) >> 1); a1 += CLIP3(-tc0, tc0, val);` for UWORD8 a1. */
  method AddClipped(a2: byte, a1: byte, a0: byte, b0: byte, tc0: byte) returns (r: byte)
    ensures r == MachineSecondSample(a2, a1, a0, b0, tc0)
    ensures r == SecondSample(a2, a1, a0, b0, tc0)
  {
    hide ToWord16, ToUWord8, Shr1;
    SecondSampleFits(a2, a1, a0, b0, tc0);
    var val := ToWord16(Shr1(a2 + Shr1(a0 + b0 + 1) - a1 * 2));
    r := ToUWord8(a1 + Clip3(0 - tc0, tc0, val));
  }

  method LumaBslt4Line(a: array<byte>, alpha: int, beta: int, tc0: byte,
                       p2At: int, p1At: int, p0At: int, q0At: int, q1At: int, q2At: int)
    requires Places([p2At, p1At, p0At, q0At, q1At, q2At], a.Length)
    modifies a
    ensures a[..] == RunJob(old(a[..]), Job([p2At, p1At, p0At, q0At, q1At, q2At], LumaBslt4(alpha, beta, tc0)))
  {
    ghost var at, s := [p2At, p1At, p0At, q0At, q1At, q2At], a[..];
    LinePulled6(s, at);
    var p1', p0', q0', q1' := LumaBslt4Samples(a[p2At], a[p1At], a[p0At], a[q0At], a[q1At], a[q2At], alpha, beta, tc0);
    InnerPushed6(s, at, [a[p2At], p1', p0', q0', q1', a[q2At]]);
    a[p1At] := p1';
    a[p0At] := p0';
    a[q0At] := q0';
    a[q1At] := q1';
  }

  lemma LinePulled6(s: seq<byte>, at: seq<int>)
    requires |at| == 6 && Places(at, |s|)
    ensures Pull(s, at) == [s[at[0]], s[at[1]], s[at[2]], s[at[3]], s[at[4]], s[at[5]]]
  {
  }

  lemma InnerPushed6(s: seq<byte>, at: seq<int>, line: Line)
    requires |at| == 6 && |line| == 6 && Places(at, |s|) && line[0] == s[at[0]] && line[5] == s[at[5]]
    ensures Push(s, at, line) == s[at[1] := line[1]][at[2] := line[2]][at[3] := line[3]][at[4] := line[4]]
  {
    var r := s[at[1] := line[1]][at[2] := line[2]][at[3] := line[3]][at[4] := line[4]];
    assert Pull(r, at) == line;
    PushIs(s, at, line, r);
  }

  // ---------------------------------------------------------------------------------------
  // Chroma: the U and V lines are read together, then filtered one after the other.
  // ---------------------------------------------------------------------------------------

  /** filterSamplesFlag of a chroma line. */
  predicate ChromaFilters(f: Filter, line: Line)
    requires (f.ChromaBs4? || f.ChromaBslt4?) && |line| == 4
  {
    FilterSamples(line[0], line[1], line[2], line[3], f.alpha, f.beta)
  }

  /** p0 and q0 of a chroma line are stored, if the line, read earlier, is to be filtered. */
  function StoreChroma(t: seq<byte>, j: Job, line: Line): (r: seq<byte>)
    requires (j.filter.ChromaBs4? || j.filter.ChromaBslt4?) && j.Fits(|t|) && |line| == 4
    ensures |r| == |t|
  {
    if ChromaFilters(j.filter, line) then
      t[j.at[1] := Apply(j.filter, line)[1]][j.at[2] := Apply(j.filter, line)[2]]
    else t
  }

  /** A U and a V line, both read before either is stored. */
  function RunPair(s: seq<byte>, u: Job, v: Job): (r: seq<byte>)
    requires (u.filter.ChromaBs4? || u.filter.ChromaBslt4?) && (v.filter.ChromaBs4? || v.filter.ChromaBslt4?)
    requires u.Fits(|s|) && v.Fits(|s|)
    ensures |r| == |s|
  {
    StoreChroma(StoreChroma(s, u, Pull(s, u.at)), v, Pull(s, v.at))
  }

  /** If the lines do not meet, that is one job after the other. */
  lemma PairIsJobs(s: seq<byte>, u: Job, v: Job)
    requires (u.filter.ChromaBs4? || u.filter.ChromaBslt4?) && (v.filter.ChromaBs4? || v.filter.ChromaBslt4?)
    requires u.Fits(|s|) && v.Fits(|s|) && Apart(v.at, u.at)
    ensures RunPair(s, u, v) == RunJob(RunJob(s, u), v)
  {
    hide Apply, ChromaFilters;
    StoreIsJob(s, u);
    StoreIsJob(RunJob(s, u), v);
    ApartJobKeepsLine(s, u, v.at);
  }

  lemma StoreIsJob(s: seq<byte>, j: Job)
    requires (j.filter.ChromaBs4? || j.filter.ChromaBslt4?) && j.Fits(|s|)
    ensures StoreChroma(s, j, Pull(s, j.at)) == RunJob(s, j)
  {
    var line := Pull(s, j.at);
    ChromaEndsKept(j.filter, line);
    hide Apply, ChromaFilters;
    InnerPushed4(s, j.at, Apply(j.filter, line));
  }

  lemma ChromaEndsKept(f: Filter, line: Line)
    requires (f.ChromaBs4? || f.ChromaBslt4?) && |line| == 4
    ensures Apply(f, line)[0] == line[0] && Apply(f, line)[3] == line[3]
    ensures !ChromaFilters(f, line) ==> Apply(f, line) == line
  {
  }

  method ChromaBs4Samples(p1: byte, p0: byte, q0: byte, q1: byte, alpha: int, beta: int)
    returns (filtered: bool, p0': byte, q0': byte)
    ensures filtered == FilterSamples(p1, p0, q0, q1, alpha, beta)
    ensures [p1, p0', q0', q1] == Apply(ChromaBs4(alpha, beta), [p1, p0, q0, q1])
  {
    filtered, p0', q0' := false, p0, q0;
    if Abs(p0 - q0) < alpha && Abs(q1 - q0) < beta && Abs(p1 - p0) < beta {
      filtered := true;
      p0' := Shr2(2 * p1 + p0 + q1 + 2);
      q0' := Shr2(2 * q1 + q0 + p1 + 2);
    }
  }

  method ChromaBslt4Samples(p1: byte, p0: byte, q0: byte, q1: byte, alpha: int, beta: int, tc0: byte)
    returns (filtered: bool, p0': byte, q0': byte)
    ensures filtered == FilterSamples(p1, p0, q0, q1, alpha, beta)
    ensures [p1, p0', q0', q1] == Apply(ChromaBslt4(alpha, beta, tc0), [p1, p0, q0, q1])
  {
    hide ToWord8, ToWord16, Clip3, ClipU8, DeltaRaw;
    filtered, p0', q0' := false, p0, q0;
    var tc := ToWord8(tc0 + 1);
    if Abs(p0 - q0) < alpha && Abs(q1 - q0) < beta && Abs(p1 - p0) < beta {
      filtered := true;
      var val := EdgeValue(p1, p0, q0, q1);
      var delta := ToWord8(Clip3(-tc, tc, val));
      val := ToWord16(p0 + delta);
      p0' := ClipU8(val);
      val := ToWord16(q0 - delta);
      q0' := ClipU8(val);
    }
  }

  method ChromaBs4Line(a: array<byte>, alphaU: int, betaU: int, alphaV: int, betaV: int,
                       p1u: int, p0u: int, q0u: int, q1u: int, p1v: int, p0v: int, q0v: int, q1v: int)
    requires Places([p1u, p0u, q0u, q1u], a.Length) && Places([p1v, p0v, q0v, q1v], a.Length)
    modifies a
    ensures var u := Job([p1u, p0u, q0u, q1u], ChromaBs4(alphaU, betaU));
            var v := Job([p1v, p0v, q0v, q1v], ChromaBs4(alphaV, betaV));
            && a[..] == RunPair(old(a[..]), u, v)
            && (Apart(v.at, u.at) ==> a[..] == RunJob(RunJob(old(a[..]), u), v))
  {
    ghost var s, atU, atV := a[..], [p1u, p0u, q0u, q1u], [p1v, p0v, q0v, q1v];
    ghost var u, v := Job(atU, ChromaBs4(alphaU, betaU)), Job(atV, ChromaBs4(alphaV, betaV));
    LinePulled4(s, atU);
    LinePulled4(s, atV);
    var filterU, p0u', q0u' := ChromaBs4Samples(a[p1u], a[p0u], a[q0u], a[q1u], alphaU, betaU);
    var filterV, p0v', q0v' := ChromaBs4Samples(a[p1v], a[p0v], a[q0v], a[q1v], alphaV, betaV);
    assert [a[p1u], p0u', q0u', a[q1u]][1] == p0u' && [a[p1v], p0v', q0v', a[q1v]][1] == p0v';
    hide Apply, FilterSamples;
    if Apart(atV, atU) { PairIsJobs(s, u, v); }
    if filterU {
      a[p0u] := p0u';
      a[q0u] := q0u';
    }
    assert a[..] == StoreChroma(s, u, Pull(s, atU));
    if filterV {
      a[p0v] := p0v';
      a[q0v] := q0v';
    }
    assert a[..] == RunPair(s, u, v);
  }

  method ChromaBslt4Line(a: array<byte>, alphaU: int, betaU: int, tc0U: byte, alphaV: int, betaV: int, tc0V: byte,
                         p1u: int, p0u: int, q0u: int, q1u: int, p1v: int, p0v: int, q0v: int, q1v: int)
    requires Places([p1u, p0u, q0u, q1u], a.Length) && Places([p1v, p0v, q0v, q1v], a.Length)
    modifies a
    ensures var u := Job([p1u, p0u, q0u, q1u], ChromaBslt4(alphaU, betaU, tc0U));
            var v := Job([p1v, p0v, q0v, q1v], ChromaBslt4(alphaV, betaV, tc0V));
            && a[..] == RunPair(old(a[..]), u, v)
            && (Apart(v.at, u.at) ==> a[..] == RunJob(RunJob(old(a[..]), u), v))
  {
    ghost var s, atU, atV := a[..], [p1u, p0u, q0u, q1u], [p1v, p0v, q0v, q1v];
    ghost var u, v := Job(atU, ChromaBslt4(alphaU, betaU, tc0U)), Job(atV, ChromaBslt4(alphaV, betaV, tc0V));
    LinePulled4(s, atU);
    LinePulled4(s, atV);
    var filterU, p0u', q0u' := ChromaBslt4Samples(a[p1u], a[p0u], a[q0u], a[q1u], alphaU, betaU, tc0U);
    var filterV, p0v', q0v' := ChromaBslt4Samples(a[p1v], a[p0v], a[q0v], a[q1v], alphaV, betaV, tc0V);
    assert [a[p1u], p0u', q0u', a[q1u]][1] == p0u' && [a[p1v], p0v', q0v', a[q1v]][1] == p0v';
    hide Apply, FilterSamples;
    if Apart(atV, atU) { PairIsJobs(s, u, v); }
    if filterU {
      a[p0u] := p0u';
      a[q0u] := q0u';
    }
    assert a[..] == StoreChroma(s, u, Pull(s, atU));
    if filterV {
      a[p0v] := p0v';
      a[q0v] := q0v';
    }
    assert a[..] == RunPair(s, u, v);
  }

  lemma LinePulled4(s: seq<byte>, at: seq<int>)
    requires |at| == 4 && Places(at, |s|)
    ensures Pull(s, at) == [s[at[0]], s[at[1]], s[at[2]], s[at[3]]]
  {
  }

  lemma InnerPushed4(s: seq<byte>, at: seq<int>, line: Line)
    requires |at| == 4 && |line| == 4 && Places(at, |s|) && line[0] == s[at[0]] && line[3] == s[at[3]]
    ensures Push(s, at, line) == s[at[1] := line[1]][at[2] := line[2]]
  {
    var r := s[at[1] := line[1]][at[2] := line[2]];
    assert Pull(r, at) == line;
    PushIs(s, at, line, r);
  }
}
