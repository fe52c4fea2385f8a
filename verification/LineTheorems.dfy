/** What the deblocking filters guarantee for a single line, for all sample values and parameters. */
module LineTheorems {
  import opened CInt
  import opened LineFilters

  // ---------------------------------------------------------------------------------------
  // Boundary strength below 4: when the narrow C variables hold what the standard computes.
  // ---------------------------------------------------------------------------------------

  /** Without a clip, the second sample is the average of its outer neighbour and the edge; the clip only
      moves it back towards the old value. So the `+=` that stores it never wraps. */
  lemma SecondSampleFits(a2: byte, a1: byte, a0: byte, b0: byte, tc0: byte)
    ensures 0 <= SecondSample(a2, a1, a0, b0, tc0) <= 255
    ensures MachineSecondSample(a2, a1, a0, b0, tc0) == SecondSample(a2, a1, a0, b0, tc0)
    ensures Abs(SecondSample(a2, a1, a0, b0, tc0) - a1) <= tc0
  {
    hide SecondStep, ToWord16, ToUWord8;
    var step := SecondStepTo(a2, a1, a0, b0);
    Word16Exact(step);
    UWord8Exact(SecondSample(a2, a1, a0, b0, tc0));
  }

  lemma SecondStepTo(a2: byte, a1: byte, a0: byte, b0: byte) returns (step: int)
    ensures step == SecondStep(a2, a1, a0, b0)
    ensures 0 <= a1 + step <= 255
  {
    step := SecondStep(a2, a1, a0, b0);
    var mid: int := Shr1(a0 + b0 + 1);
    assert step == (a2 + mid) / 2 - a1;
  }

  lemma Word16Exact(v: int)
    requires -32768 <= v < 32768
    ensures ToWord16(v) == v
  {
  }

  lemma UWord8Exact(v: int)
    requires 0 <= v < 256
    ensures ToUWord8(v) == v
  {
  }

  lemma Word8Exact(v: int)
    requires -128 <= v < 128
    ensures ToWord8(v) == v
  {
  }

  lemma DeltaRange(p1: byte, p0: byte, q0: byte, q1: byte)
    ensures -160 <= DeltaRaw(p1, p0, q0, q1) <= 160
  {
  }

  lemma MachineDeltaExact(p1: byte, p0: byte, q0: byte, q1: byte, tc: nat)
    requires tc <= 127
    ensures MachineDelta(p1, p0, q0, q1, tc) == Clip3(-(tc as int), tc, DeltaRaw(p1, p0, q0, q1))
    ensures -127 <= MachineDelta(p1, p0, q0, q1, tc) <= 127
  {
    hide DeltaRaw, ToWord8, ToWord16;
    DeltaRange(p1, p0, q0, q1);
    Word16Exact(DeltaRaw(p1, p0, q0, q1));
    Word8Exact(tc);
    Word8Exact(Clip3(-(tc as int), tc, DeltaRaw(p1, p0, q0, q1)));
  }

  lemma StoreExact(x: byte, d: int)
    requires -128 <= d <= 128
    ensures ClipU8(ToWord16(x + d)) == ClipU8(x + d)
  {
    Word16Exact(x + d);
  }

  lemma WrappedClip(tc: int)
    requires 128 <= tc <= 257
    ensures -128 <= ToWord8(Clip3(256 - tc, tc - 256, 38)) < 128 && ToWord8(Clip3(256 - tc, tc - 256, 38)) != 38
  {
    var clipped := Clip3(256 - tc, tc - 256, 38);
    assert -128 <= clipped <= 128 && clipped != 38;
    assert ToWord8(clipped) == if clipped == 128 then -128 else clipped;
  }

  /** Once the clipping range has wrapped, a step from 0 to 100 no longer gets the standard's delta of 38. */
  lemma WrappedDelta(tc: int)
    requires 128 <= tc <= 257
    ensures DeltaRaw(0, 0, 100, 100) == 38
    ensures ClipU8(ToWord16(MachineDelta(0, 0, 100, 100, tc))) != 38
  {
    assert ToWord8(tc) == tc - 256 && ToWord16(38) == 38 && DeltaRaw(0, 0, 100, 100) == 38;
    hide ToWord8, ToWord16, DeltaRaw;
    var delta := ToWord8(Clip3(256 - tc, tc - 256, 38));
    assert MachineDelta(0, 0, 100, 100, tc) == delta;
    WrappedClip(tc);
    Word16Exact(delta);
  }

  lemma LumaExactUpTo125(p2: byte, p1: byte, p0: byte, q0: byte, q1: byte, q2: byte, alpha: int, beta: int, tc0: byte)
    requires tc0 <= 125
    ensures MachineLumaInner(p2, p1, p0, q0, q1, q2, alpha, beta, tc0)
         == StandardInner(p2, p1, p0, q0, q1, q2, false, alpha, beta, tc0)
  {
    hide MachineDelta, DeltaRaw, MachineSecondSample, SecondSample, ToWord16, ClipU8, Clip3;
    var tc := ClipRange(Abs(p2 - p0), Abs(q2 - q0), false, beta, tc0);
    MachineDeltaExact(p1, p0, q0, q1, tc);
    SecondSampleFits(p2, p1, p0, q0, tc0);
    SecondSampleFits(q2, q1, q0, p0, tc0);
    StoreExact(p0, MachineDelta(p1, p0, q0, q1, tc));
    StoreExact(q0, -MachineDelta(p1, p0, q0, q1, tc));
  }

  lemma ChromaExactUpTo126(p1: byte, p0: byte, q0: byte, q1: byte, alpha: int, beta: int, tc0: byte)
    requires tc0 <= 126
    ensures var m := MachineChromaInner(p1, p0, q0, q1, alpha, beta, tc0);
            StandardInner(0, p1, p0, q0, q1, 0, true, alpha, beta, tc0) == (p1, m.0, m.1, q1)
  {
    hide MachineDelta, DeltaRaw, ToWord16, ClipU8, Clip3;
    MachineDeltaExact(p1, p0, q0, q1, tc0 + 1);
    StoreExact(p0, MachineDelta(p1, p0, q0, q1, tc0 + 1));
    StoreExact(q0, -MachineDelta(p1, p0, q0, q1, tc0 + 1));
  }

  /** From 126 on the WORD8 `tc` of the luma filter overflows, and a plain step edge is filtered wrongly. */
  lemma LumaWrongFrom126(tc0: byte)
    requires tc0 >= 126
    ensures MachineLumaBslt4([0, 0, 0, 100, 100, 100], 255, 255, tc0)
         != StandardBslt4([0, 0, 0, 100, 100, 100], false, 255, 255, tc0)
  {
    WrappedDelta(tc0 + 2);
    assert StandardBslt4([0, 0, 0, 100, 100, 100], false, 255, 255, tc0)[2] == 38;
  }

  lemma ChromaWrongFrom127(tc0: byte)
    requires tc0 >= 127
    ensures MachineChromaBslt4([0, 0, 100, 100], 255, 255, tc0)
         != StandardBslt4([0, 0, 100, 100], true, 255, 255, tc0)
  {
    WrappedDelta(tc0 + 1);
    assert StandardBslt4([0, 0, 100, 100], true, 255, 255, tc0)[1] == 38;
  }

  /** The luma code computes the standard's line for every line and threshold exactly when tc0 <= 125. */
  lemma LumaMachineMeetsStandard(tc0: byte)
    ensures tc0 <= 125 <==>
            forall line: Line, alpha, beta | |line| == 6 ::
              MachineLumaBslt4(line, alpha, beta, tc0) == StandardBslt4(line, false, alpha, beta, tc0)
  {
    if tc0 <= 125 {
      forall line: Line, alpha, beta | |line| == 6
        ensures MachineLumaBslt4(line, alpha, beta, tc0) == StandardBslt4(line, false, alpha, beta, tc0)
      {
        LumaExactUpTo125(line[0], line[1], line[2], line[3], line[4], line[5], alpha, beta, tc0);
      }
    } else {
      LumaWrongFrom126(tc0);
    }
  }

  /** The chroma code does so exactly when tc0 <= 126. */
  lemma ChromaMachineMeetsStandard(tc0: byte)
    ensures tc0 <= 126 <==>
            forall line: Line, alpha, beta | |line| == 4 ::
              MachineChromaBslt4(line, alpha, beta, tc0) == StandardBslt4(line, true, alpha, beta, tc0)
  {
    if tc0 <= 126 {
      forall line: Line, alpha, beta | |line| == 4
        ensures MachineChromaBslt4(line, alpha, beta, tc0) == StandardBslt4(line, true, alpha, beta, tc0)
      {
        ChromaExactUpTo126(line[0], line[1], line[2], line[3], alpha, beta, tc0);
      }
    } else {
      ChromaWrongFrom127(tc0);
    }
  }

  /** The two samples at the edge move by opposite amounts of at most tC; so unless one of them is clipped to
      0..255 their sum is kept. */
  lemma EdgeSumKept(p2: byte, p1: byte, p0: byte, q0: byte, q1: byte, q2: byte,
                    chroma: bool, alpha: int, beta: int, tc0: byte)
    ensures var r := StandardInner(p2, p1, p0, q0, q1, q2, chroma, alpha, beta, tc0);
            var tc: int := ClipRange(Abs(p2 - p0), Abs(q2 - q0), chroma, beta, tc0);
            var delta := Clip3(-tc, tc, DeltaRaw(p1, p0, q0, q1));
            && Abs(r.1 - p0) <= tc && Abs(r.2 - q0) <= tc
            && (0 <= p0 + delta <= 255 && 0 <= q0 - delta <= 255 ==> r.1 + r.2 == p0 as int + q0)
  {
    hide DeltaRaw, SecondSample;
    var tc := ClipRange(Abs(p2 - p0), Abs(q2 - q0), chroma, beta, tc0);
    StepAndBack(p0, q0, Clip3(-(tc as int), tc, DeltaRaw(p1, p0, q0, q1)), tc);
  }

  lemma StepAndBack(p0: byte, q0: byte, delta: int, tc: nat)
    requires Abs(delta) <= tc
    ensures Abs(ClipU8(p0 + delta) as int - p0) <= tc && Abs(ClipU8(q0 - delta) as int - q0) <= tc
  {
  }

  // ---------------------------------------------------------------------------------------
  // Boundary strength 4.
  // ---------------------------------------------------------------------------------------

  predicate Within(line: Line, lo: int, hi: int) { forall k :: 0 <= k < |line| ==> lo <= line[k] <= hi }

  lemma SideWithin(a3: byte, a2: byte, a1: byte, a0: byte, b0: byte, b1: byte, chroma: bool, alpha: int, beta: int,
                   lo: int, hi: int)
    requires lo <= a3 <= hi && lo <= a2 <= hi && lo <= a1 <= hi && lo <= a0 <= hi && lo <= b0 <= hi && lo <= b1 <= hi
    ensures var r := SideBs4(a3, a2, a1, a0, b0, b1, chroma, alpha, beta);
            lo <= r.0 <= hi && lo <= r.1 <= hi && lo <= r.2 <= hi
  {
  }

  /** Every filtered sample stays between any bounds the line's samples keep, in particular between their least
      and their greatest. */
  lemma Bs4StaysWithin(line: Line, chroma: bool, alpha: int, beta: int, lo: int, hi: int)
    requires |line| == (if chroma then 4 else 8) && Within(line, lo, hi)
    ensures Within(StandardBs4(line, chroma, alpha, beta), lo, hi)
  {
    hide SideBs4;
    if chroma {
      var p1, p0, q0, q1 := line[0], line[1], line[2], line[3];
      ChromaSideWithin(p1, p0, q1, alpha, beta, lo, hi);
      ChromaSideWithin(q1, q0, p1, alpha, beta, lo, hi);
    } else {
      var p3, p2, p1, p0 := line[0], line[1], line[2], line[3];
      var q0, q1, q2, q3 := line[4], line[5], line[6], line[7];
      SideWithin(p3, p2, p1, p0, q0, q1, false, alpha, beta, lo, hi);
      SideWithin(q3, q2, q1, q0, p0, p1, false, alpha, beta, lo, hi);
    }
  }

  lemma ChromaSideWithin(a1: byte, a0: byte, b1: byte, alpha: int, beta: int, lo: int, hi: int)
    requires lo <= a1 <= hi && lo <= a0 <= hi && lo <= b1 <= hi
    ensures forall b0: byte :: lo <= SideBs4(0, 0, a1, a0, b0, b1, true, alpha, beta).2 <= hi
  {
  }

  lemma Bs4FixesFlat(line: Line, chroma: bool, alpha: int, beta: int)
    requires |line| == if chroma then 4 else 8
    requires forall k :: 0 <= k < |line| ==> line[k] == line[0]
    ensures StandardBs4(line, chroma, alpha, beta) == line
  {
    Bs4StaysWithin(line, chroma, alpha, beta, line[0], line[0]);
  }

  /** Calling p what is q and q what is p gives the mirrored result. */
  lemma Bs4Mirrors(line: Line, chroma: bool, alpha: int, beta: int)
    requires |line| == if chroma then 4 else 8
    ensures StandardBs4(Reverse(line), chroma, alpha, beta) == Reverse(StandardBs4(line, chroma, alpha, beta))
  {
    hide SideBs4;
    var d, m := |line| - 1, Reverse(line);
    var mirrored, reversed := StandardBs4(m, chroma, alpha, beta), Reverse(StandardBs4(line, chroma, alpha, beta));
    assert m[0] == line[d] && m[1] == line[d - 1] && m[2] == line[d - 2] && m[3] == line[d - 3];
    if chroma {
      assert mirrored[0] == reversed[0] && mirrored[1] == reversed[1] && mirrored[2] == reversed[2];
    } else {
      assert m[4] == line[3] && m[5] == line[2] && m[6] == line[1] && m[7] == line[0];
      assert mirrored[0] == reversed[0] && mirrored[1] == reversed[1] && mirrored[2] == reversed[2];
      assert mirrored[3] == reversed[3] && mirrored[4] == reversed[4] && mirrored[5] == reversed[5];
    }
  }

  // ---------------------------------------------------------------------------------------
  // Boundary strength below 4, mirrored. The rounding of `delta` favours one side when the sum under the shift lies
  // halfway, so that exchanging p and q changes the delta by one more than its sign.
  // ---------------------------------------------------------------------------------------

  /** `delta` is not rounded from halfway, or the clip to tC hides the rounding. */
  predicate RoundsAlike(p1: int, p0: int, q0: int, q1: int, tc: int) {
    var d := DeltaRaw(p1, p0, q0, q1);
    ((q0 - p0) * 4 + (p1 - q1)) % 8 != 4 || d > tc || d <= -tc
  }

  predicate Bslt4IsSymmetric(p2: int, p1: int, p0: int, q0: int, q1: int, q2: int,
                             chroma: bool, alpha: int, beta: int, tc0: nat)
  {
    || !FilterSamples(p1, p0, q0, q1, alpha, beta)
    || RoundsAlike(p1, p0, q0, q1, ClipRange(Abs(p2 - p0), Abs(q2 - q0), chroma, beta, tc0))
  }

  /** The delta of the mirrored line: the opposite, or one more than that when the sum lies halfway. */
  lemma MirroredDelta(p1: int, p0: int, q0: int, q1: int)
    ensures var d := DeltaRaw(p1, p0, q0, q1);
            DeltaRaw(q1, q0, p0, p1) == if ((q0 - p0) * 4 + (p1 - q1)) % 8 == 4 then 1 - d else -d
  {
  }

  /** The two samples at the edge come out mirrored exactly when the rounding is alike. */
  lemma MirroredEdge(p1: byte, p0: byte, q0: byte, q1: byte, tc: nat)
    ensures var d := Clip3(-(tc as int), tc, DeltaRaw(p1, p0, q0, q1));
            var m := Clip3(-(tc as int), tc, DeltaRaw(q1, q0, p0, p1));
            (ClipU8(q0 + m) == ClipU8(q0 - d) && ClipU8(p0 - m) == ClipU8(p0 + d)) <==> RoundsAlike(p1, p0, q0, q1, tc)
  {
    MirroredDelta(p1, p0, q0, q1);
    OneIsNotClipped(p1, p0, q0, q1);
    hide DeltaRaw;
  }

  /** With the delta unclipped, not both samples at the edge can be clipped to 0..255, so one of them shows the
      rounding. */
  lemma OneIsNotClipped(p1: byte, p0: byte, q0: byte, q1: byte)
    ensures var d := DeltaRaw(p1, p0, q0, q1);
            ClipU8(p0 + d) != ClipU8(p0 + d - 1) || ClipU8(q0 - d) != ClipU8(q0 - d + 1)
  {
  }

  /** The standard's filter below strength 4, luma or chroma, commutes with exchanging p and q exactly then. */
  lemma Bslt4MirrorsIff(p2: byte, p1: byte, p0: byte, q0: byte, q1: byte, q2: byte,
                        chroma: bool, alpha: int, beta: int, tc0: nat)
    ensures var r := StandardInner(p2, p1, p0, q0, q1, q2, chroma, alpha, beta, tc0);
            StandardInner(q2, q1, q0, p0, p1, p2, chroma, alpha, beta, tc0) == (r.3, r.2, r.1, r.0) <==>
            Bslt4IsSymmetric(p2, p1, p0, q0, q1, q2, chroma, alpha, beta, tc0)
  {
    hide DeltaRaw, ClipU8, RoundsAlike, Clip3, Shr1;
    MirroredEdge(p1, p0, q0, q1, ClipRange(Abs(p2 - p0), Abs(q2 - q0), chroma, beta, tc0));
  }

  /** And so does the luma code, as far as it meets the standard. */
  lemma LumaBslt4MirrorsIff(line: Line, alpha: int, beta: int, tc0: byte)
    requires |line| == 6 && tc0 <= 125
    ensures MachineLumaBslt4(Reverse(line), alpha, beta, tc0) == Reverse(MachineLumaBslt4(line, alpha, beta, tc0)) <==>
            Bslt4IsSymmetric(line[0], line[1], line[2], line[3], line[4], line[5], false, alpha, beta, tc0)
  {
    hide MachineLumaInner, StandardInner, Bslt4IsSymmetric;
    var p2, p1, p0, q0, q1, q2 := line[0], line[1], line[2], line[3], line[4], line[5];
    LumaExactUpTo125(p2, p1, p0, q0, q1, q2, alpha, beta, tc0);
    LumaExactUpTo125(q2, q1, q0, p0, p1, p2, alpha, beta, tc0);
    Bslt4MirrorsIff(p2, p1, p0, q0, q1, q2, false, alpha, beta, tc0);
    var r, m := MachineLumaInner(p2, p1, p0, q0, q1, q2, alpha, beta, tc0),
      MachineLumaInner(q2, q1, q0, p0, p1, p2, alpha, beta, tc0);
    assert Reverse(line) == [q2, q1, q0, p0, p1, p2];
    assert Reverse(MachineLumaBslt4(line, alpha, beta, tc0)) == [q2, r.3, r.2, r.1, r.0, p2];
    SixEqual([q2, m.0, m.1, m.2, m.3, p2], [q2, r.3, r.2, r.1, r.0, p2]);
  }

  lemma SixEqual(a: Line, b: Line)
    requires |a| == |b| == 6
    ensures a == b <==> a[0] == b[0] && a[1] == b[1] && a[2] == b[2] && a[3] == b[3] && a[4] == b[4] && a[5] == b[5]
  {
  }

  /** And the chroma code. */
  lemma ChromaBslt4MirrorsIff(line: Line, alpha: int, beta: int, tc0: byte)
    requires |line| == 4 && tc0 <= 126
    ensures MachineChromaBslt4(Reverse(line), alpha, beta, tc0) == Reverse(MachineChromaBslt4(line, alpha, beta, tc0))
            <==> Bslt4IsSymmetric(0, line[0], line[1], line[2], line[3], 0, true, alpha, beta, tc0)
  {
    hide MachineChromaInner, StandardInner, Bslt4IsSymmetric;
    var p1, p0, q0, q1 := line[0], line[1], line[2], line[3];
    ChromaExactUpTo126(p1, p0, q0, q1, alpha, beta, tc0);
    ChromaExactUpTo126(q1, q0, p0, p1, alpha, beta, tc0);
    Bslt4MirrorsIff(0, p1, p0, q0, q1, 0, true, alpha, beta, tc0);
    var r, m := MachineChromaInner(p1, p0, q0, q1, alpha, beta, tc0), MachineChromaInner(q1, q0, p0, p1, alpha, beta, tc0);
    assert Reverse(line) == [q1, q0, p0, p1];
    assert Reverse(MachineChromaBslt4(line, alpha, beta, tc0)) == [q1, r.1, r.0, p1];
    FourEqual([q1, m.0, m.1, p1], [q1, r.1, r.0, p1]);
  }

  lemma FourEqual(a: Line, b: Line)
    requires |a| == |b| == 4
    ensures a == b <==> a[0] == b[0] && a[1] == b[1] && a[2] == b[2] && a[3] == b[3]
  {
  }

  /** A line that is not symmetric so: 10 10 | 11 10 becomes 10 11 | 10 10, and so does its mirror image
      10 11 | 10 10. */
  lemma Bslt4DoesNotMirror()
    ensures MachineChromaInner(10, 10, 11, 10, 255, 255, 5) == (11, 10)
    ensures MachineChromaInner(10, 11, 10, 10, 255, 255, 5) == (11, 10)
  {
    MachineDeltaExact(10, 10, 11, 10, 6);
    MachineDeltaExact(10, 11, 10, 10, 6);
    assert DeltaRaw(10, 10, 11, 10) == 1 && DeltaRaw(10, 11, 10, 10) == 0;
    StoreExact(10, 1);
    StoreExact(11, -1);
  }
}
