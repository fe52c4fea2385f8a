/** What the deblocking filters make of the samples of one line, in plain numbers: the decisions by the tests of the
    code, every new sample as a rounded quotient of a weighted sum of the old ones. */
module SampleTheorems {
  import opened CInt
  import opened LineFilters
  import opened LineTheorems

  /** `v` is sum / n, rounded to the nearest integer, halves up. */
  predicate Rounds(v: int, sum: int, n: int) { 2 * n * v - n <= 2 * sum < 2 * n * v + n }

  /** `v` is `x` brought into `lo..hi`. */
  predicate Brought(v: int, x: int, lo: int, hi: int) {
    if x < lo then v == lo else if x > hi then v == hi else v == x
  }

  /** The line is filtered at all. */
  predicate Decided(p1: int, p0: int, q0: int, q1: int, alpha: int, beta: int) {
    && -alpha < p0 - q0 < alpha && -beta < q1 - q0 < beta && -beta < p1 - p0 < beta
  }

  /** One side of a luma line at strength 4 is filtered strongly. */
  predicate Strong(a2: int, a0: int, b0: int, alpha: int, beta: int) {
    -beta < a2 - a0 < beta && 4 * (a0 - b0) < (alpha - alpha % 4) + 8 && 4 * (b0 - a0) < (alpha - alpha % 4) + 8
  }

  // ---------------------------------------------------------------------------------------
  // Strength 4.
  // ---------------------------------------------------------------------------------------

  /** The taps of one side, with its samples a3, a2, a1, a0 and the nearest of the other side, b0, b1: the new a2, a1,
      a0 are the rounded quotients of these sums. */
  predicate Taps(a3: int, a2: int, a1: int, a0: int, b0: int, b1: int, strong: bool, a2': int, a1': int, a0': int) {
    if strong then
      && Rounds(a2', 2 * a3 + 3 * a2 + a1 + a0 + b0, 8)
      && Rounds(a1', a2 + a1 + a0 + b0, 4)
      && Rounds(a0', a2 + 2 * a1 + 2 * a0 + 2 * b0 + b1, 8)
    else a2' == a2 && a1' == a1 && Rounds(a0', 2 * a1 + a0 + b1, 4)
  }

  /** A line that is not to be filtered stays; of one that is, each side becomes what its taps say. */
  lemma LumaBs4Taps(line: Line, alpha: int, beta: int)
    requires |line| == 8
    ensures var r := Apply(LumaBs4(alpha, beta), line);
            if !Decided(line[2], line[3], line[4], line[5], alpha, beta) then r == line
            else
              && r[0] == line[0] && r[7] == line[7]
              && Taps(line[0], line[1], line[2], line[3], line[4], line[5],
                      Strong(line[1], line[3], line[4], alpha, beta), r[1], r[2], r[3])
              && Taps(line[7], line[6], line[5], line[4], line[3], line[2],
                      Strong(line[6], line[4], line[3], alpha, beta), r[6], r[5], r[4])
  {
    SideSamples(line[0], line[1], line[2], line[3], line[4], line[5], alpha, beta);
    SideSamples(line[7], line[6], line[5], line[4], line[3], line[2], alpha, beta);
    hide SideBs4, Taps, Strong;
  }

  lemma SideSamples(a3: byte, a2: byte, a1: byte, a0: byte, b0: byte, b1: byte, alpha: int, beta: int)
    ensures var r := SideBs4(a3, a2, a1, a0, b0, b1, false, alpha, beta);
            Taps(a3, a2, a1, a0, b0, b1, Strong(a2, a0, b0, alpha, beta), r.0, r.1, r.2)
  {
    StrongIs(a2, a0, b0, alpha, beta);
    EighthRounds(2 * a3 + 3 * a2 + a1 + a0 + b0);
    QuarterRounds(a2 as int + a1 + a0 + b0);
    EighthRounds(a2 + 2 * a1 + 2 * a0 + 2 * b0 + b1);
    QuarterRounds(2 * a1 + a0 + b1);
    hide Rounds, Shr2, Shr3, Strong, Abs;
  }

  lemma EighthRounds(sum: int)
    ensures Rounds(Shr3(sum + 4), sum, 8)
  {
  }

  lemma QuarterRounds(sum: int)
    ensures Rounds(Shr2(sum + 2), sum, 4)
  {
  }

  lemma StrongIs(a2: int, a0: int, b0: int, alpha: int, beta: int)
    ensures Strong(a2, a0, b0, alpha, beta) <==> Abs(a2 - a0) < beta && Abs(a0 - b0) < Shr2(alpha) + 2
  {
    assert 4 * Shr2(alpha) == alpha - alpha % 4;
  }

  /** The same of a chroma line. */
  lemma ChromaBs4Taps(line: Line, alpha: int, beta: int)
    requires |line| == 4
    ensures var r := Apply(ChromaBs4(alpha, beta), line);
            if !Decided(line[0], line[1], line[2], line[3], alpha, beta) then r == line
            else
              && r[0] == line[0] && Rounds(r[1], 2 * line[0] as int + line[1] + line[3], 4)
              && r[3] == line[3] && Rounds(r[2], 2 * line[3] as int + line[2] + line[0], 4)
  {
  }

  // ---------------------------------------------------------------------------------------
  // Strength 4: what each sample contributes.
  // ---------------------------------------------------------------------------------------

  lemma TapsHigher(a3: int, a2: int, a1: int, a0: int, b0: int, b1: int, strong: bool,
                   d3: int, d2: int, d1: int, d0: int, e0: int, e1: int,
                   r2: int, r1: int, r0: int, t2: int, t1: int, t0: int)
    requires Taps(a3, a2, a1, a0, b0, b1, strong, r2, r1, r0)
    requires Taps(a3 + 8 * d3, a2 + 8 * d2, a1 + 8 * d1, a0 + 8 * d0, b0 + 8 * e0, b1 + 8 * e1, strong, t2, t1, t0)
    ensures if strong then
              && t2 == r2 + 2 * d3 + 3 * d2 + d1 + d0 + e0
              && t1 == r1 + 2 * d2 + 2 * d1 + 2 * d0 + 2 * e0
              && t0 == r0 + d2 + 2 * d1 + 2 * d0 + 2 * e0 + e1
            else t2 == r2 + 8 * d2 && t1 == r1 + 8 * d1 && t0 == r0 + 4 * d1 + 2 * d0 + 2 * e1
  {
  }

  /** Both lines are filtered, and each side of both in the same way. */
  predicate SameDecisions(line: Line, other: Line, alpha: int, beta: int)
    requires |line| == |other| == 8
  {
    && Decided(line[2], line[3], line[4], line[5], alpha, beta)
    && Decided(other[2], other[3], other[4], other[5], alpha, beta)
    && Strong(line[1], line[3], line[4], alpha, beta) == Strong(other[1], other[3], other[4], alpha, beta)
    && Strong(line[6], line[4], line[3], alpha, beta) == Strong(other[6], other[4], other[3], alpha, beta)
  }

  /** `other` is `line` with 8 d[k] added to sample k, p3 first and q3 last. */
  predicate RaisedBy(line: Line, other: Line, d: seq<int>) {
    |line| == |other| == |d| && forall k :: 0 <= k < |line| ==> other[k] == line[k] + 8 * d[k]
  }

  /** At strength 4, as long as the decisions stay the same, raising the samples by 8 each time raises the new ones by
      their weights: p2' by 2, 3, 1, 1, 1, 0, 0, 0 for p3, p2, p1, p0, q0, q1, q2, q3 on the strong branch, p1' by
      0, 2, 2, 2, 2, 0, 0, 0 and p0' by 0, 1, 2, 2, 2, 1, 0, 0; on the other branch p0' by 0, 0, 4, 2, 0, 2, 0, 0; and the
      q side likewise. */
  lemma LumaBs4Weights(line: Line, other: Line, d: seq<int>, alpha: int, beta: int)
    requires |line| == 8 && RaisedBy(line, other, d) && SameDecisions(line, other, alpha, beta)
    ensures var r, t := Apply(LumaBs4(alpha, beta), line), Apply(LumaBs4(alpha, beta), other);
            && (if Strong(line[1], line[3], line[4], alpha, beta) then
                  && t[1] == r[1] as int + 2 * d[0] + 3 * d[1] + d[2] + d[3] + d[4]
                  && t[2] == r[2] as int + 2 * d[1] + 2 * d[2] + 2 * d[3] + 2 * d[4]
                  && t[3] == r[3] as int + d[1] + 2 * d[2] + 2 * d[3] + 2 * d[4] + d[5]
                else
                  && t[1] == r[1] as int + 8 * d[1] && t[2] == r[2] as int + 8 * d[2]
                  && t[3] == r[3] as int + 4 * d[2] + 2 * d[3] + 2 * d[5])
            && (if Strong(line[6], line[4], line[3], alpha, beta) then
                  && t[6] == r[6] as int + 2 * d[7] + 3 * d[6] + d[5] + d[4] + d[3]
                  && t[5] == r[5] as int + 2 * d[6] + 2 * d[5] + 2 * d[4] + 2 * d[3]
                  && t[4] == r[4] as int + d[6] + 2 * d[5] + 2 * d[4] + 2 * d[3] + d[2]
                else
                  && t[6] == r[6] as int + 8 * d[6] && t[5] == r[5] as int + 8 * d[5]
                  && t[4] == r[4] as int + 4 * d[5] + 2 * d[4] + 2 * d[2])
  {
    hide Apply, Strong, Decided, Taps;
    var p, q := Strong(line[1], line[3], line[4], alpha, beta), Strong(line[6], line[4], line[3], alpha, beta);
    var r, t := Apply(LumaBs4(alpha, beta), line), Apply(LumaBs4(alpha, beta), other);
    LumaBs4Taps(line, alpha, beta);
    LumaBs4Taps(other, alpha, beta);
    TapsHigher(line[0], line[1], line[2], line[3], line[4], line[5], p, d[0], d[1], d[2], d[3], d[4], d[5],
               r[1], r[2], r[3], t[1], t[2], t[3]);
    TapsHigher(line[7], line[6], line[5], line[4], line[3], line[2], q, d[7], d[6], d[5], d[4], d[3], d[2],
               r[6], r[5], r[4], t[6], t[5], t[4]);
  }

  // ---------------------------------------------------------------------------------------
  // Strength below 4.
  // ---------------------------------------------------------------------------------------

  /** What the samples at the edge become: `d` is the rounded eighth of the step across it, `c` is `d` brought into
      -tc..tc, and p0 and q0 move towards each other by `c`, not leaving 0..255. */
  predicate EdgeMoves(p1: int, p0: int, q0: int, q1: int, tc: int, p0': int, q0': int, d: int, c: int) {
    && Rounds(d, 4 * (q0 - p0) + (p1 - q1), 8) && Brought(c, d, -tc, tc)
    && Brought(p0', p0 + c, 0, 255) && Brought(q0', q0 - c, 0, 255)
  }

  /** What the second sample of a side becomes: half the way, rounded down, between the third sample and the rounded mean
      of the two at the edge, but no further than tc0 from where it was. */
  predicate SecondMoves(a2: int, a1: int, a0: int, b0: int, tc0: int, a1': int, mean: int, middle: int) {
    && Rounds(mean, a0 + b0, 2) && 2 * middle <= a2 + mean < 2 * middle + 2
    && Brought(a1', middle, a1 - tc0, a1 + tc0)
  }

  predicate Near(a2: int, a0: int, beta: int) { -beta < a2 - a0 < beta }

  /** So it does if the third sample is near the one at the edge; otherwise it stays. */
  ghost predicate SecondBecomes(a2: int, a1: int, a0: int, b0: int, beta: int, tc0: int, a1': int) {
    if Near(a2, a0, beta) then exists mean, middle :: SecondMoves(a2, a1, a0, b0, tc0, a1', mean, middle) else a1' == a1
  }

  function Tc(p2: int, p0: int, q0: int, q2: int, beta: int, tc0: int): int {
    tc0 + (if Near(p2, p0, beta) then 1 else 0) + if Near(q2, q0, beta) then 1 else 0
  }

  /** The luma code below strength 4, with its C types, as far as tc fits its own. */
  lemma LumaBslt4Moves(line: Line, alpha: int, beta: int, tc0: byte) returns (d: int, c: int)
    requires |line| == 6 && tc0 <= 125
    ensures var p2, p1, p0, q0, q1, q2 := line[0], line[1], line[2], line[3], line[4], line[5];
            var r := Apply(LumaBslt4(alpha, beta, tc0), line);
            if !Decided(p1, p0, q0, q1, alpha, beta) then r == line
            else
              && r[0] == p2 && SecondBecomes(p2, p1, p0, q0, beta, tc0, r[1])
              && EdgeMoves(p1, p0, q0, q1, Tc(p2, p0, q0, q2, beta, tc0), r[2], r[3], d, c)
              && SecondBecomes(q2, q1, q0, p0, beta, tc0, r[4]) && r[5] == q2
  {
    var p2, p1, p0, q0, q1, q2 := line[0], line[1], line[2], line[3], line[4], line[5];
    LumaExactUpTo125(p2, p1, p0, q0, q1, q2, alpha, beta, tc0);
    d, c := InnerSamples(p2, p1, p0, q0, q1, q2, alpha, beta, tc0);
    hide SecondBecomes, EdgeMoves, Decided, Tc, StandardInner, MachineLumaInner;
  }

  lemma InnerSamples(p2: byte, p1: byte, p0: byte, q0: byte, q1: byte, q2: byte, alpha: int, beta: int, tc0: nat)
    returns (d: int, c: int)
    ensures var r := StandardInner(p2, p1, p0, q0, q1, q2, false, alpha, beta, tc0);
            if !Decided(p1, p0, q0, q1, alpha, beta) then r == (p1, p0, q0, q1)
            else
              && SecondBecomes(p2, p1, p0, q0, beta, tc0, r.0)
              && EdgeMoves(p1, p0, q0, q1, Tc(p2, p0, q0, q2, beta, tc0), r.1, r.2, d, c)
              && SecondBecomes(q2, q1, q0, p0, beta, tc0, r.3)
  {
    assert Decided(p1, p0, q0, q1, alpha, beta) == FilterSamples(p1, p0, q0, q1, alpha, beta);
    if Decided(p1, p0, q0, q1, alpha, beta) {
      hide StandardInner, FilterSamples, Decided, EdgeMoves, SecondBecomes, Tc;
      d, c := InnerEdge(p2, p1, p0, q0, q1, q2, alpha, beta, tc0);
      InnerSeconds(p2, p1, p0, q0, q1, q2, alpha, beta, tc0);
    } else {
      d, c := 0, 0;
    }
  }

  lemma InnerEdge(p2: byte, p1: byte, p0: byte, q0: byte, q1: byte, q2: byte, alpha: int, beta: int, tc0: nat)
    returns (d: int, c: int)
    requires FilterSamples(p1, p0, q0, q1, alpha, beta)
    ensures var r := StandardInner(p2, p1, p0, q0, q1, q2, false, alpha, beta, tc0);
            EdgeMoves(p1, p0, q0, q1, Tc(p2, p0, q0, q2, beta, tc0), r.1, r.2, d, c)
  {
    hide ClipRange, Tc, Abs, FilterSamples, SecondSample, EdgeMoves, DeltaRaw, Clip3, ClipU8;
    TcIs(p2, p0, q0, q2, beta, tc0);
    var tc := ClipRange(Abs(p2 - p0), Abs(q2 - q0), false, beta, tc0);
    d := DeltaRaw(p1, p0, q0, q1);
    c := Clip3(-(tc as int), tc, d);
    EdgeMoved(p1, p0, q0, q1, tc);
    assert StandardInner(p2, p1, p0, q0, q1, q2, false, alpha, beta, tc0).1 == ClipU8(p0 + c);
    assert StandardInner(p2, p1, p0, q0, q1, q2, false, alpha, beta, tc0).2 == ClipU8(q0 - c);
  }

  lemma TcIs(p2: int, p0: int, q0: int, q2: int, beta: int, tc0: nat)
    ensures Tc(p2, p0, q0, q2, beta, tc0) == ClipRange(Abs(p2 - p0), Abs(q2 - q0), false, beta, tc0)
  {
  }

  lemma InnerSeconds(p2: byte, p1: byte, p0: byte, q0: byte, q1: byte, q2: byte, alpha: int, beta: int, tc0: nat)
    requires FilterSamples(p1, p0, q0, q1, alpha, beta)
    ensures var r := StandardInner(p2, p1, p0, q0, q1, q2, false, alpha, beta, tc0);
            SecondBecomes(p2, p1, p0, q0, beta, tc0, r.0) && SecondBecomes(q2, q1, q0, p0, beta, tc0, r.3)
  {
    SecondMoved(p2, p1, p0, q0, tc0);
    SecondMoved(q2, q1, q0, p0, tc0);
    hide SecondSample, SecondMoves, DeltaRaw, Clip3, ClipU8, ClipRange, FilterSamples;
  }

  lemma EdgeMoved(p1: byte, p0: byte, q0: byte, q1: byte, tc: nat)
    ensures var d := DeltaRaw(p1, p0, q0, q1);
            var c := Clip3(-(tc as int), tc, d);
            EdgeMoves(p1, p0, q0, q1, tc, ClipU8(p0 + c), ClipU8(q0 - c), d, c)
  {
  }

  lemma SecondMoved(a2: byte, a1: byte, a0: byte, b0: byte, tc0: nat)
    ensures var mean := (a0 + b0 + 1) / 2;
            SecondMoves(a2, a1, a0, b0, tc0, SecondSample(a2, a1, a0, b0, tc0), mean, (a2 + mean) / 2)
  {
  }

  lemma ChromaBslt4Moves(line: Line, alpha: int, beta: int, tc0: byte) returns (d: int, c: int)
    requires |line| == 4 && tc0 <= 126
    ensures var r := Apply(ChromaBslt4(alpha, beta, tc0), line);
            if !Decided(line[0], line[1], line[2], line[3], alpha, beta) then r == line
            else
              && r[0] == line[0] && r[3] == line[3]
              && EdgeMoves(line[0], line[1], line[2], line[3], tc0 + 1, r[1], r[2], d, c)
  {
    var p1, p0, q0, q1 := line[0], line[1], line[2], line[3];
    ChromaExactUpTo126(p1, p0, q0, q1, alpha, beta, tc0);
    d := DeltaRaw(p1, p0, q0, q1);
    c := Clip3(-(tc0 + 1), tc0 + 1, d);
    EdgeMoved(p1, p0, q0, q1, tc0 + 1);
    hide DeltaRaw, Clip3, ClipU8, EdgeMoves, MachineChromaInner;
  }
}
