/** Seeking in an XMA2 file: from a sample to its block, and from there to its frame and subframe. */
module XmaSeek {
  import opened CInt
  import opened Options
  import opened XmaPackets
  import opened XmaNavigation

  const SAMPLES_PER_FRAME: nat := 512
  const SAMPLES_PER_SUBFRAME: nat := 128

  /** Samples decoded before block `b`. */
  function Before(table: seq<nat>, b: nat): nat
    requires b <= |table|
  {
    if b == 0 then 0 else table[b - 1]
  }

  /** GetXmaBlockContainingSample: the first block whose cumulative count exceeds the sample, and the sample's offset in
      it. The subtraction never goes below zero, whatever the table holds. */
  method GetXmaBlockContainingSample(table: seq<nat>, desired: nat) returns (r: Option<(nat, nat)>)
    ensures r.None? <==> forall b :: 0 <= b < |table| ==> table[b] <= desired
    ensures r.Some? ==>
              var (block, offset) := r.value;
              && block < |table| && table[block] > desired
              && (forall b :: 0 <= b < block ==> table[b] <= desired)
              && Before(table, block) + offset == desired
              && offset < table[block] - Before(table, block)
  {
    var previous := 0;
    for block := 0 to |table|
      invariant previous == Before(table, block) && previous <= desired
      invariant forall b :: 0 <= b < block ==> table[b] <= desired
    {
      var soFar := table[block];
      if soFar > desired {
        return Some((block, desired - previous));
      }
      previous := soFar;
    }
    return None;
  }

  /** In a seek table, which never decreases, the block found is exactly the one whose samples include the desired one. */
  lemma BlockHoldsSample(table: seq<nat>, desired: nat, block: nat)
    requires forall i, j :: 0 <= i <= j < |table| ==> table[i] <= table[j]
    requires block < |table|
    ensures Before(table, block) <= desired < table[block] <==>
              table[block] > desired && forall b :: 0 <= b < block ==> table[b] <= desired
  {
    forall b | 0 <= b < block ensures table[b] <= Before(table, block) {}
  }

  /** GetXmaDecodePositionForSample: the frame's first bit and the subframe, or nothing if there is no such frame. */
  method GetXmaDecodePositionForSample(data: seq<byte>, stream: nat, desired: nat) returns (r: Option<(nat, nat)>)
    requires |data| < TWO_32 && stream < TWO_32 && desired < TWO_32
    requires Reachable(data, FirstPacket(stream), desired / SAMPLES_PER_FRAME)
    ensures r == DecodePosition(data, stream, desired)
  {
    var frame, subframe := desired / SAMPLES_PER_FRAME, desired % SAMPLES_PER_FRAME / SAMPLES_PER_SUBFRAME;
    var bitOffset := GetXmaFrameBitPosition(data, stream, frame);
    if bitOffset != 0 {
      return Some((bitOffset, subframe));
    } else {
      return None;
    }
  }

  function DecodePosition(data: seq<byte>, stream: nat, desired: nat): Option<(nat, nat)> {
    var at := FramePosition(data, stream, desired / SAMPLES_PER_FRAME);
    if at == 0 then None else Some((at, desired % SAMPLES_PER_FRAME / SAMPLES_PER_SUBFRAME))
  }

  /** Seeking succeeds exactly when the stream has the frame that decodes to the sample, and then names the frame `f` and
      subframe `s` with 512 f + 128 s <= sample < 512 f + 128 (s + 1). */
  lemma SeekFindsSample(data: seq<byte>, stream: nat, desired: nat)
    requires |data| <= 0x2000_0000 && ChainInside(data, FirstPacket(stream))
    ensures var frames, r := Frames(data, FirstPacket(stream)), DecodePosition(data, stream, desired);
            && (r.Some? <==> desired < SAMPLES_PER_FRAME * |frames|)
            && (r.Some? ==> exists f: nat, s: nat | f < |frames| && s < 4 ::
                  r.value == (frames[f], s) && SubframeHolds(f, s, desired))
  {
    hide Frames, FramePosition;
    var f, s := desired / SAMPLES_PER_FRAME, desired % SAMPLES_PER_FRAME / SAMPLES_PER_SUBFRAME;
    PositionExact(data, stream, f);
    assert SubframeHolds(f, s, desired);
  }

  predicate SubframeHolds(f: nat, s: nat, sample: nat) {
    SAMPLES_PER_FRAME * f + SAMPLES_PER_SUBFRAME * s <= sample
      < SAMPLES_PER_FRAME * f + SAMPLES_PER_SUBFRAME * (s + 1)
  }
}
