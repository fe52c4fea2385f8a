/** The chain of packets of one XMA stream and the frames that begin in them, read off the data bit by bit; and the
    header getters, which compute the same with shifts and masks. */
module XmaPackets {
  import opened CInt
  import opened BigEndianBits

  const PACKET_BYTES: nat := 2048
  const HEADER_BITS: nat := 32
  const LENGTH_BITS: nat := 15

  // ---------------------------------------------------------------------------------------
  // The getters, as the code computes them. `p` is where the packet begins.
  // ---------------------------------------------------------------------------------------

  function FrameCount(data: seq<byte>, p: nat): (r: nat)
    requires p < |data|
    ensures r == Bits(data, 8 * p, 6) && r < 64
  {
    TopOfByte(data, p, 6);
    Powers();
    data[p] / 4
  }

  /** `((p[0] & 3) << 13) | (p[1] << 5) | (p[2] >> 3)`; the three parts have no bit in common, so `|` is `+`. */
  function FirstFrameOffset(data: seq<byte>, p: nat): (r: nat)
    requires p + 2 < |data|
    ensures r == Bits(data, 8 * p + 6, 15)
  {
    OffsetField(data, p);
    data[p] % 4 * 8192 + data[p + 1] as int * 32 + data[p + 2] / 8
  }

  function SkipCount(data: seq<byte>, p: nat): (r: nat)
    requires p + 3 < |data|
    ensures r == Bits(data, 8 * p + 24, 8) && r < 256
  {
    ByteIsBits(data, p + 3);
    data[p + 3]
  }

  lemma OffsetField(data: seq<byte>, p: nat)
    requires p + 2 < |data|
    ensures data[p] % 4 * 8192 + data[p + 1] as int * 32 + data[p + 2] / 8 == Bits(data, 8 * p + 6, 15)
  {
    Powers();
    hide Bits, Pow2;
    ThreeBytes(data, p);
    FieldOf(data, 8 * p, 6, 15, 3);
    OffsetArithmetic(data[p], data[p + 1], data[p + 2]);
  }

  lemma OffsetArithmetic(b0: int, b1: int, b2: int)
    requires 0 <= b0 < 256 && 0 <= b1 < 256 && 0 <= b2 < 256
    ensures (b0 * 65536 + b1 * 256 + b2) / 8 % 32768 == b0 % 4 * 8192 + b1 * 32 + b2 / 8
  {
    var w := b0 * 8192 + b1 * 32 + b2 / 8;
    assert (b0 * 65536 + b1 * 256 + b2) / 8 == w;
    assert w == b0 / 4 * 32768 + (b0 % 4 * 8192 + b1 * 32 + b2 / 8);
  }

  /** GetXmaFrameLengthInBits: two bytes are read when the field ends in the second, three otherwise, and never a byte
      that holds none of it. */
  function FrameLength(data: seq<byte>, p: nat, bit: nat): (r: nat)
    requires p + (bit + LENGTH_BITS - 1) / 8 < |data|
    ensures r == Bits(data, 8 * p + bit, LENGTH_BITS) && r < 32768
  {
    var at, offset := p + bit / 8, bit % 8;
    LengthField(data, at, offset);
    assert 8 * at + offset == 8 * p + bit;
    if offset < 2 then
      var region := data[at] as int * 256 + data[at + 1];
      region / Pow2(1 - offset) % 32768
    else
      var region := data[at] as int * 65536 + data[at + 1] as int * 256 + data[at + 2];
      region / Pow2(9 - offset) % 32768
  }

  lemma LengthField(data: seq<byte>, at: nat, offset: nat)
    requires offset < 8 && at + (offset + 14) / 8 < |data|
    ensures Bits(data, 8 * at + offset, 15) < 32768
    ensures if offset < 2 then
              (data[at] as int * 256 + data[at + 1]) / Pow2(1 - offset) % 32768 == Bits(data, 8 * at + offset, 15)
            else
              (data[at] as int * 65536 + data[at + 1] as int * 256 + data[at + 2]) / Pow2(9 - offset) % 32768
                == Bits(data, 8 * at + offset, 15)
  {
    Powers();
    hide Bits, Pow2;
    if offset < 2 {
      TwoBytes(data, at);
      FieldOf(data, 8 * at, offset, 15, 1 - offset);
    } else {
      ThreeBytes(data, at);
      FieldOf(data, 8 * at, offset, 15, 9 - offset);
    }
  }

  // ---------------------------------------------------------------------------------------
  // Chains and frames.
  // ---------------------------------------------------------------------------------------

  /** The packet at `p` lies in the data as a whole. */
  predicate Complete(data: seq<byte>, p: nat) { p + PACKET_BYTES <= |data| }

  function Stride(data: seq<byte>, p: nat): (r: nat)
    requires Complete(data, p)
    ensures PACKET_BYTES <= r <= 256 * PACKET_BYTES && r % PACKET_BYTES == 0
  {
    PACKET_BYTES * (SkipCount(data, p) + 1)
  }

  /** The packets of the stream whose packet at `p` is, from there on. */
  function Chain(data: seq<byte>, p: nat): (r: seq<nat>)
    ensures forall k :: 0 <= k < |r| ==> Complete(data, r[k])
    decreases |data| - p
  {
    if !Complete(data, p) then [] else [p] + Chain(data, p + Stride(data, p))
  }

  predicate Readable(data: seq<byte>, bit: nat) { (bit + LENGTH_BITS - 1) / 8 < |data| }

  /** Where the `i`-th frame of the packet at `p` begins, in bits from the beginning of the data. Each frame begins
      where the one before ends, even if that is beyond the packet. */
  function FrameStart(data: seq<byte>, p: nat, i: nat): (r: nat)
    requires Complete(data, p)
    ensures r >= 8 * p + HEADER_BITS
  {
    if i == 0 then 8 * p + HEADER_BITS + Bits(data, 8 * p + 6, LENGTH_BITS)
    else
      var before := FrameStart(data, p, i - 1);
      before + if Readable(data, before) then Bits(data, before, LENGTH_BITS) else 0
  }

  function PacketFrames(data: seq<byte>, p: nat): (r: seq<nat>)
    requires Complete(data, p)
    ensures |r| == FrameCount(data, p) && forall i :: 0 <= i < |r| ==> r[i] == FrameStart(data, p, i)
  {
    seq(FrameCount(data, p), i requires i >= 0 => FrameStart(data, p, i))
  }

  /** Where all frames of the stream begin, from the packet at `p` on. */
  function Frames(data: seq<byte>, p: nat): (r: seq<nat>)
    decreases |data| - p
  {
    if !Complete(data, p) then [] else PacketFrames(data, p) + Frames(data, p + Stride(data, p))
  }

  /** The lengths of the packet's first `n` frames can be read. */
  predicate ReadableUpTo(data: seq<byte>, p: nat, n: int)
    requires Complete(data, p)
  {
    forall i :: 0 <= i < n ==> Readable(data, FrameStart(data, p, i))
  }

  /** The lengths of all frames but the last of a packet can be read. */
  predicate LengthsReadable(data: seq<byte>, p: nat)
    requires Complete(data, p)
  {
    ReadableUpTo(data, p, FrameCount(data, p) - 1)
  }

  /** What the search for frame `n` of the chain relies on: in the packet where it begins, if there is one, the lengths of
      the frames before it can be read. */
  predicate Reachable(data: seq<byte>, p: nat, n: nat)
    decreases |data| - p
  {
    Complete(data, p) ==>
      if n < FrameCount(data, p) then ReadableUpTo(data, p, n)
      else Reachable(data, p + Stride(data, p), n - FrameCount(data, p))
  }

  /** In a chain whose lengths can be read, every frame is reachable. */
  lemma {:induction false} AllReachable(data: seq<byte>, p: nat, n: nat)
    requires ChainReadable(data, p)
    ensures Reachable(data, p, n)
    decreases |data| - p
  {
    hide FrameCount, Stride, FrameStart, ChainReadable;
    if Complete(data, p) {
      ChainTail(data, p);
      if n >= FrameCount(data, p) { AllReachable(data, p + Stride(data, p), n - FrameCount(data, p)); }
    }
  }

  /** All lengths of a chain that may be needed can be read. */
  predicate ChainReadable(data: seq<byte>, p: nat) {
    forall k :: 0 <= k < |Chain(data, p)| ==> LengthsReadable(data, Chain(data, p)[k])
  }

  lemma ChainTail(data: seq<byte>, p: nat)
    requires Complete(data, p) && ChainReadable(data, p)
    ensures LengthsReadable(data, p) && ChainReadable(data, p + Stride(data, p))
  {
    var next := p + Stride(data, p);
    assert Chain(data, p)[0] == p;
    forall k | 0 <= k < |Chain(data, next)| ensures LengthsReadable(data, Chain(data, next)[k]) {
      assert Chain(data, p)[k + 1] == Chain(data, next)[k];
    }
  }

  /** As the format has it: the frames of a packet begin inside the packet. */
  predicate FramesInside(data: seq<byte>, p: nat)
    requires Complete(data, p)
  {
    forall i :: 0 <= i < FrameCount(data, p) ==> FrameStart(data, p, i) < 8 * (p + PACKET_BYTES)
  }

  predicate ChainInside(data: seq<byte>, p: nat) {
    forall k :: 0 <= k < |Chain(data, p)| ==> FramesInside(data, Chain(data, p)[k])
  }

  lemma ChainInsideTail(data: seq<byte>, p: nat)
    requires Complete(data, p) && ChainInside(data, p)
    ensures FramesInside(data, p) && ChainInside(data, p + Stride(data, p))
  {
    var next := p + Stride(data, p);
    assert Chain(data, p)[0] == p;
    forall k | 0 <= k < |Chain(data, next)| ensures FramesInside(data, Chain(data, next)[k]) {
      assert Chain(data, p)[k + 1] == Chain(data, next)[k];
    }
  }

  /** How far a frame can begin into its packet. */
  lemma {:induction false} FrameStartBound(data: seq<byte>, p: nat, i: nat)
    requires Complete(data, p)
    ensures FrameStart(data, p, i) <= 8 * p + HEADER_BITS + 32767 * (i + 1)
  {
    Powers();
    if i > 0 { FrameStartBound(data, p, i - 1); }
  }
}
