/** Where the frames of an XMA2 stream lie, told from the header fields and frame lengths alone, and that the searches
    find them there. */
module XmaLayout {
  import opened CInt
  import opened Options
  import opened BigEndianBits
  import opened XmaPackets
  import opened XmaNavigation
  import opened XmaLastFrame
  import opened XmaSeek

  /** The frames of the packet at `p` begin at `starts`: the first behind the 32 header bits and the first frame offset,
      every other one frame length behind the one before. */
  predicate PacketLaid(data: seq<byte>, p: nat, starts: seq<nat>) {
    && p + 2048 <= |data| && |starts| == FrameCount(data, p)
    && (starts != [] ==> starts[0] == 8 * p + 32 + FirstFrameOffset(data, p))
    && (forall i :: 0 <= i < |starts| - 1 ==> FollowsFrame(data, p, starts[i], starts[i + 1]))
  }

  predicate FollowsFrame(data: seq<byte>, p: nat, start: nat, next: nat) {
    start >= 8 * p && p + (start - 8 * p + 14) / 8 < |data| && next == start + FrameLength(data, p, start - 8 * p)
  }

  /** The stream's packets from `from` on lie at `at`, each its skip count of packets behind the one before, until the next
      would not be complete; and their frames begin at `starts`. */
  predicate ChainLaid(data: seq<byte>, from: nat, at: seq<nat>, starts: seq<seq<nat>>)
    decreases |at|
  {
    && |starts| == |at|
    && if at == [] then from + 2048 > |data|
       else
         && at[0] == from && PacketLaid(data, from, starts[0])
         && ChainLaid(data, from + 2048 * (SkipCount(data, from) + 1), at[1..], starts[1..])
  }

  function Concat(starts: seq<seq<nat>>): seq<nat> {
    if starts == [] then [] else starts[0] + Concat(starts[1..])
  }

  lemma {:induction false} LaidStart(data: seq<byte>, p: nat, starts: seq<nat>, i: nat)
    requires PacketLaid(data, p, starts) && i < |starts|
    ensures Complete(data, p) && FrameStart(data, p, i) == starts[i]
  {
    hide FrameCount, FirstFrameOffset, Bits;
    if i == 0 {
      FirstStart(data, p);
    } else {
      LaidStart(data, p, starts, i - 1);
      assert FollowsFrame(data, p, starts[i - 1], starts[i]);
      NextStart(data, p, i, starts[i - 1]);
    }
  }

  lemma FirstStart(data: seq<byte>, p: nat)
    requires Complete(data, p)
    ensures FrameStart(data, p, 0) == 8 * p + 32 + FirstFrameOffset(data, p)
  {
    hide Bits;
  }

  lemma NextStart(data: seq<byte>, p: nat, i: nat, start: nat)
    requires Complete(data, p) && i > 0 && FrameStart(data, p, i - 1) == start && start >= 8 * p
    requires p + (start - 8 * p + 14) / 8 < |data|
    ensures FrameStart(data, p, i) == start + FrameLength(data, p, start - 8 * p)
  {
    hide Bits, FrameLength;
    assert (start + 14) / 8 == p + (start - 8 * p + 14) / 8;
    LengthIsBits(data, p, start - 8 * p);
  }

  lemma LengthIsBits(data: seq<byte>, p: nat, bit: nat)
    requires p + (bit + LENGTH_BITS - 1) / 8 < |data|
    ensures FrameLength(data, p, bit) == Bits(data, 8 * p + bit, LENGTH_BITS)
  {
  }

  lemma LaidPacketFrames(data: seq<byte>, p: nat, starts: seq<nat>)
    requires PacketLaid(data, p, starts)
    ensures PacketFrames(data, p) == starts
  {
    hide PacketLaid, FrameCount, FrameStart;
    assert |PacketFrames(data, p)| == |starts| by { FrameNumber(data, p, starts); }
    forall i | 0 <= i < |starts| ensures PacketFrames(data, p)[i] == starts[i] { LaidStart(data, p, starts, i); }
  }

  lemma FrameNumber(data: seq<byte>, p: nat, starts: seq<nat>)
    requires PacketLaid(data, p, starts)
    ensures Complete(data, p) && |starts| == FrameCount(data, p)
  {
  }

  /** The chain's frames are those of its packets, one after the other. */
  lemma {:induction false} LaidFrames(data: seq<byte>, from: nat, at: seq<nat>, starts: seq<seq<nat>>)
    requires ChainLaid(data, from, at, starts)
    ensures Frames(data, from) == Concat(starts)
    decreases |at|
  {
    if at == [] {
      assert Frames(data, from) == [];
    } else {
      FrameNumber(data, from, starts[0]);
      hide PacketLaid, FrameCount, SkipCount, PacketFrames, Frames, Concat;
      var next := from + 2048 * (SkipCount(data, from) + 1);
      LaidFrames(data, next, at[1..], starts[1..]);
      LaidPacketFrames(data, from, starts[0]);
      FramesUnfold(data, from);
      ConcatUnfold(starts);
    }
  }

  lemma FramesUnfold(data: seq<byte>, from: nat)
    requires Complete(data, from)
    ensures Frames(data, from) == PacketFrames(data, from) + Frames(data, from + 2048 * (SkipCount(data, from) + 1))
  {
    hide SkipCount, PacketFrames, Stride, Frames;
    StrideIs(data, from);
    FramesByStride(data, from);
  }

  lemma FramesByStride(data: seq<byte>, from: nat)
    requires Complete(data, from)
    ensures Frames(data, from) == PacketFrames(data, from) + Frames(data, from + Stride(data, from))
  {
    hide PacketFrames, Stride;
  }

  lemma StrideIs(data: seq<byte>, p: nat)
    requires Complete(data, p)
    ensures Stride(data, p) == 2048 * (SkipCount(data, p) + 1)
  {
    hide SkipCount;
  }

  lemma ConcatUnfold(starts: seq<seq<nat>>)
    requires starts != []
    ensures Concat(starts) == starts[0] + Concat(starts[1..])
  {
  }

  /** What GetXmaFrameBitPosition returns for frame `n` is where that frame was laid, as a DWORD, and 0 behind the last. */
  lemma SearchFindsLaid(data: seq<byte>, stream: nat, at: seq<nat>, starts: seq<seq<nat>>, n: nat)
    requires stream * 2048 < 0x1_0000_0000 && ChainLaid(data, stream * 2048, at, starts)
    ensures FramePosition(data, stream, n) == if n < |Concat(starts)| then Concat(starts)[n] % 0x1_0000_0000 else 0
  {
    hide ChainLaid, Concat, Frames;
    LaidFrames(data, stream * 2048, at, starts);
    UWord32Exact(stream * PACKET_BYTES);
  }

  /** And GetXmaDecodePositionForSample finds frame sample / 512, where it was laid, and subframe sample % 512 / 128; it
      fails behind the last frame. Positions must not wrap to 0, as in data of up to 512 MiB none does. */
  lemma SeekFindsLaid(data: seq<byte>, stream: nat, at: seq<nat>, starts: seq<seq<nat>>, sample: nat)
    requires |data| <= 0x2000_0000 && stream * 2048 < 0x1_0000_0000 && ChainLaid(data, stream * 2048, at, starts)
    requires forall n :: 0 <= n < |Concat(starts)| ==> 0 < Concat(starts)[n] < 8 * |data|
    ensures DecodePosition(data, stream, sample) ==
            if sample < 512 * |Concat(starts)| then Some((Concat(starts)[sample / 512], sample % 512 / 128)) else None
  {
    hide ChainLaid, Concat, FramePosition;
    SearchFindsLaid(data, stream, at, starts, sample / 512);
  }

  /** Every chain whose lengths can be read is laid in some way. */
  lemma {:induction false} LayoutOf(data: seq<byte>, from: nat) returns (at: seq<nat>, starts: seq<seq<nat>>)
    requires ChainReadable(data, from)
    ensures ChainLaid(data, from, at, starts)
    decreases |data| - from
  {
    if !Complete(data, from) {
      at, starts := [], [];
    } else {
      hide FrameCount, SkipCount, PacketLaid, PacketFrames, ChainReadable, LengthsReadable;
      ChainTail(data, from);
      PacketIsLaid(data, from);
      at, starts := LayoutOf(data, from + Stride(data, from));
      at, starts := [from] + at, [PacketFrames(data, from)] + starts;
    }
  }

  lemma PacketIsLaid(data: seq<byte>, p: nat)
    requires Complete(data, p) && LengthsReadable(data, p)
    ensures PacketLaid(data, p, PacketFrames(data, p))
  {
    hide FrameCount, Bits, FrameLength, FirstFrameOffset, FrameStart;
    FirstStart(data, p);
    forall i | 0 <= i < FrameCount(data, p) - 1
      ensures FollowsFrame(data, p, FrameStart(data, p, i), FrameStart(data, p, i + 1))
    {
      assert Readable(data, FrameStart(data, p, i));
      assert (FrameStart(data, p, i) + 14) / 8 == p + (FrameStart(data, p, i) - 8 * p + 14) / 8;
      NextStart(data, p, i + 1, FrameStart(data, p, i));
    }
  }

  // ---------------------------------------------------------------------------------------
  // The last frame.
  // ---------------------------------------------------------------------------------------

  /** Where GetLastXmaFrameBitPosition looks: the chain's last packet, or, if no frame begins there, that packet's own skip
      count and one packets before it. */
  function PlaceOfLast(data: seq<byte>, at: seq<nat>): int
    requires at != [] && at[|at| - 1] + 2048 <= |data|
  {
    var last := at[|at| - 1];
    if FrameCount(data, last) > 0 then last else last - 2048 * (SkipCount(data, last) + 1)
  }

  lemma {:induction false} LaidLast(data: seq<byte>, from: nat, at: seq<nat>, starts: seq<seq<nat>>)
    requires ChainLaid(data, from, at, starts) && at != []
    ensures Complete(data, from) && at[|at| - 1] == LastPacket(data, from)
    decreases |at|
  {
    hide PacketFrames, FrameCount, SkipCount;
    if |at| > 1 {
      LaidLast(data, from + 2048 * (SkipCount(data, from) + 1), at[1..], starts[1..]);
      assert at[1..][|at| - 2] == at[|at| - 1];
    } else {
      assert at[1..] == [];
    }
  }

  /** It returns the start of the last frame laid there. */
  lemma LastFindsLaid(data: seq<byte>, stream: nat, at: seq<nat>, starts: seq<seq<nat>>, place: nat, own: seq<nat>)
    requires ChainLaid(data, stream * 2048, at, starts) && at != []
    requires at[|at| - 1] + 2048 <= |data| && place == PlaceOfLast(data, at)
    requires PacketLaid(data, place, own) && own != []
    ensures StaysInData(data, stream * PACKET_BYTES)
    ensures LastPosition(data, stream) == own[|own| - 1] % 0x1_0000_0000
  {
    hide PacketLaid, ChainLaid, FrameCount, SkipCount, StaysInData, LastPosition, LastPacket, FrameStart, LengthsReadable;
    LaidLast(data, stream * 2048, at, starts);
    FrameNumber(data, place, own);
    LaidReadable(data, place, own);
    LaidStart(data, place, own, |own| - 1);
    SettledPosition(data, stream);
  }

  lemma LaidReadable(data: seq<byte>, p: nat, starts: seq<nat>)
    requires PacketLaid(data, p, starts)
    ensures Complete(data, p) && LengthsReadable(data, p)
  {
    hide FrameCount, FirstFrameOffset, FrameLength, FrameStart;
    forall i | 0 <= i < FrameCount(data, p) - 1 ensures Readable(data, FrameStart(data, p, i)) {
      LaidStart(data, p, starts, i);
      assert FollowsFrame(data, p, starts[i], starts[i + 1]);
      assert (starts[i] + 14) / 8 == p + (starts[i] - 8 * p + 14) / 8;
    }
  }
}
