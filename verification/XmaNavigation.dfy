/** Finding a frame of an XMA2 stream: the two searches over the packet chain, and seeking to a sample. */
module XmaNavigation {
  import opened CInt
  import opened BigEndianBits
  import opened XmaPackets

  /** Where the stream's first packet is looked for; the product is a DWORD. */
  function FirstPacket(stream: nat): nat { ToUWord32(stream * PACKET_BYTES) }

  /** What GetXmaFrameBitPosition returns: the frame's first bit as a DWORD, or 0 for a frame that is not there. */
  function FramePosition(data: seq<byte>, stream: nat, frame: nat): nat {
    var frames := Frames(data, FirstPacket(stream));
    if frame < |frames| then ToUWord32(frames[frame]) else 0
  }

  lemma UWord32Exact(v: int)
    requires 0 <= v < TWO_32
    ensures ToUWord32(v) == v
  {
  }

  /** GetXmaFrameBitPosition. The packet pointer moves on by a packet at least, so the walk ends. */
  method GetXmaFrameBitPosition(data: seq<byte>, stream: nat, desired: nat) returns (r: nat)
    requires |data| < TWO_32 && stream < TWO_32 && desired < TWO_32
    requires Reachable(data, FirstPacket(stream), desired)
    ensures r == FramePosition(data, stream, desired)
  {
    hide ToUWord32, Bits, FrameCount, SkipCount, ReadableUpTo, PacketFrames, FrameStart;
    var packet: nat, framesSoFar: nat := ToUWord32(stream * PACKET_BYTES), 0;
    ghost var frames := Frames(data, packet);
    while packet + PACKET_BYTES <= |data|
      invariant framesSoFar <= desired && Reachable(data, packet, desired - framesSoFar)
      invariant PACKET_BYTES * framesSoFar <= 63 * packet
      invariant FramesLeft(data, frames, framesSoFar, packet)
      decreases |data| - packet
    {
      UWord32Exact(framesSoFar + FrameCount(data, packet));
      FramesOnwards(data, frames, framesSoFar, packet);
      if ToUWord32(framesSoFar + FrameCount(data, packet)) > desired {
        var toSkip := desired - framesSoFar;
        var bitOffset := SkipFrames(data, packet, toSkip);
        assert frames[framesSoFar + toSkip] == FrameStart(data, packet, toSkip);
        UWord32Exact(packet);
        return ToUWord32(ToUWord32(packet) * 8 + bitOffset);
      }
      framesSoFar := ToUWord32(framesSoFar + FrameCount(data, packet));
      packet := packet + PACKET_BYTES * (SkipCount(data, packet) + 1);
    }
    assert Frames(data, packet) == [] && |frames[framesSoFar..]| == 0;
    return 0;
  }

  /** The first `n` of the stream's frames lie before `packet`, the others from there on. */
  predicate FramesLeft(data: seq<byte>, frames: seq<nat>, n: nat, packet: nat) {
    n <= |frames| && frames[n..] == Frames(data, packet)
  }

  lemma FramesOnwards(data: seq<byte>, frames: seq<nat>, n: nat, packet: nat)
    requires Complete(data, packet) && FramesLeft(data, frames, n, packet)
    ensures FramesLeft(data, frames, n + FrameCount(data, packet), packet + Stride(data, packet))
    ensures forall i :: 0 <= i < FrameCount(data, packet) ==> frames[n + i] == FrameStart(data, packet, i)
  {
    hide FrameCount, FrameStart, Stride;
    var own, rest := PacketFrames(data, packet), Frames(data, packet + Stride(data, packet));
    assert frames[n..] == own + rest;
    assert frames[n + |own|..] == frames[n..][|own|..];
    forall i | 0 <= i < |own| ensures frames[n + i] == own[i] { assert frames[n + i] == frames[n..][i]; }
  }

  /** The bit offset in the packet, a DWORD, after stepping over `n` frames from the packet's first. */
  function Walk(data: seq<byte>, packet: nat, n: nat): nat
    requires Complete(data, packet)
  {
    if n == 0 then ToUWord32(HEADER_BITS + FirstFrameOffset(data, packet))
    else
      var bit := Walk(data, packet, n - 1);
      if LengthAt(data, packet, bit) then ToUWord32(bit + FrameLength(data, packet, bit)) else bit
  }

  /** The length at that bit offset lies in the data. */
  predicate LengthAt(data: seq<byte>, packet: nat, bit: nat) { packet + (bit + LENGTH_BITS - 1) / 8 < |data| }

  /** Over the packet's own frames that leads to their starts: the offset stays far from the end of a DWORD. */
  lemma {:induction false} WalkIsFrameStart(data: seq<byte>, packet: nat, n: nat)
    requires Complete(data, packet) && n < 64 && ReadableUpTo(data, packet, n)
    ensures 8 * packet + Walk(data, packet, n) == FrameStart(data, packet, n)
    ensures forall i {:trigger Walk(data, packet, i)} :: 0 <= i < n ==> LengthAt(data, packet, Walk(data, packet, i))
  {
    hide ToUWord32, Bits, Pow2, FirstFrameOffset, FrameLength, FrameCount;
    if n == 0 {
      FrameStartBound(data, packet, 0);
      UWord32Exact(HEADER_BITS + FirstFrameOffset(data, packet));
    } else {
      WalkIsFrameStart(data, packet, n - 1);
      NextFrame(data, packet, n - 1, Walk(data, packet, n - 1));
    }
  }

  /** The inner loop of GetXmaFrameBitPosition: from the packet's first frame over `toSkip` frames. The result is relative
      to the packet. */
  method SkipFrames(data: seq<byte>, packet: nat, toSkip: nat) returns (bitOffset: nat)
    requires Complete(data, packet) && toSkip < FrameCount(data, packet) && ReadableUpTo(data, packet, toSkip)
    ensures 8 * packet + bitOffset == FrameStart(data, packet, toSkip)
  {
    hide ToUWord32, Bits, Pow2, FirstFrameOffset, FrameLength, FrameCount, ReadableUpTo;
    WalkIsFrameStart(data, packet, toSkip);
    bitOffset := ToUWord32(HEADER_BITS + FirstFrameOffset(data, packet));
    var left := toSkip;
    while left > 0
      invariant 0 <= left <= toSkip && bitOffset == Walk(data, packet, toSkip - left)
    {
      bitOffset := ToUWord32(bitOffset + FrameLength(data, packet, bitOffset));
      left := left - 1;
    }
  }

  lemma NextFrame(data: seq<byte>, packet: nat, i: nat, bitOffset: nat)
    requires Complete(data, packet) && i < 64 && Readable(data, FrameStart(data, packet, i))
    requires 8 * packet + bitOffset == FrameStart(data, packet, i)
    ensures packet + (bitOffset + LENGTH_BITS - 1) / 8 < |data|
    ensures 8 * packet + ToUWord32(bitOffset + FrameLength(data, packet, bitOffset)) == FrameStart(data, packet, i + 1)
  {
    hide ToUWord32, Bits, FrameLength;
    assert (8 * packet + bitOffset + LENGTH_BITS - 1) / 8 == packet + (bitOffset + LENGTH_BITS - 1) / 8;
    FrameStartBound(data, packet, i + 1);
    UWord32Exact(bitOffset + FrameLength(data, packet, bitOffset));
  }

  // ---------------------------------------------------------------------------------------
  // When the DWORDs do not wrap.
  // ---------------------------------------------------------------------------------------

  lemma {:induction false} FramesBounds(data: seq<byte>, p: nat, i: nat)
    requires ChainInside(data, p) && i < |Frames(data, p)|
    ensures HEADER_BITS <= Frames(data, p)[i] < 8 * |data|
    decreases |data| - p
  {
    var own := PacketFrames(data, p);
    ChainInsideTail(data, p);
    if i >= |own| {
      FramesBounds(data, p + Stride(data, p), i - |own|);
    }
  }

  /** In data of up to 512 MiB whose frames begin inside their packets, the search returns the exact position of a frame
      that exists, and 0 exactly for one that does not. */
  lemma PositionExact(data: seq<byte>, stream: nat, frame: nat)
    requires |data| <= 0x2000_0000 && ChainInside(data, FirstPacket(stream))
    ensures var frames := Frames(data, FirstPacket(stream));
            && (frame < |frames| ==> FramePosition(data, stream, frame) == frames[frame] > 0)
            && (FramePosition(data, stream, frame) == 0 <==> frame >= |frames|)
  {
    hide Frames, ToUWord32, ChainInside;
    if frame < |Frames(data, FirstPacket(stream))| {
      FramesBounds(data, FirstPacket(stream), frame);
      UWord32Exact(Frames(data, FirstPacket(stream))[frame]);
    }
  }
}
