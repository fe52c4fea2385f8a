/** GetLastXmaFrameBitPosition against GetXmaFrameBitPosition: two searches that should agree on the last frame. */
module XmaLastFrame {
  import opened CInt
  import opened Options
  import opened BigEndianBits
  import opened XmaPackets
  import opened XmaNavigation

  /** The last packet of the chain from `p` on. */
  function LastPacket(data: seq<byte>, p: nat): (r: nat)
    requires Complete(data, p)
    ensures Complete(data, r) && r >= p && !Complete(data, r + Stride(data, r))
    decreases |data| - p
  {
    var next := p + Stride(data, p);
    if Complete(data, next) then LastPacket(data, next) else p
  }

  /** Where the search settles: on the last packet, or, if no frame begins there, one stride before it. The stride is the
      last packet's own, although the way back is that of the packet before. */
  function SettlesAt(data: seq<byte>, p: nat): (r: int)
    requires Complete(data, p)
    ensures r >= 0 ==> Complete(data, r)
  {
    var last := LastPacket(data, p);
    if FrameCount(data, last) == 0 then last - Stride(data, last) else last
  }

  /** How many frames are stepped over: one less than the packet has, as a DWORD, so that a packet without frames is
      walked over 2^32 - 1 times. */
  function ToSkip(data: seq<byte>, at: nat): (n: nat)
    requires Complete(data, at)
    ensures n < TWO_32
  {
    ToUWord32(FrameCount(data, at) - 1)
  }

  /** The search reads nothing outside the data: it does not step back before it, and every length it reads is there. */
  predicate StaysInData(data: seq<byte>, p: nat) {
    && Complete(data, p) && SettlesAt(data, p) >= 0
    && var at := SettlesAt(data, p);
       forall i {:trigger Walk(data, at, i)} :: 0 <= i < ToSkip(data, at) ==> LengthAt(data, at, Walk(data, at, i))
  }

  function LastPosition(data: seq<byte>, stream: nat): nat
    requires StaysInData(data, stream * PACKET_BYTES)
  {
    var at := SettlesAt(data, stream * PACKET_BYTES);
    ToUWord32(8 * at + Walk(data, at, ToSkip(data, at)))
  }

  /** GetLastXmaFrameBitPosition. */
  method GetLastXmaFrameBitPosition(data: seq<byte>, stream: nat) returns (r: nat)
    requires |data| < TWO_32 && |data| >= PACKET_BYTES * (stream + 1) && StaysInData(data, stream * PACKET_BYTES)
    ensures r == LastPosition(data, stream)
  {
    hide ToUWord32, Bits, FrameCount, SkipCount, FirstFrameOffset, FrameLength;
    UWord32Exact(stream * PACKET_BYTES);
    var packet: int := ToUWord32(stream * PACKET_BYTES);
    var toNext := PACKET_BYTES * (SkipCount(data, packet) + 1);
    while packet + toNext + PACKET_BYTES <= |data|
      invariant 0 <= packet && Complete(data, packet) && toNext == Stride(data, packet)
      invariant LastPacket(data, packet) == LastPacket(data, stream * PACKET_BYTES)
      decreases |data| - packet
    {
      packet := packet + toNext;
      toNext := PACKET_BYTES * (SkipCount(data, packet) + 1);
    }
    if FrameCount(data, packet) == 0 {
      packet := packet - toNext;
    }
    var bitOffset := StepOver(data, packet);
    LastDWord(packet, bitOffset);
    r := ToUWord32(ToUWord32(packet) * 8 + bitOffset);
  }

  /** `while(--nFramesInLastPacket)` */
  method StepOver(data: seq<byte>, packet: nat) returns (bitOffset: nat)
    requires Complete(data, packet)
    requires forall i {:trigger Walk(data, packet, i)} :: 0 <= i < ToSkip(data, packet) ==>
               LengthAt(data, packet, Walk(data, packet, i))
    ensures bitOffset == Walk(data, packet, ToSkip(data, packet))
  {
    hide ToUWord32, Bits, FrameCount, FirstFrameOffset, FrameLength;
    bitOffset := ToUWord32(HEADER_BITS + FirstFrameOffset(data, packet));
    ghost var toSkip := ToSkip(data, packet);
    var framesLeft := ToUWord32(FrameCount(data, packet) - 1);
    while framesLeft != 0
      invariant 0 <= framesLeft <= toSkip && bitOffset == Walk(data, packet, toSkip - framesLeft)
    {
      assert LengthAt(data, packet, Walk(data, packet, toSkip - framesLeft));
      bitOffset := ToUWord32(bitOffset + FrameLength(data, packet, bitOffset));
      UWord32Exact(framesLeft - 1);
      framesLeft := ToUWord32(framesLeft - 1);
    }
  }

  lemma LastDWord(packet: nat, bitOffset: nat)
    requires packet < TWO_32
    ensures ToUWord32(ToUWord32(packet) * 8 + bitOffset) == ToUWord32(8 * packet + bitOffset)
  {
  }

  /** The search works as it is meant to: it settles on a packet in the data that has frames, whose lengths can be
      read. */
  predicate Settles(data: seq<byte>, p: nat) {
    Complete(data, p) && SettlesAt(data, p) >= 0
      && FrameCount(data, SettlesAt(data, p)) > 0 && LengthsReadable(data, SettlesAt(data, p))
  }

  /** Then it returns the start of that packet's last frame. */
  lemma SettledPosition(data: seq<byte>, stream: nat)
    requires Settles(data, stream * PACKET_BYTES)
    ensures StaysInData(data, stream * PACKET_BYTES)
    ensures var at := SettlesAt(data, stream * PACKET_BYTES);
            LastPosition(data, stream) == ToUWord32(FrameStart(data, at, FrameCount(data, at) - 1))
  {
    hide FrameCount, FrameStart, Walk, ToUWord32, SettlesAt;
    var at := SettlesAt(data, stream * PACKET_BYTES);
    UWord32Exact(FrameCount(data, at) - 1);
    WalkIsFrameStart(data, at, FrameCount(data, at) - 1);
  }

  // ---------------------------------------------------------------------------------------
  // The packet with the stream's last frame.
  // ---------------------------------------------------------------------------------------

  /** The last packet of the chain in which a frame begins. */
  function LastWithFrames(data: seq<byte>, p: nat): (r: Option<nat>)
    ensures r.Some? ==> Complete(data, r.value) && FrameCount(data, r.value) > 0 && r.value >= p
    decreases |data| - p
  {
    if !Complete(data, p) then None
    else
      match LastWithFrames(data, p + Stride(data, p))
      case Some(q) => Some(q)
      case None => if FrameCount(data, p) > 0 then Some(p) else None
  }

  lemma {:induction false} LastFrameIn(data: seq<byte>, p: nat)
    ensures var frames := Frames(data, p);
            match LastWithFrames(data, p)
            case None => frames == []
            case Some(q) => |frames| > 0 && frames[|frames| - 1] == FrameStart(data, q, FrameCount(data, q) - 1)
    decreases |data| - p
  {
    hide FrameCount, Stride, FrameStart;
    if Complete(data, p) {
      LastFrameIn(data, p + Stride(data, p));
      assert |PacketFrames(data, p)| == FrameCount(data, p);
    }
  }

  /** If frames begin in the last packet, that is the packet. */
  lemma {:induction false} LastPacketHasFrames(data: seq<byte>, p: nat)
    requires Complete(data, p) && FrameCount(data, LastPacket(data, p)) > 0
    ensures LastWithFrames(data, p) == Some(LastPacket(data, p))
    decreases |data| - p
  {
    hide FrameCount, Stride;
    var next := p + Stride(data, p);
    if Complete(data, next) {
      LastPacketHasFrames(data, next);
    } else {
      assert LastWithFrames(data, next) == None;
    }
  }

  lemma {:induction false} ChainAligned(data: seq<byte>, p: nat)
    requires p % PACKET_BYTES == 0
    ensures LastWithFrames(data, p).Some? ==> LastWithFrames(data, p).value % PACKET_BYTES == 0
    ensures Complete(data, p) ==> LastPacket(data, p) % PACKET_BYTES == 0
    decreases |data| - p
  {
    hide FrameCount, Stride;
    if Complete(data, p) {
      ChainAligned(data, p + Stride(data, p));
    }
  }

  lemma {:induction false} ChainInsideAt(data: seq<byte>, p: nat)
    requires ChainInside(data, p)
    ensures LastWithFrames(data, p).Some? ==> FramesInside(data, LastWithFrames(data, p).value)
    decreases |data| - p
  {
    hide FrameCount, Stride, FramesInside;
    if Complete(data, p) {
      ChainInsideTail(data, p);
      ChainInsideAt(data, p + Stride(data, p));
    }
  }

  /** Frames of different packets begin in different places. */
  lemma DifferentPackets(data: seq<byte>, p: nat, i: nat, q: nat, j: nat)
    requires Complete(data, p) && FramesInside(data, p) && i < FrameCount(data, p)
    requires Complete(data, q) && FramesInside(data, q) && j < FrameCount(data, q)
    requires p % PACKET_BYTES == 0 && q % PACKET_BYTES == 0 && p != q
    ensures FrameStart(data, p, i) != FrameStart(data, q, j)
  {
    assert p / PACKET_BYTES != q / PACKET_BYTES;
    assert 8 * p <= FrameStart(data, p, i) < 8 * (p + PACKET_BYTES);
    assert 8 * q <= FrameStart(data, q, j) < 8 * (q + PACKET_BYTES);
  }

  predicate IsLastWithFrames(data: seq<byte>, p: nat, at: int) {
    LastWithFrames(data, p).Some? && LastWithFrames(data, p).value == at
  }

  /** The last packet of the chain has frames, or the last packet that has any lies one stride of the last packet before
      it. */
  predicate WayBackIsRight(data: seq<byte>, p: nat)
    requires Complete(data, p)
  {
    var last := LastPacket(data, p);
    FrameCount(data, last) > 0 || IsLastWithFrames(data, p, last - Stride(data, last))
  }

  /** The search works and agrees with the other one on the stream's last frame exactly when the packet it settles on is
      the last of the chain in which a frame begins, which the headers show. The chain is as the format has it, and so
      is the packet settled on, if it lies in the data. */
  lemma LastFrameAgreement(data: seq<byte>, stream: nat)
    requires |data| <= 0x2000_0000 && ChainReadable(data, stream * PACKET_BYTES) && ChainInside(data, stream * PACKET_BYTES)
    requires |Frames(data, stream * PACKET_BYTES)| > 0
    requires var at := SettlesAt(data, stream * PACKET_BYTES); at >= 0 ==> FramesInside(data, at)
    ensures Settles(data, stream * PACKET_BYTES) ==> StaysInData(data, stream * PACKET_BYTES)
    ensures var p, frames := stream * PACKET_BYTES, Frames(data, stream * PACKET_BYTES);
            (Settles(data, p) && LastPosition(data, stream) == FramePosition(data, stream, |frames| - 1)) <==>
            WayBackIsRight(data, p)
  {
    FinalFramePosition(data, stream);
    hide FrameCount, Frames, ChainReadable, ChainInside, IsLastWithFrames, WayBackIsRight, StaysInData, FramePosition,
      LastPosition;
    LastWithFramesSettles(data, stream * PACKET_BYTES);
    SettlesAtLastWithFrames(data, stream * PACKET_BYTES);
    if Settles(data, stream * PACKET_BYTES) { SettledAgreement(data, stream); }
  }

  lemma LastWithFramesSettles(data: seq<byte>, p: nat)
    requires Complete(data, p) && ChainReadable(data, p)
    ensures IsLastWithFrames(data, p, SettlesAt(data, p)) ==> Settles(data, p)
  {
    hide FrameCount, Stride, LengthsReadable, ChainReadable, LastWithFrames, LastPacket, SettlesAt;
    ChainReadableAt(data, p);
  }

  lemma SettledAgreement(data: seq<byte>, stream: nat)
    requires |data| <= 0x2000_0000 && ChainInside(data, stream * PACKET_BYTES)
    requires |Frames(data, stream * PACKET_BYTES)| > 0 && Settles(data, stream * PACKET_BYTES)
    requires FramesInside(data, SettlesAt(data, stream * PACKET_BYTES))
    ensures StaysInData(data, stream * PACKET_BYTES)
    ensures var p := stream * PACKET_BYTES;
            LastPosition(data, stream) == FramePosition(data, stream, |Frames(data, p)| - 1) <==>
            IsLastWithFrames(data, p, SettlesAt(data, p))
  {
    FinalFramePosition(data, stream);
    hide FrameCount, Stride, FrameStart, FramesInside, ChainInside, ToUWord32, Frames, LengthsReadable;
    hide LastWithFrames, StaysInData, LastPosition, FramePosition, LastPacket, SettlesAt;
    var p := stream * PACKET_BYTES;
    ChainInsideAt(data, p);
    SettledPosition(data, stream);
    SamePositionSamePacket(data, stream, LastWithFrames(data, p).value, SettlesAt(data, p));
  }

  /** Where the other search finds the stream's last frame. */
  lemma FinalFramePosition(data: seq<byte>, stream: nat)
    requires |data| < TWO_32 && |Frames(data, stream * PACKET_BYTES)| > 0
    ensures var p, frames := stream * PACKET_BYTES, Frames(data, stream * PACKET_BYTES);
            && Complete(data, p) && LastWithFrames(data, p).Some?
            && var q := LastWithFrames(data, p).value;
               FramePosition(data, stream, |frames| - 1) == ToUWord32(FrameStart(data, q, FrameCount(data, q) - 1))
  {
    var p := stream * PACKET_BYTES;
    assert Complete(data, p);
    hide FrameCount, FrameStart, ToUWord32, Frames, LastWithFrames;
    UWord32Exact(p);
    LastFrameIn(data, p);
  }

  lemma SamePositionSamePacket(data: seq<byte>, stream: nat, q: nat, at: nat)
    requires |data| <= 0x2000_0000 && Complete(data, stream * PACKET_BYTES)
    requires LastWithFrames(data, stream * PACKET_BYTES) == Some(q) && at == SettlesAt(data, stream * PACKET_BYTES)
    requires FramesInside(data, q) && FramesInside(data, at) && FrameCount(data, at) > 0
    ensures var atQ, atAt := FrameStart(data, q, FrameCount(data, q) - 1), FrameStart(data, at, FrameCount(data, at) - 1);
            ToUWord32(atQ) == ToUWord32(atAt) <==> q == at
  {
    hide FrameCount, Stride, FrameStart, FramesInside, ToUWord32, LastWithFrames, SettlesAt, LastPacket;
    var p := stream * PACKET_BYTES;
    ChainAligned(data, p);
    SettlesAligned(data, p);
    StartBelowWrap(data, q, FrameCount(data, q) - 1);
    StartBelowWrap(data, at, FrameCount(data, at) - 1);
    if q != at {
      DifferentPackets(data, q, FrameCount(data, q) - 1, at, FrameCount(data, at) - 1);
    }
  }

  lemma SettlesAtLastWithFrames(data: seq<byte>, p: nat)
    requires Complete(data, p)
    ensures IsLastWithFrames(data, p, SettlesAt(data, p)) <==> WayBackIsRight(data, p)
  {
    hide FrameCount, Stride, LastPacket, LastWithFrames;
    var last := LastPacket(data, p);
    if FrameCount(data, last) > 0 {
      LastPacketHasFrames(data, p);
      assert SettlesAt(data, p) == last;
    } else {
      assert SettlesAt(data, p) == last - Stride(data, last);
    }
  }

  lemma {:induction false} ChainReadableAt(data: seq<byte>, p: nat)
    requires ChainReadable(data, p)
    ensures LastWithFrames(data, p).Some? ==> LengthsReadable(data, LastWithFrames(data, p).value)
    decreases |data| - p
  {
    hide FrameCount, Stride, LengthsReadable, ChainReadable;
    if Complete(data, p) {
      ChainTail(data, p);
      ChainReadableAt(data, p + Stride(data, p));
    }
  }

  lemma SettlesAligned(data: seq<byte>, p: nat)
    requires Complete(data, p) && p % PACKET_BYTES == 0
    ensures SettlesAt(data, p) % PACKET_BYTES == 0
  {
    hide FrameCount, LastPacket, Stride;
    ChainAligned(data, p);
    var last := LastPacket(data, p);
    DifferenceAligned(last, Stride(data, last));
  }

  lemma DifferenceAligned(a: nat, b: nat)
    requires a % PACKET_BYTES == 0 && b % PACKET_BYTES == 0
    ensures (a - b) % PACKET_BYTES == 0
  {
  }

  lemma StartBelowWrap(data: seq<byte>, p: nat, i: nat)
    requires |data| <= 0x2000_0000 && Complete(data, p) && FramesInside(data, p) && i < FrameCount(data, p)
    ensures ToUWord32(FrameStart(data, p, i)) == FrameStart(data, p, i)
  {
    hide ToUWord32;
    assert FrameStart(data, p, i) < 8 * (p + PACKET_BYTES) <= 8 * |data|;
    UWord32Exact(FrameStart(data, p, i));
  }

  /** In particular they agree when a frame begins in the last packet. */
  lemma AgreesWhenLastPacketHasFrames(data: seq<byte>, stream: nat)
    requires |data| < TWO_32 && Complete(data, stream * PACKET_BYTES)
    requires FrameCount(data, LastPacket(data, stream * PACKET_BYTES)) > 0
    requires LengthsReadable(data, LastPacket(data, stream * PACKET_BYTES))
    ensures Settles(data, stream * PACKET_BYTES) && StaysInData(data, stream * PACKET_BYTES)
    ensures |Frames(data, stream * PACKET_BYTES)| > 0
    ensures LastPosition(data, stream) == FramePosition(data, stream, |Frames(data, stream * PACKET_BYTES)| - 1)
  {
    hide FrameCount, Stride, FrameStart, ToUWord32, Frames, LengthsReadable, LastPacket, StaysInData, LastPosition;
    UWord32Exact(stream * PACKET_BYTES);
    SettledPosition(data, stream);
    LastPacketHasFrames(data, stream * PACKET_BYTES);
    LastFrameIn(data, stream * PACKET_BYTES);
  }

  /** The packet before the last one of a chain. */
  function BeforeLast(data: seq<byte>, p: nat): (r: nat)
    requires Complete(data, p) && LastPacket(data, p) != p
    ensures Complete(data, r) && r + Stride(data, r) == LastPacket(data, p)
    decreases |data| - p
  {
    var next := p + Stride(data, p);
    if LastPacket(data, next) == next then p else BeforeLast(data, next)
  }

  lemma {:induction false} OnlyLastEmpty(data: seq<byte>, p: nat)
    requires Complete(data, p) && LastPacket(data, p) != p
    requires FrameCount(data, LastPacket(data, p)) == 0 && FrameCount(data, BeforeLast(data, p)) > 0
    ensures LastWithFrames(data, p) == Some(BeforeLast(data, p))
    decreases |data| - p
  {
    hide FrameCount, Stride;
    var next := p + Stride(data, p);
    if LastPacket(data, next) == next {
      assert LastWithFrames(data, next + Stride(data, next)) == None;
      assert LastWithFrames(data, next) == None;
    } else {
      OnlyLastEmpty(data, next);
    }
  }

  /** And when no frame begins in the last packet but one in the packet before, and both have the same skip count. */
  lemma AgreesWithEqualSkips(data: seq<byte>, stream: nat)
    requires |data| < TWO_32 && Complete(data, stream * PACKET_BYTES)
    requires var p := stream * PACKET_BYTES;
             && LastPacket(data, p) != p && FrameCount(data, LastPacket(data, p)) == 0
             && FrameCount(data, BeforeLast(data, p)) > 0 && LengthsReadable(data, BeforeLast(data, p))
             && SkipCount(data, BeforeLast(data, p)) == SkipCount(data, LastPacket(data, p))
    ensures Settles(data, stream * PACKET_BYTES) && StaysInData(data, stream * PACKET_BYTES)
    ensures |Frames(data, stream * PACKET_BYTES)| > 0
    ensures LastPosition(data, stream) == FramePosition(data, stream, |Frames(data, stream * PACKET_BYTES)| - 1)
  {
    hide FrameCount, SkipCount, FrameStart, ToUWord32, Frames, LengthsReadable, LastPacket, BeforeLast, StaysInData,
      LastPosition;
    UWord32Exact(stream * PACKET_BYTES);
    SettledPosition(data, stream);
    OnlyLastEmpty(data, stream * PACKET_BYTES);
    LastFrameIn(data, stream * PACKET_BYTES);
  }

  /** Three packets: the first holds the only frame of stream 0 and skips one packet; the second holds a frame of another
      stream; the third ends stream 0 without a frame and skips none. */
  function ThreePackets(): (data: seq<byte>)
    ensures |data| == 3 * PACKET_BYTES
    ensures forall x {:trigger data[x]} :: 0 <= x < |data| ==>
      data[x] == if x == 0 || x == PACKET_BYTES then 4 else if x == 3 then 1 else 0
  {
    seq(3 * PACKET_BYTES, x => if x == 0 || x == PACKET_BYTES then 4 else if x == 3 then 1 else 0)
  }

  lemma ThreePacketsFields()
    ensures var data, second, third := ThreePackets(), PACKET_BYTES, 2 * PACKET_BYTES;
            && FrameCount(data, 0) == 1 && FrameCount(data, second) == 1 && FrameCount(data, third) == 0
            && SkipCount(data, 0) == 1 && SkipCount(data, third) == 0
            && FirstFrameOffset(data, 0) == 0 && FirstFrameOffset(data, second) == 0
            && FrameStart(data, 0, 0) == 32 && FrameStart(data, second, 0) == 8 * second + 32
            && LastPacket(data, 0) == third && SettlesAt(data, 0) == second
  {
    hide Bits, Pow2, ThreePackets;
    var data, second, third := ThreePackets(), PACKET_BYTES, 2 * PACKET_BYTES;
    assert FrameCount(data, 0) == 1 && FrameCount(data, second) == 1 && FrameCount(data, third) == 0;
    assert SkipCount(data, 0) == 1 && SkipCount(data, third) == 0;
    assert FirstFrameOffset(data, 0) == 0 && FirstFrameOffset(data, second) == 0;
    assert LastPacket(data, third) == third && LastPacket(data, 0) == third;
  }

  /** With unequal skip counts the search lands in the other stream: the last frame of stream 0 begins at bit 32, but
      the search reports the frame of the second packet, at bit 16416. */
  lemma UnequalSkipsDisagree()
    ensures var data := ThreePackets();
            Settles(data, 0) && StaysInData(data, 0) && |Frames(data, 0)| == 1
            && FramePosition(data, 0, 0) == 32 && LastPosition(data, 0) == 16416
  {
    hide Bits, Pow2, ToUWord32, ThreePackets, FrameCount, SkipCount, FirstFrameOffset, FrameStart, SettlesAt;
    var data, third := ThreePackets(), 2 * PACKET_BYTES;
    UWord32Exact(0);
    UWord32Exact(32);
    UWord32Exact(16416);
    ThreePacketsFields();
    SettledPosition(data, 0);
    assert Frames(data, third + PACKET_BYTES) == [] && Frames(data, third) == [];
    assert Frames(data, 0) == PacketFrames(data, 0);
  }

  /** There is nothing wrong with those packets: all frames begin inside them, so that LastFrameAgreement speaks of
      them. */
  lemma ThreePacketsAreWellFormed()
    ensures ChainInside(ThreePackets(), 0) && FramesInside(ThreePackets(), SettlesAt(ThreePackets(), 0))
  {
    hide Bits, Pow2, ThreePackets, FrameCount, SkipCount, FirstFrameOffset, FrameStart, SettlesAt;
    var data, third := ThreePackets(), 2 * PACKET_BYTES;
    ThreePacketsFields();
    assert Chain(data, third + PACKET_BYTES) == [] && Chain(data, third) == [third] && Chain(data, 0) == [0, third];
  }
}
