/** The byte queues between the emulator and a Cubeb stream. One thread appends whole chunks, the other takes bytes from
    the front and pads with silence what is missing. The output queue is fed blocks and drained by the device; the
    input queue is filled by the device and drained in blocks. */
module CubebFifo {
  import opened CInt

  const BLOCK_COUNT: nat := 24

  /** `taken` and `accepted` are history: the bytes handed out so far, silence apart, and the bytes let in. */
  datatype State = State(buffer: seq<byte>, accepted: seq<byte>, taken: seq<byte>)

  function Silence(n: nat): (r: seq<byte>)
    ensures |r| == n && forall i :: 0 <= i < n ==> r[i] == 0
  {
    seq(n, _ => 0)
  }

  function Min(a: nat, b: nat): nat { if a < b then a else b }

  function Write(s: State, capacity: nat, data: seq<byte>): State {
    if capacity <= |s.buffer| + |data| then s else State(s.buffer + data, s.accepted + data, s.taken)
  }

  function Read(s: State, size: nat): State {
    var copied := Min(|s.buffer|, size);
    State(s.buffer[copied..], s.accepted, s.taken + s.buffer[..copied])
  }

  /** What a reader of `size` bytes gets. */
  function Output(buffer: seq<byte>, size: nat): (r: seq<byte>)
    ensures |r| == size
  {
    var copied := Min(|buffer|, size);
    buffer[..copied] + Silence(size - copied)
  }

  datatype Step = Put(data: seq<byte>) | Take(size: nat)

  function Next(s: State, capacity: nat, step: Step): State {
    match step
    case Put(data) => Write(s, capacity, data)
    case Take(size) => Read(s, size)
  }

  function Run(s: State, capacity: nat, steps: seq<Step>): State {
    if steps == [] then s else Next(Run(s, capacity, steps[..|steps| - 1]), capacity, steps[|steps| - 1])
  }

  const Empty: State := State([], [], [])

  /** What the readers of a run got, one after the other. */
  function Outputs(s: State, capacity: nat, steps: seq<Step>): seq<byte> {
    if steps == [] then []
    else
      var front, last := steps[..|steps| - 1], steps[|steps| - 1];
      Outputs(s, capacity, front) +
      (if last.Take? then Output(Run(s, capacity, front).buffer, last.size) else [])
  }

  // ---------------------------------------------------------------------------------------
  // Every run.
  // ---------------------------------------------------------------------------------------

  predicate Conserved(s: State, capacity: nat) {
    && s.accepted == s.taken + s.buffer
    && (s.buffer != [] ==> |s.buffer| < capacity)
  }

  lemma NextConserves(s: State, capacity: nat, step: Step)
    requires Conserved(s, capacity)
    ensures Conserved(Next(s, capacity, step), capacity)
  {
    match step
    case Put(data) => assert s.accepted + data == s.taken + (s.buffer + data);
    case Take(size) =>
      var copied := Min(|s.buffer|, size);
      assert s.buffer == s.buffer[..copied] + s.buffer[copied..];
  }

  /** Whatever is interleaved with what: no accepted byte is lost, repeated or reordered, and the queue never grows
      into more memory than it has. */
  lemma {:induction false} RunsConserve(capacity: nat, steps: seq<Step>)
    ensures Conserved(Run(Empty, capacity, steps), capacity)
  {
    if steps != [] {
      RunsConserve(capacity, steps[..|steps| - 1]);
      NextConserves(Run(Empty, capacity, steps[..|steps| - 1]), capacity, steps[|steps| - 1]);
    }
  }

  /** The chunks of a run that found room for themselves in the queue, one after the other. */
  function Admitted(capacity: nat, steps: seq<Step>): seq<byte> {
    if steps == [] then []
    else
      var front, last := steps[..|steps| - 1], steps[|steps| - 1];
      Admitted(capacity, front) +
      if last.Put? && |Run(Empty, capacity, front).buffer| + |last.data| < capacity then last.data else []
  }

  /** Those are let in, whole, and no others. */
  lemma {:induction false} AcceptedIsAdmitted(capacity: nat, steps: seq<Step>)
    ensures Run(Empty, capacity, steps).accepted == Admitted(capacity, steps)
  {
    if steps != [] {
      AcceptedIsAdmitted(capacity, steps[..|steps| - 1]);
    }
  }

  /** `part` comes out of `whole` when the bytes that `silent` marks are left out. */
  predicate WithoutSilence(whole: seq<byte>, silent: seq<bool>, part: seq<byte>)
    requires |whole| == |silent|
  {
    if whole == [] then part == []
    else
      var n := |whole| - 1;
      if silent[n] then whole[n] == 0 && WithoutSilence(whole[..n], silent[..n], part)
      else part != [] && part[|part| - 1] == whole[n] && WithoutSilence(whole[..n], silent[..n], part[..|part| - 1])
  }

  lemma {:induction false} AppendHeard(whole: seq<byte>, silent: seq<bool>, part: seq<byte>, heard: seq<byte>)
    requires |whole| == |silent| && WithoutSilence(whole, silent, part)
    ensures WithoutSilence(whole + heard, silent + seq(|heard|, _ => false), part + heard)
  {
    if heard == [] {
      assert whole + heard == whole && silent + seq(|heard|, _ => false) == silent && part + heard == part;
    } else {
      var n := |heard| - 1;
      AppendHeard(whole, silent, part, heard[..n]);
      assert (whole + heard)[..|whole| + n] == whole + heard[..n];
      assert (silent + seq(|heard|, _ => false))[..|silent| + n] == silent + seq(n, _ => false);
      assert (part + heard)[..|part| + n] == part + heard[..n];
    }
  }

  lemma {:induction false} AppendSilence(whole: seq<byte>, silent: seq<bool>, part: seq<byte>, n: nat)
    requires |whole| == |silent| && WithoutSilence(whole, silent, part)
    ensures WithoutSilence(whole + Silence(n), silent + seq(n, _ => true), part)
  {
    if n == 0 {
      assert whole + Silence(n) == whole && silent + seq(n, _ => true) == silent;
    } else {
      AppendSilence(whole, silent, part, n - 1);
      assert (whole + Silence(n))[..|whole| + n - 1] == whole + Silence(n - 1);
      assert (silent + seq(n, _ => true))[..|silent| + n - 1] == silent + seq(n - 1, _ => true);
    }
  }

  lemma HearMore(whole: seq<byte>, silent: seq<bool>, s: State, size: nat) returns (more: seq<bool>)
    requires |whole| == |silent| && WithoutSilence(whole, silent, s.taken)
    ensures |more| == |whole| + size && WithoutSilence(whole + Output(s.buffer, size), more, Read(s, size).taken)
  {
    hide WithoutSilence;
    var copied := Min(|s.buffer|, size);
    var heard, padding := s.buffer[..copied], size - copied;
    AppendHeard(whole, silent, s.taken, heard);
    AppendSilence(whole + heard, silent + seq(copied, _ => false), s.taken + heard, padding);
    more := silent + seq(copied, _ => false) + seq(padding, _ => true);
    assert whole + Output(s.buffer, size) == whole + heard + Silence(padding);
  }

  /** What the readers of a run heard in all is, silence inserted apart, the beginning of the chunks that found room; the
      rest of those is what is still queued. */
  lemma {:induction false} StreamIsAccepted(capacity: nat, steps: seq<Step>) returns (silent: seq<bool>)
    ensures var whole, s := Outputs(Empty, capacity, steps), Run(Empty, capacity, steps);
            && |silent| == |whole| && WithoutSilence(whole, silent, s.taken)
            && Admitted(capacity, steps) == s.taken + s.buffer
  {
    RunsConserve(capacity, steps);
    AcceptedIsAdmitted(capacity, steps);
    assert var s := Run(Empty, capacity, steps); s.accepted == s.taken + s.buffer;
    if steps == [] {
      silent := [];
    } else {
      hide WithoutSilence, Output;
      var front, last := steps[..|steps| - 1], steps[|steps| - 1];
      silent := StreamIsAccepted(capacity, front);
      if last.Take? {
        silent := HearMore(Outputs(Empty, capacity, front), silent, Run(Empty, capacity, front), last.size);
      } else {
        assert Outputs(Empty, capacity, steps) == Outputs(Empty, capacity, front);
      }
    }
  }

  /** Silence is heard only once the queue has run dry. */
  lemma SilenceOnlyWhenDry(s: State, size: nat, i: nat)
    requires i < size
    ensures i < |s.buffer| ==> Output(s.buffer, size)[i] == s.buffer[i]
    ensures i >= |s.buffer| ==> Output(s.buffer, size)[i] == 0 && Read(s, size).buffer == []
  {
  }

  /** How the device divides its requests makes no difference. */
  lemma ReadsAddUp(s: State, a: nat, b: nat)
    ensures Read(Read(s, a), b) == Read(s, a + b)
    ensures Output(s.buffer, a) + Output(Read(s, a).buffer, b) == Output(s.buffer, a + b)
  {
    hide Silence;
    if |s.buffer| <= a { DryRead(s, a, b); } else { SplitRead(s.buffer, s.taken, a, b); }
  }

  lemma DryRead(s: State, a: nat, b: nat)
    requires |s.buffer| <= a
    ensures Read(Read(s, a), b) == Read(s, a + b) == State([], s.accepted, s.taken + s.buffer)
    ensures Output(s.buffer, a) + Output(Read(s, a).buffer, b) == Output(s.buffer, a + b)
  {
    var q, r := s.buffer, Read(s, a);
    assert r == State([], s.accepted, s.taken + q);
    assert r.taken + [] == r.taken;
    assert Silence(a - |q|) + Silence(b) == Silence(a + b - |q|);
  }

  lemma SplitRead(q: seq<byte>, taken: seq<byte>, a: nat, b: nat)
    requires a < |q|
    ensures var c := Min(|q| - a, b);
            && Min(|q[a..]|, b) == c && Min(|q|, a + b) == a + c && q[a..][c..] == q[a + c..]
            && q[..a] + q[a..][..c] == q[..a + c]
            && taken + q[..a] + q[a..][..c] == taken + q[..a + c]
            && Output(q, a) == q[..a] && Output(q, a) + Output(q[a..], b) == Output(q, a + b)
  {
    var c := Min(|q| - a, b);
    assert q[a..][c..] == q[a + c..] && q[a..][..c] == q[a..a + c];
    assert q[..a] + q[a..a + c] == q[..a + c];
    assert Output(q, a) == q[..a] + Silence(0) == q[..a];
  }

  // ---------------------------------------------------------------------------------------
  // CubebAPI: blocks in, any number of frames out.
  // ---------------------------------------------------------------------------------------

  function Frames(nframes: nat, channels: nat, bitsPerSample: nat): nat { nframes * channels * (bitsPerSample / 8) }

  /** NeedAdditionalBlocks; the product of two 32-bit numbers is one. */
  predicate Needs(buffer: seq<byte>, delay: nat, bytesPerBlock: nat) { |buffer| < ToUWord32(delay * bytesPerBlock) }

  class OutputFifo {
    var buffer: seq<byte>
    const capacity: nat
    const bytesPerBlock: nat
    const channels: nat
    const bitsPerSample: nat
    ghost var accepted: seq<byte>
    ghost var taken: seq<byte>

    ghost function View(): State
      reads this
    {
      State(buffer, accepted, taken)
    }

    ghost predicate Valid()
      reads this
    {
      capacity >= bytesPerBlock * BLOCK_COUNT && Conserved(View(), capacity)
    }

    /** The vector may reserve more than it is asked for. */
    constructor (bytesPerBlock: nat, channels: nat, bitsPerSample: nat, extra: nat)
      ensures Valid() && View() == Empty && this.bytesPerBlock == bytesPerBlock
      ensures capacity == bytesPerBlock * 24 + extra
      ensures this.channels == channels && this.bitsPerSample == bitsPerSample
    {
      this.bytesPerBlock, this.channels, this.bitsPerSample := bytesPerBlock, channels, bitsPerSample;
      capacity := bytesPerBlock * BLOCK_COUNT + extra;
      buffer, accepted, taken := [], [], [];
    }

    /** The device asks for `nframes` frames. */
    method DataCallback(output: array<byte>, nframes: nat) returns (frames: nat)
      requires Valid() && output.Length == Frames(nframes, channels, bitsPerSample)
      modifies this, output
      ensures Valid() && frames == nframes
      ensures View() == Read(old(View()), output.Length)
      ensures if old(|buffer|) <= output.Length then buffer == [] && taken == old(taken) + old(buffer)
              else buffer == old(buffer)[output.Length..] && taken == old(taken) + old(buffer)[..output.Length]
      ensures output[..] == Output(old(buffer), output.Length)
    {
      NextConserves(View(), capacity, Take(output.Length));
      var size := nframes * channels * (bitsPerSample / 8);
      if buffer == [] {
        Fill(output, 0, []);
      } else {
        var copied := Min(|buffer|, size);
        Fill(output, copied, buffer[..copied]);
        taken := taken + buffer[..copied];
        buffer := buffer[copied..];
      }
      return nframes;
    }

    method FeedBlock(data: seq<byte>) returns (fed: bool)
      requires Valid() && |data| == bytesPerBlock
      modifies this
      ensures Valid() && fed == (old(|buffer|) + bytesPerBlock < capacity)
      ensures View() == Write(old(View()), capacity, data)
      ensures fed ==> buffer == old(buffer) + data && accepted == old(accepted) + data && taken == old(taken)
      ensures !fed ==> View() == old(View())
    {
      NextConserves(View(), capacity, Put(data));
      if capacity <= |buffer| + bytesPerBlock {
        return false;
      }
      buffer, accepted := buffer + data, accepted + data;
      return true;
    }

    method NeedAdditionalBlocks(delay: nat) returns (needed: bool)
      requires Valid()
      ensures needed == Needs(buffer, delay, bytesPerBlock)
      ensures needed <==> |buffer| < delay * bytesPerBlock % 0x1_0000_0000
    {
      return |buffer| < ToUWord32(delay * bytesPerBlock);
    }
  }

  /** `from`, then silence to the end. */
  method Fill(output: array<byte>, copied: nat, from: seq<byte>)
    requires |from| == copied <= output.Length
    modifies output
    ensures output[..] == from + Silence(output.Length - copied)
  {
    forall i | 0 <= i < copied { output[i] := from[i]; }
    forall i | copied <= i < output.Length { output[i] := 0; }
  }

  /** A block that NeedAdditionalBlocks asks for is certain to be let in exactly when the delay leaves room for it;
      the capacity reserved leaves room for every delay up to 23 blocks. */
  lemma NeededBlocksFit(delay: nat, bytesPerBlock: nat, capacity: nat)
    ensures (forall buffer :: Needs(buffer, delay, bytesPerBlock) ==> |buffer| + bytesPerBlock < capacity) <==>
            ToUWord32(delay * bytesPerBlock) == 0 || ToUWord32(delay * bytesPerBlock) + bytesPerBlock <= capacity
    ensures delay < BLOCK_COUNT && capacity >= bytesPerBlock * BLOCK_COUNT && bytesPerBlock > 0 ==>
              ToUWord32(delay * bytesPerBlock) + bytesPerBlock <= capacity
  {
    var wanted := ToUWord32(delay * bytesPerBlock);
    if wanted > 0 && wanted + bytesPerBlock > capacity {
      var full := Silence(wanted - 1);
      assert Needs(full, delay, bytesPerBlock) && |full| + bytesPerBlock >= capacity;
    }
    if delay < BLOCK_COUNT {
      assert delay * bytesPerBlock + bytesPerBlock == (delay + 1) * bytesPerBlock <= BLOCK_COUNT * bytesPerBlock;
    }
  }

  // ---------------------------------------------------------------------------------------
  // CubebInputAPI: any number of frames in, blocks out.
  // ---------------------------------------------------------------------------------------

  class InputFifo {
    var buffer: seq<byte>
    const capacity: nat
    const bytesPerBlock: nat
    const channels: nat
    const bitsPerSample: nat
    ghost var accepted: seq<byte>
    ghost var taken: seq<byte>

    ghost function View(): State
      reads this
    {
      State(buffer, accepted, taken)
    }

    ghost predicate Valid()
      reads this
    {
      capacity >= bytesPerBlock * BLOCK_COUNT && Conserved(View(), capacity)
    }

    constructor (bytesPerBlock: nat, channels: nat, bitsPerSample: nat, extra: nat)
      ensures Valid() && View() == Empty && this.bytesPerBlock == bytesPerBlock
      ensures capacity == bytesPerBlock * 24 + extra
      ensures this.channels == channels && this.bitsPerSample == bitsPerSample
    {
      this.bytesPerBlock, this.channels, this.bitsPerSample := bytesPerBlock, channels, bitsPerSample;
      capacity := bytesPerBlock * BLOCK_COUNT + extra;
      buffer, accepted, taken := [], [], [];
    }

    /** The device has recorded `nframes` frames. A chunk too many is dropped, and the device is not told. */
    method DataCallback(input: seq<byte>, nframes: nat) returns (frames: nat)
      requires Valid() && |input| == Frames(nframes, channels, bitsPerSample)
      modifies this
      ensures Valid() && frames == nframes
      ensures View() == Write(old(View()), capacity, input)
      ensures if old(|buffer|) + |input| < capacity
              then buffer == old(buffer) + input && accepted == old(accepted) + input && taken == old(taken)
              else View() == old(View())
    {
      NextConserves(View(), capacity, Put(input));
      var size := nframes * channels * (bitsPerSample / 8);
      if capacity <= |buffer| + size {
        return nframes;
      }
      buffer, accepted := buffer + input, accepted + input;
      return nframes;
    }

    method ConsumeBlock(data: array<byte>) returns (consumed: bool)
      requires Valid() && data.Length == bytesPerBlock
      modifies this, data
      ensures Valid() && consumed
      ensures View() == Read(old(View()), bytesPerBlock)
      ensures if old(|buffer|) <= bytesPerBlock then buffer == [] && taken == old(taken) + old(buffer)
              else buffer == old(buffer)[bytesPerBlock..] && taken == old(taken) + old(buffer)[..bytesPerBlock]
      ensures data[..] == Output(old(buffer), bytesPerBlock)
    {
      NextConserves(View(), capacity, Take(bytesPerBlock));
      if buffer == [] {
        Fill(data, 0, []);
      } else {
        var copied := Min(|buffer|, bytesPerBlock);
        Fill(data, copied, buffer[..copied]);
        taken := taken + buffer[..copied];
        buffer := buffer[copied..];
      }
      return true;
    }
  }
}
