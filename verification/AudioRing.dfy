/** The ring of sample blocks between the emulator and an XAudio2 source voice. The voice is handed references to the
    ring's slots, not copies, and plays them whenever it likes; FeedBlock's only guard against overwriting a slot the
    voice has yet to play is a counter that it seldom refreshes. */
module AudioRing {
  import opened CInt

  type Block = seq<byte>

  const BLOCK_COUNT: nat := 24

  /** How far a call of FeedBlock has got. */
  datatype Feed = Idle | Copying(data: Block) | Submitting(data: Block)

  datatype Heard = Heard(number: nat, samples: Block)

  /** `queue` are the slots the voice holds, next to be played first. The last three fields are history: the blocks
      accepted so far, the number of the first one still queued, and what was played. */
  datatype State = State(
    slots: seq<Block>, offset: nat, blocksQueued: nat, playing: bool, queue: seq<nat>, feed: Feed,
    accepted: seq<Block>, first: nat, played: seq<Heard>)

  /** What can happen next. FeedBlock takes three steps, Stop takes two, and nothing keeps their callers apart: other
      threads call Play and Stop, and the voice finishes blocks, between any two of them. A step that is not possible in a
      state changes nothing. */
  datatype Step =
    | Check(data: Block)       // FeedBlock tests the counter, and refreshes it if need be
    | Copy                     // it copies the samples into the slot
    | Submit                   // it hands the slot to the voice
    | Finish                   // the voice has played a block
    | Stop(stopped: bool)      // Stop tells a playing voice to stop, which may fail
    | Flush                    // it flushes the voice's queue
    | Play(started: bool)
  {
    /** Not a step of FeedBlock. */
    predicate OfOthers() { Finish? || Stop? || Flush? || Play? }
  }

  function Next(s: State, step: Step): State {
    match step
    case Check(data) =>
      if s.feed != Idle then s
      else if s.blocksQueued < BLOCK_COUNT then s.(feed := Copying(data))
      else if |s.queue| < BLOCK_COUNT then s.(blocksQueued := |s.queue|, feed := Copying(data))
      else s.(blocksQueued := |s.queue|)
    case Copy =>
      if !s.feed.Copying? || s.offset >= |s.slots| then s
      else s.(slots := s.slots[s.offset := s.feed.data], feed := Submitting(s.feed.data))
    case Submit =>
      if !s.feed.Submitting? then s
      else s.(queue := s.queue + [s.offset], offset := (s.offset + 1) % BLOCK_COUNT,
              blocksQueued := ToUWord32(s.blocksQueued + 1), feed := Idle, accepted := s.accepted + [s.feed.data])
    case Finish =>
      if s.queue == [] || s.queue[0] >= |s.slots| then s
      else s.(queue := s.queue[1..], first := s.first + 1, played := s.played + [Heard(s.first, s.slots[s.queue[0]])])
    case Stop(stopped) => if s.playing then s.(playing := !stopped) else s
    case Flush => s.(queue := [], first := s.first + |s.queue|)
    case Play(started) => if s.playing then s else s.(playing := started)
  }

  function Run(s: State, steps: seq<Step>): State {
    if steps == [] then s else Next(Run(s, steps[..|steps| - 1]), steps[|steps| - 1])
  }

  lemma {:induction false} RunAppend(s: State, a: seq<Step>, b: seq<Step>)
    ensures Run(s, a + b) == Run(Run(s, a), b)
  {
    if b == [] {
      assert a + b == a;
    } else {
      assert (a + b)[..|a + b| - 1] == a + b[..|b| - 1];
      RunAppend(s, a, b[..|b| - 1]);
    }
  }

  predicate Initial(s: State) {
    && |s.slots| == BLOCK_COUNT && s.offset == 0 && s.blocksQueued == 0 && !s.playing
    && s.queue == [] && s.feed == Idle && s.accepted == [] && s.first == 0 && s.played == []
  }

  // ---------------------------------------------------------------------------------------
  // What every run keeps.
  // ---------------------------------------------------------------------------------------

  /** The counter never falls short of the voice's queue and never exceeds the ring. */
  predicate CounterSafe(s: State) { |s.queue| <= s.blocksQueued <= BLOCK_COUNT }

  /** The queued slots are the stretch of the ring that ends at `offset`, and hold the newest blocks accepted, in order. */
  predicate QueueIsRingStretch(s: State) {
    && |s.slots| == BLOCK_COUNT && s.offset == |s.accepted| % BLOCK_COUNT
    && s.first + |s.queue| == |s.accepted|
    && forall i {:trigger s.queue[i]} :: 0 <= i < |s.queue| ==>
         s.queue[i] == (s.first + i) % BLOCK_COUNT && s.slots[s.queue[i]] == s.accepted[s.first + i]
  }

  /** While a block is on its way into the ring there is room, and the slot written is not one in the queue. */
  predicate FeedSafe(s: State) {
    && (s.feed != Idle ==> s.blocksQueued < BLOCK_COUNT && s.offset !in s.queue)
    && (s.feed.Submitting? ==> s.offset < |s.slots| && s.slots[s.offset] == s.feed.data)
  }

  /** Blocks are heard in the order they were accepted, each as it was accepted. */
  predicate HeardInOrder(s: State) {
    && (forall i :: 0 <= i < |s.played| ==>
          s.played[i].number < |s.accepted| && s.played[i].number < s.first
          && s.played[i].samples == s.accepted[s.played[i].number])
    && (forall i, j :: 0 <= i < j < |s.played| ==> s.played[i].number < s.played[j].number)
  }

  predicate Safe(s: State) { CounterSafe(s) && QueueIsRingStretch(s) && FeedSafe(s) && HeardInOrder(s) }

  lemma RoomMeansFreeSlot(s: State)
    requires QueueIsRingStretch(s) && |s.queue| < BLOCK_COUNT
    ensures s.offset !in s.queue
  {
    forall i | 0 <= i < |s.queue| ensures s.queue[i] != s.offset {
      RingDistance(s.first + i, |s.accepted|);
    }
  }

  lemma RingDistance(a: nat, b: nat)
    requires a < b < a + BLOCK_COUNT
    ensures a % BLOCK_COUNT != b % BLOCK_COUNT
  {
  }

  lemma CheckKeepsSafe(s: State, data: Block)
    requires Safe(s)
    ensures Safe(Next(s, Check(data)))
  {
    if |s.queue| < BLOCK_COUNT { RoomMeansFreeSlot(s); }
  }

  lemma CopyKeepsSafe(s: State)
    requires Safe(s)
    ensures Safe(Next(s, Copy))
  {
    var t := Next(s, Copy);
    assert forall i :: 0 <= i < |s.queue| ==> s.queue[i] in s.queue;
  }

  lemma SubmitKeepsSafe(s: State)
    requires Safe(s)
    ensures Safe(Next(s, Submit))
  {
    if s.feed.Submitting? {
      var t, n := Next(s, Submit), |s.accepted|;
      assert (s.offset + 1) % BLOCK_COUNT == (n + 1) % BLOCK_COUNT;
      forall i | 0 <= i < |t.queue|
        ensures t.queue[i] == (t.first + i) % BLOCK_COUNT && t.slots[t.queue[i]] == t.accepted[t.first + i]
      {
        if i < |s.queue| { assert t.queue[i] == s.queue[i]; }
      }
    }
  }

  lemma FinishKeepsSafe(s: State)
    requires Safe(s)
    ensures Safe(Next(s, Finish))
  {
    if s.queue != [] {
      var t := Next(s, Finish);
      forall i | 0 <= i < |t.queue| ensures t.queue[i] == s.queue[i + 1] {}
      assert s.queue[0] == s.first % BLOCK_COUNT;
    }
  }

  /** While a block is on its way, counting it does not wrap. */
  lemma CounterHasRoom(s: State)
    requires Safe(s) && s.feed != Idle
    ensures ToUWord32(s.blocksQueued + 1) == s.blocksQueued + 1
  {
  }

  lemma NextKeepsSafe(s: State, step: Step)
    requires Safe(s)
    ensures Safe(Next(s, step))
  {
    match step
    case Check(data) => CheckKeepsSafe(s, data);
    case Copy => CopyKeepsSafe(s);
    case Submit => SubmitKeepsSafe(s);
    case Finish => FinishKeepsSafe(s);
    case Stop(_) =>
    case Flush =>
    case Play(_) =>
  }

  /** Every state of every run is safe. */
  lemma {:induction false} RunsAreSafe(s: State, steps: seq<Step>)
    requires Initial(s)
    ensures Safe(Run(s, steps))
  {
    if steps != [] {
      RunsAreSafe(s, steps[..|steps| - 1]);
      NextKeepsSafe(Run(s, steps[..|steps| - 1]), steps[|steps| - 1]);
    }
  }

  /** No step of a run changes a slot the voice has yet to play. */
  lemma QueuedSlotsUntouched(s: State, steps: seq<Step>, step: Step, slot: nat)
    requires Initial(s) && slot in Run(s, steps).queue
    ensures var t := Run(s, steps);
            && slot < |t.slots| == |Next(t, step).slots| == BLOCK_COUNT
            && Next(t, step).slots[slot] == t.slots[slot]
  {
    RunsAreSafe(s, steps);
  }

  /** A block is dropped exactly when the voice really holds all slots at that moment: the stale counter never costs a
      block. */
  lemma DropsOnlyWhenFull(s: State, steps: seq<Step>, data: Block)
    requires Initial(s) && Run(s, steps).feed == Idle
    ensures var t := Run(s, steps);
            && (Next(t, Check(data)).feed == Idle <==> |t.queue| == 24)
            && (Next(t, Check(data)).feed == Idle ==> Next(t, Check(data)) == t)
  {
    RunsAreSafe(s, steps);
  }

  /** How many blocks the flushes of a run have taken from the voice. */
  function Flushed(s: State, steps: seq<Step>): nat {
    if steps == [] then 0
    else
      var front := steps[..|steps| - 1];
      Flushed(s, front) + if steps[|steps| - 1].Flush? then |Run(s, front).queue| else 0
  }

  /** Every block accepted has been played, is still queued, or was flushed. */
  lemma EveryBlockAccounted(s: State, steps: seq<Step>)
    requires Initial(s)
    ensures var t := Run(s, steps); |t.accepted| == |t.played| + Flushed(s, steps) + |t.queue|
  {
    RunsAreSafe(s, steps);
    TakenFromQueue(s, steps);
  }

  lemma {:induction false} TakenFromQueue(s: State, steps: seq<Step>)
    requires Initial(s)
    ensures Run(s, steps).first == |Run(s, steps).played| + Flushed(s, steps)
  {
    if steps != [] {
      hide Next;
      var front, last := steps[..|steps| - 1], steps[|steps| - 1];
      TakenFromQueue(s, front);
      StepTakes(Run(s, front), last);
    }
  }

  /** A step takes from the queue what it plays and what it flushes, and plays the first block queued if any. */
  lemma StepTakes(s: State, step: Step)
    ensures var t := Next(s, step);
            && t.first - s.first == |t.played| - |s.played| + (if step.Flush? then |s.queue| else 0)
            && (t.played == s.played || (|t.played| == |s.played| + 1 && t.played[..|s.played|] == s.played
                                         && t.played[|s.played|].number == s.first))
  {
  }

  /** The blocks played are all blocks accepted before those still queued, without a gap, exactly when no flush has found
      a block. */
  lemma NothingLostIff(s: State, steps: seq<Step>)
    requires Initial(s)
    ensures var t := Run(s, steps);
            (t.first == |t.played| && forall i :: 0 <= i < |t.played| ==> t.played[i].number == i) <==>
            Flushed(s, steps) == 0
  {
    TakenFromQueue(s, steps);
    if Flushed(s, steps) == 0 { PlayedInSequence(s, steps); }
  }

  lemma {:induction false} PlayedInSequence(s: State, steps: seq<Step>)
    requires Initial(s) && Flushed(s, steps) == 0
    ensures forall i :: 0 <= i < |Run(s, steps).played| ==> Run(s, steps).played[i].number == i
  {
    if steps != [] {
      hide Next;
      var front, last := steps[..|steps| - 1], steps[|steps| - 1];
      PlayedInSequence(s, front);
      TakenFromQueue(s, front);
      StepTakes(Run(s, front), last);
      var before, after := Run(s, front).played, Run(s, steps).played;
      forall i | 0 <= i < |after| ensures after[i].number == i {
        if i < |before| { assert after[i] == before[i]; }
      }
    }
  }

  // ---------------------------------------------------------------------------------------
  // The class.
  // ---------------------------------------------------------------------------------------

  /** One call of FeedBlock with what others do, `meanwhile` and `thereafter`, between its steps. */
  function FeedSteps(data: Block, meanwhile: seq<Step>, thereafter: seq<Step>): seq<Step> {
    [Check(data)] + meanwhile + [Copy] + thereafter + [Submit]
  }

  predicate AllOfOthers(steps: seq<Step>) { forall i :: 0 <= i < |steps| ==> steps[i].OfOthers() }

  predicate NoPlay(steps: seq<Step>) { forall i :: 0 <= i < |steps| ==> !steps[i].Play? }

  predicate NoStop(steps: seq<Step>) { forall i :: 0 <= i < |steps| ==> !steps[i].Stop? }

  /** Nobody but Play starts a silent voice, and nobody but Stop silences it. */
  lemma {:induction false} PlayingStays(s: State, steps: seq<Step>)
    ensures !s.playing && NoPlay(steps) ==> !Run(s, steps).playing
    ensures s.playing && NoStop(steps) ==> Run(s, steps).playing
  {
    if steps != [] { PlayingStays(s, steps[..|steps| - 1]); }
  }

  class XAudioVoice {
    const audioBuffer: array<Block>
    var offset: nat
    var blocksQueued: nat
    var playing: bool
    /** The voice's side: the slots it holds. */
    var queue: seq<nat>
    ghost var feed: Feed
    ghost var accepted: seq<Block>
    ghost var first: nat
    ghost var played: seq<Heard>

    ghost function View(): State
      reads this, audioBuffer
    {
      State(audioBuffer[..], offset, blocksQueued, playing, queue, feed, accepted, first, played)
    }

    ghost predicate Valid()
      reads this, audioBuffer
    {
      Safe(View())
    }

    constructor ()
      ensures Valid() && Initial(View()) && fresh(audioBuffer)
    {
      audioBuffer := new Block[BLOCK_COUNT](_ => []);
      offset, blocksQueued, playing := 0, 0, false;
      queue, feed, accepted, first, played := [], Idle, [], 0, [];
    }

    method FinishOne()
      requires Valid()
      modifies this`queue, this`first, this`played
      ensures Valid() && View() == Next(old(View()), Finish)
      ensures old(queue) != [] ==>
                queue == old(queue)[1..] && played == old(played) + [Heard(old(first), audioBuffer[old(queue)[0]])]
    {
      NextKeepsSafe(View(), Finish);
      if queue != [] {
        played := played + [Heard(first, audioBuffer[queue[0]])];
        queue, first := queue[1..], first + 1;
      }
    }

    /** What other threads and the voice do in the meantime. */
    method Others(steps: seq<Step>)
      requires Valid() && AllOfOthers(steps)
      modifies this`queue, this`first, this`played, this`playing
      ensures Valid() && View() == Run(old(View()), steps)
    {
      hide Next, Safe;
      ghost var s := View();
      for i := 0 to |steps|
        invariant Valid() && View() == Run(s, steps[..i])
      {
        assert steps[..i + 1][..i] == steps[..i];
        OneOther(steps[i]);
      }
      assert steps[..|steps|] == steps;
    }

    method OneOther(step: Step)
      requires Valid() && step.OfOthers()
      modifies this`queue, this`first, this`played, this`playing
      ensures Valid() && View() == Next(old(View()), step)
    {
      match step
      case Finish => FinishOne();
      case Stop(stopped) => Halt(stopped);
      case Flush => FlushQueue();
      case Play(started) => var _ := Start(started);
    }

    method Halt(stopped: bool)
      requires Valid()
      modifies this`playing
      ensures Valid() && View() == Next(old(View()), Stop(stopped))
      ensures playing == (old(playing) && !stopped)
    {
      if playing {
        playing := !stopped;
      }
    }

    method FlushQueue()
      requires Valid()
      modifies this`queue, this`first
      ensures Valid() && View() == Next(old(View()), Flush) && queue == []
    {
      first := first + |queue|;
      queue := [];
    }

    method GetQueuedBuffers() returns (n: nat)
      ensures n == |queue|
    {
      n := |queue|;
    }

    /** The test at the head of FeedBlock. */
    method CheckQueue(data: Block) returns (room: bool)
      requires Valid() && feed == Idle
      modifies this`blocksQueued, this`feed
      ensures Valid() && View() == Next(old(View()), Check(data))
      ensures room <==> old(|queue|) < 24
      ensures if room then feed == Copying(data) else View() == old(View())
    {
      NextKeepsSafe(View(), Check(data));
      if blocksQueued >= BLOCK_COUNT {
        blocksQueued := GetQueuedBuffers();
        if blocksQueued >= BLOCK_COUNT {
          return false;
        }
      }
      feed := Copying(data);
      return true;
    }

    /** `memcpy` into the slot at `offset`. */
    method CopyIn(data: Block)
      requires Valid() && feed == Copying(data)
      modifies this`feed, audioBuffer
      ensures Valid() && View() == Next(old(View()), Copy) && feed == Submitting(data)
      ensures offset < audioBuffer.Length && audioBuffer[..] == old(audioBuffer[..])[offset := data]
    {
      NextKeepsSafe(View(), Copy);
      audioBuffer[offset] := data;
      feed := Submitting(data);
    }

    /** SubmitSourceBuffer, and the bookkeeping after it. */
    method SubmitSlot(data: Block)
      requires Valid() && feed == Submitting(data)
      modifies this`queue, this`offset, this`blocksQueued, this`feed, this`accepted
      ensures Valid() && View() == Next(old(View()), Submit) && feed == Idle
      ensures queue == old(queue) + [old(offset)] && accepted == old(accepted) + [data]
      ensures offset == (old(offset) + 1) % 24 && blocksQueued == old(blocksQueued) + 1
    {
      NextKeepsSafe(View(), Submit);
      CounterHasRoom(View());
      hide Safe, ToUWord32;
      queue := queue + [offset];
      offset := (offset + 1) % BLOCK_COUNT;
      blocksQueued := ToUWord32(blocksQueued + 1);
      accepted, feed := accepted + [data], Idle;
    }

    /** A block is let in exactly when there was room at the test, whatever others do while it is copied and submitted. */
    method FeedBlock(data: Block, meanwhile: seq<Step>, thereafter: seq<Step>) returns (fed: bool)
      requires Valid() && feed == Idle && AllOfOthers(meanwhile) && AllOfOthers(thereafter)
      modifies this, audioBuffer
      ensures Valid() && feed == Idle
      ensures fed <==> old(|queue|) < 24
      ensures fed ==>
                && accepted == old(accepted) + [data] && offset == (old(offset) + 1) % 24
                && queue != [] && queue[|queue| - 1] == old(offset)
                && old(offset) < audioBuffer.Length && audioBuffer[old(offset)] == data
      ensures View() == if fed then Run(old(View()), FeedSteps(data, meanwhile, thereafter)) else old(View())
    {
      hide Next, Safe, Run, AllOfOthers;
      ghost var s := View();
      fed := CheckQueue(data);
      if fed {
        Others(meanwhile);
        CopyIn(data);
        Others(thereafter);
        SubmitSlot(data);
        FeedStepsRun(s, data, meanwhile, thereafter);
      }
    }

    method Start(started: bool) returns (r: bool)
      requires Valid()
      modifies this`playing
      ensures Valid() && View() == Next(old(View()), Play(started))
      ensures r == playing && playing == (old(playing) || started)
    {
      if !playing {
        playing := started;
      }
      r := playing;
    }

    /** Stop, with what others do before it flushes the queue. It returns true when there was nothing to stop; otherwise
        it returns whether the voice is playing, false when it did stop it. */
    method StopVoice(stopped: bool, meanwhile: seq<Step>) returns (r: bool)
      requires Valid() && AllOfOthers(meanwhile)
      modifies this`playing, this`queue, this`first, this`played
      ensures Valid()
      ensures View() == if old(playing) then Run(old(View()), [Stop(stopped)] + meanwhile + [Flush]) else old(View())
      ensures r == if old(playing) then playing else true
      ensures old(playing) ==> queue == []
      ensures old(playing) && stopped && NoPlay(meanwhile) ==> !playing && !r
      ensures old(playing) && !stopped && NoStop(meanwhile) ==> playing && r
    {
      if !playing {
        return true;
      }
      PlayingStays(Next(View(), Stop(stopped)), meanwhile);
      hide Next, Safe, Run, AllOfOthers, NoPlay, NoStop;
      ghost var s := View();
      Halt(stopped);
      Others(meanwhile);
      FlushQueue();
      StopStepsRun(s, stopped, meanwhile);
      return playing;
    }

    method NeedAdditionalBlocks(audioDelay: nat) returns (r: bool)
      ensures r <==> |queue| < audioDelay
    {
      var n := GetQueuedBuffers();
      r := n < audioDelay;
    }
  }

  lemma FeedStepsRun(s: State, data: Block, meanwhile: seq<Step>, thereafter: seq<Step>)
    ensures var copied := Next(Run(Next(s, Check(data)), meanwhile), Copy);
            Run(s, FeedSteps(data, meanwhile, thereafter)) == Next(Run(copied, thereafter), Submit)
  {
    hide Next;
    var a, b, c, d := [Check(data)], meanwhile, [Copy], thereafter;
    OneStep(s, Check(data));
    RunAppend(s, a, b);
    RunAppend(s, a + b, c);
    OneStep(Run(s, a + b), Copy);
    RunAppend(s, a + b + c, d);
    RunAppend(s, a + b + c + d, [Submit]);
    OneStep(Run(s, a + b + c + d), Submit);
  }

  lemma StopStepsRun(s: State, stopped: bool, meanwhile: seq<Step>)
    ensures Run(s, [Stop(stopped)] + meanwhile + [Flush]) == Next(Run(Next(s, Stop(stopped)), meanwhile), Flush)
  {
    hide Next;
    OneStep(s, Stop(stopped));
    RunAppend(s, [Stop(stopped)], meanwhile);
    RunAppend(s, [Stop(stopped)] + meanwhile, [Flush]);
    OneStep(Run(s, [Stop(stopped)] + meanwhile), Flush);
  }

  lemma OneStep(s: State, step: Step)
    ensures Run(s, [step]) == Next(s, step)
  {
    assert [step][..0] == [];
    assert Run(s, [step][..0]) == s;
  }
}
