/** The display manager of the H.264 decoder: 64 slots of decoded pictures, handed out in picture order count (POC)
    order. A slot is in use when its POC is not DEFAULT_POC. */
module DispMgr {
  import opened Options

  const MAX_CNT: nat := 64
  const DEFAULT_POC: int := 0x7FFF_FFFF

  type Poc = x: int | -0x8000_0000 <= x <= 0x7FFF_FFFF
  /** A pointer; 0 is NULL. */
  type Pointer = nat

  datatype Entry = Entry(id: nat, poc: int, ptr: Pointer)

  /** The slots of the manager. */
  datatype Slots = Slots(pocs: seq<Poc>, ptrs: seq<Pointer>)

  predicate WellFormed(s: Slots) { |s.pocs| == MAX_CNT && |s.ptrs| == MAX_CNT }

  /** Entries are filed under their ids, so no two are the same. */
  predicate Filed(w: map<nat, Entry>) { forall id :: id in w ==> w[id].id == id }

  /** The pictures waiting to be displayed. */
  function Waiting(s: Slots): (w: map<nat, Entry>)
    requires WellFormed(s)
    ensures Filed(w)
  {
    map id: nat | id < MAX_CNT && s.pocs[id] != DEFAULT_POC :: Entry(id, s.pocs[id], s.ptrs[id])
  }

  /** Display order: lower POC first, and among equals the higher id. */
  predicate Before(a: Entry, b: Entry) { a.poc < b.poc || (a.poc == b.poc && a.id > b.id) }

  predicate IsFirst(e: Entry, w: map<nat, Entry>) {
    e.id in w && w[e.id] == e && forall id :: id in w && id != e.id ==> Before(e, w[id])
  }

  class DisplayManager {
    const absPoc: array<Poc>
    const ptr: array<Pointer>

    ghost function View(): Slots
      reads absPoc, ptr
    {
      Slots(absPoc[..], ptr[..])
    }

    ghost predicate Valid()
      reads this, absPoc, ptr
    {
      absPoc.Length == MAX_CNT && ptr.Length == MAX_CNT && WellFormed(View())
    }

    /** ih264_disp_mgr_init */
    constructor ()
      ensures Valid() && fresh(absPoc) && fresh(ptr) && Waiting(View()) == map[] && View() == Empty()
      ensures forall id :: 0 <= id < 64 ==> ptr[id] == 0 && absPoc[id] == 0x7FFF_FFFF
    {
      absPoc := new Poc[MAX_CNT];
      ptr := new Pointer[MAX_CNT];
      new;
      for id := 0 to MAX_CNT
        invariant forall i :: 0 <= i < id ==> absPoc[i] == DEFAULT_POC && ptr[i] == 0
      {
        absPoc[id] := DEFAULT_POC;
        ptr[id] := 0;
      }
    }

    /** ih264_disp_mgr_add: refused, and nothing changed, for an id out of range or a slot whose pointer is not NULL. */
    method Add(id: nat, poc: Poc, p: Pointer) returns (ret: int)
      requires Valid()
      modifies absPoc, ptr
      ensures Valid()
      ensures ret == if id < 64 && old(ptr[..])[id] == 0 then 0 else -1
      ensures View() == if ret == 0 then old(Slots(absPoc[..][id := poc], ptr[..][id := p])) else old(View())
      ensures Adds(old(View()), id, poc, p, View(), ret == 0)
    {
      if id >= MAX_CNT {
        return -1;
      }
      if ptr[id] != 0 {
        return -1;
      }
      ptr[id] := p;
      absPoc[id] := poc;
      return 0;
    }

    /** ih264_disp_mgr_get: the waiting picture that comes first, which then waits no longer. The id is -1 exactly when
        none waits; NULL is returned exactly then or when the first picture was added with NULL. */
    method Get() returns (p: Pointer, id: int)
      requires Valid()
      modifies absPoc, ptr
      ensures Valid()
      ensures old(Waiting(View())) == map[] <==> id == -1
      ensures id == -1 ==> p == 0 && View() == old(View())
      ensures id != -1 ==>
                && 0 <= id < MAX_CNT
                && p == old(ptr[..])[id]
                && IsFirst(Entry(id, old(absPoc[..])[id], p), old(Waiting(View())))
                && View() == old(Slots(absPoc[..][id := DEFAULT_POC], ptr[..][id := 0]))
      ensures id == -1 <==> forall k :: 0 <= k < 64 ==> old(absPoc[..])[k] == 0x7FFF_FFFF
      ensures id != -1 ==>
                && old(absPoc[..])[id] != 0x7FFF_FFFF
                && forall k :: 0 <= k < 64 && k != id && old(absPoc[..])[k] != 0x7FFF_FFFF ==>
                     old(absPoc[..])[id] < old(absPoc[..])[k] || (old(absPoc[..])[id] == old(absPoc[..])[k] && k < id)
      ensures WaitingIsGuarded(old(View())) ==> (p == 0 <==> old(Waiting(View())) == map[])
      ensures Gets(old(View()), if id == -1 then None else Some(Entry(id, old(absPoc[..])[id], p)), View())
    {
      p := 0;
      var minPoc := 0x7FFF_FFFF;
      var minId := -1;
      for i := 0 to MAX_CNT
        invariant -1 <= minId < i
        invariant if minId == -1 then minPoc == 0x7FFF_FFFF else minPoc == absPoc[minId] != DEFAULT_POC
        invariant forall k :: 0 <= k < i && absPoc[k] != DEFAULT_POC ==>
                    minId != -1 && (k == minId || minPoc < absPoc[k] || (minPoc == absPoc[k] && minId > k))
      {
        if DEFAULT_POC != absPoc[i] && absPoc[i] <= minPoc {
          minPoc := absPoc[i];
          minId := i;
        }
      }
      id := minId;
      if -1 == minId {
        assert Waiting(View()) == map[];
        return 0, minId;
      }
      assert minId in Waiting(View());
      p := ptr[minId];
      ptr[minId] := 0;
      absPoc[minId] := DEFAULT_POC;
    }
  }

  // ---------------------------------------------------------------------------------------
  // The manager as a priority queue, over whole runs.
  // ---------------------------------------------------------------------------------------

  datatype Op = Add(id: nat, poc: Poc, p: Pointer) | Get

  function Empty(): (s: Slots)
    ensures WaitingIsGuarded(s) && Waiting(s) == map[]
  {
    Slots(seq(MAX_CNT, _ => DEFAULT_POC), seq(MAX_CNT, _ => 0))
  }

  /** The slots after Add, as its contract states them. */
  function AfterAdd(s: Slots, id: nat, poc: Poc, p: Pointer): (t: Slots)
    requires WellFormed(s)
    ensures WellFormed(t)
  {
    if id < MAX_CNT && s.ptrs[id] == 0 then Slots(s.pocs[id := poc], s.ptrs[id := p]) else s
  }

  function AfterRemove(s: Slots, id: nat): (t: Slots)
    requires WellFormed(s) && id < MAX_CNT
    ensures WellFormed(t)
  {
    Slots(s.pocs[id := DEFAULT_POC], s.ptrs[id := 0])
  }

  lemma RemoveTakesOut(s: Slots, id: nat)
    requires WellFormed(s) && id in Waiting(s)
    ensures Waiting(AfterRemove(s, id)) == Waiting(s) - {id}
    ensures WaitingIsGuarded(s) ==> WaitingIsGuarded(AfterRemove(s, id))
  {
  }

  /** The slots, with the entries accepted and the entries handed out so far. */
  datatype Trace = Trace(slots: Slots, added: seq<Entry>, got: seq<Entry>)

  /** What Add answers, and leaves behind. */
  predicate Adds(s: Slots, id: nat, poc: Poc, p: Pointer, t: Slots, accepted: bool)
    requires WellFormed(s)
  {
    accepted == (id < MAX_CNT && s.ptrs[id] == 0) && t == AfterAdd(s, id, poc, p)
  }

  /** `e` is what Get may hand out: nothing if nothing waits, the first waiting entry otherwise. */
  predicate Gets(s: Slots, e: Option<Entry>, t: Slots)
    requires WellFormed(s)
  {
    match e
    case None => Waiting(s) == map[] && t == s
    case Some(e) => e.id < MAX_CNT && IsFirst(e, Waiting(s)) && t == AfterRemove(s, e.id)
  }

  /** `t` is what one operation makes of `s`. */
  ghost predicate Step(s: Trace, op: Op, t: Trace)
    requires WellFormed(s.slots)
  {
    match op
    case Add(id, poc, p) =>
      exists accepted ::
        && Adds(s.slots, id, poc, p, t.slots, accepted) && t.got == s.got
        && t.added == if accepted then s.added + [Entry(id, poc, p)] else s.added
    case Get =>
      exists e :: Gets(s.slots, e, t.slots) && t.added == s.added && t.got == s.got + if e.Some? then [e.value] else []
  }

  ghost predicate IsRun(ops: seq<Op>, states: seq<Trace>) {
    && |states| == |ops| + 1 && states[0] == Trace(Empty(), [], [])
    && (forall i :: 0 <= i < |states| ==> WellFormed(states[i].slots))
    && forall i :: 0 <= i < |ops| ==> Step(states[i], ops[i], states[i + 1])
  }

  /** Every picture that was accepted had a buffer. */
  predicate AllHaveBuffers(added: seq<Entry>) { forall i :: 0 <= i < |added| ==> added[i].ptr != 0 }

  /** What waits has a buffer, so that its slot takes no other picture. */
  predicate WaitingIsGuarded(s: Slots) {
    WellFormed(s) && forall id :: id in Waiting(s) ==> s.ptrs[id] != 0
  }

  /** The waiting entries, each once. */
  function Bag(w: map<nat, Entry>): multiset<Entry> { multiset(w.Values) }

  lemma BagWithout(w: map<nat, Entry>, id: nat)
    requires Filed(w) && id in w
    ensures Filed(w - {id}) && Bag(w) == Bag(w - {id}) + multiset{w[id]}
  {
    var rest := w - {id};
    forall e | e in w.Values ensures e in rest.Values + {w[id]} {
      var k :| k in w && w[k] == e;
      if k != id { assert rest[k] == e; }
    }
    assert forall k :: k in rest ==> rest[k] == w[k];
    assert w[id] !in rest.Values;
    assert w.Values == rest.Values + {w[id]};
  }

  lemma BagWith(w: map<nat, Entry>, e: Entry)
    requires Filed(w) && e.id !in w
    ensures Bag(w[e.id := e]) == Bag(w) + multiset{e}
  {
    BagWithout(w[e.id := e], e.id);
    assert w[e.id := e] - {e.id} == w;
  }

  /** The entries with an order count of their own, in order; the others have the reserved one. */
  function Ordered(added: seq<Entry>): (r: seq<Entry>)
    ensures forall e :: e in r <==> e in added && e.poc != DEFAULT_POC
    ensures |r| <= |added| && (|r| == |added| <==> forall i :: 0 <= i < |added| ==> added[i].poc != DEFAULT_POC)
  {
    if added == [] then []
    else
      var front, last := added[..|added| - 1], added[|added| - 1];
      Ordered(front) + if last.poc != DEFAULT_POC then [last] else []
  }

  lemma {:induction false} AllOrdered(added: seq<Entry>)
    requires forall i :: 0 <= i < |added| ==> added[i].poc != DEFAULT_POC
    ensures Ordered(added) == added
  {
    if added != [] {
      var n := |added| - 1;
      AllOrdered(added[..n]);
      calc {
        Ordered(added);
        Ordered(added[..n]) + [added[n]];
        added[..n] + [added[n]];
        added;
      }
    }
  }

  /** In every run whose pictures had buffers, the pictures with an order count have come out exactly once or are still
      waiting, and nothing else has come out. */
  lemma {:induction false} OrderedEntriesOnce(ops: seq<Op>, states: seq<Trace>)
    requires IsRun(ops, states) && AllHaveBuffers(states[|ops|].added)
    ensures var last := states[|ops|];
            && WaitingIsGuarded(last.slots)
            && multiset(Ordered(last.added)) == multiset(last.got) + Bag(Waiting(last.slots))
  {
    if ops != [] {
      var n := |ops| - 1;
      AddedGrows(states[n], ops[n], states[n + 1]);
      OrderedEntriesOnce(ops[..n], states[..n + 1]);
      StepKeepsBalance(states[n], ops[n], states[n + 1]);
    }
  }

  lemma AddedGrows(s: Trace, op: Op, t: Trace)
    requires WellFormed(s.slots) && Step(s, op, t) && AllHaveBuffers(t.added)
    ensures AllHaveBuffers(s.added)
  {
    forall i | 0 <= i < |s.added| ensures s.added[i].ptr != 0 { assert t.added[i] == s.added[i]; }
  }

  ghost predicate Balanced(s: Trace) {
    WaitingIsGuarded(s.slots) && multiset(Ordered(s.added)) == multiset(s.got) + Bag(Waiting(s.slots))
  }

  lemma StepKeepsBalance(s: Trace, op: Op, t: Trace)
    requires WellFormed(s.slots) && WellFormed(t.slots) && Balanced(s) && Step(s, op, t) && AllHaveBuffers(t.added)
    ensures Balanced(t)
  {
    hide Balanced, Waiting, IsFirst, AfterRemove;
    match op
    case Add(id, poc, p) =>
      if id < MAX_CNT && s.slots.ptrs[id] == 0 {
        assert t.added[|s.added|] == Entry(id, poc, p);
        AddKeepsBalance(s, id, poc, p, t);
      } else {
        assert t == s;
      }
    case Get =>
      var e :| Gets(s.slots, e, t.slots) && t.got == s.got + if e.Some? then [e.value] else [];
      if e.Some? {
        GetKeepsBalance(s, e.value, t);
      } else {
        assert t == s;
      }
  }

  lemma AddKeepsBalance(s: Trace, id: nat, poc: Poc, p: Pointer, t: Trace)
    requires Balanced(s) && Adds(s.slots, id, poc, p, t.slots, true) && p != 0
    requires t.added == s.added + [Entry(id, poc, p)] && t.got == s.got
    ensures Balanced(t)
  {
    AddWaits(s.slots, id, poc, p);
    OrderedAppended(s.added, Entry(id, poc, p));
    hide Bag, AfterAdd, Waiting, WaitingIsGuarded, Ordered;
    if poc != DEFAULT_POC { BagWith(Waiting(s.slots), Entry(id, poc, p)); }
  }

  lemma OrderedAppended(added: seq<Entry>, e: Entry)
    ensures Ordered(added + [e]) == Ordered(added) + if e.poc != DEFAULT_POC then [e] else []
  {
    assert (added + [e])[..|added|] == added;
  }

  /** An accepted picture waits, unless its order count is the reserved one. */
  lemma AddWaits(s: Slots, id: nat, poc: Poc, p: Pointer)
    requires WaitingIsGuarded(s) && id < MAX_CNT && s.ptrs[id] == 0 && p != 0
    ensures var t := AfterAdd(s, id, poc, p);
            && WaitingIsGuarded(t) && id !in Waiting(s)
            && Waiting(t) == if poc == DEFAULT_POC then Waiting(s) else Waiting(s)[id := Entry(id, poc, p)]
  {
  }

  lemma GetKeepsBalance(s: Trace, e: Entry, t: Trace)
    requires Balanced(s) && Gets(s.slots, Some(e), t.slots) && t.added == s.added && t.got == s.got + [e]
    ensures Balanced(t)
  {
    hide Bag, AfterRemove, Waiting;
    RemoveTakesOut(s.slots, e.id);
    BagWithout(Waiting(s.slots), e.id);
  }

  /** In every run whose pictures had buffers: every picture accepted has come out exactly once or is still waiting, and
      nothing else has come out, if and only if none was added with the reserved order count. */
  lemma EveryEntryOnce(ops: seq<Op>, states: seq<Trace>)
    requires IsRun(ops, states) && AllHaveBuffers(states[|ops|].added)
    ensures var last := states[|ops|];
            multiset(last.added) == multiset(last.got) + Bag(Waiting(last.slots)) <==>
            forall i :: 0 <= i < |last.added| ==> last.added[i].poc != 0x7FFF_FFFF
  {
    var last := states[|ops|];
    OrderedEntriesOnce(ops, states);
    if forall i :: 0 <= i < |last.added| ==> last.added[i].poc != DEFAULT_POC {
      AllOrdered(last.added);
    } else {
      assert |multiset(Ordered(last.added))| < |multiset(last.added)|;
    }
  }

  /** A picture added with the reserved order count is never handed out, in any run: from then on its slot keeps it, lets
      no other picture in, and nothing comes out of it. */
  lemma {:induction false} DefaultPocIsLost(ops: seq<Op>, states: seq<Trace>, i: nat, id: nat, p: Pointer, j: nat)
    requires IsRun(ops, states) && i < j <= |ops| && ops[i] == Add(id, 0x7FFF_FFFF, p) && p != 0
    requires id < 64 && states[i].slots.ptrs[id] == 0
    ensures var s, t := states[i + 1], states[j];
            && t.slots.ptrs[id] == p && t.slots.pocs[id] == DEFAULT_POC && id !in Waiting(t.slots)
            && |s.got| <= |t.got| && forall k :: |s.got| <= k < |t.got| ==> t.got[k].id != id
    decreases j
  {
    if i + 1 < j {
      DefaultPocIsLost(ops, states, i, id, p, j - 1);
      assert Step(states[j - 1], ops[j - 1], states[j]);
    } else {
      assert Step(states[i], ops[i], states[j]);
    }
  }

  /** Draining: Get until nothing waits. `got` lists what comes out. */
  predicate IsDrain(w: map<nat, Entry>, got: seq<Entry>)
    decreases |got|
  {
    if got == [] then w == map[]
    else IsFirst(got[0], w) && IsDrain(w - {got[0].id}, got[1..])
  }

  lemma {:induction false} DrainTakesAll(w: map<nat, Entry>, got: seq<Entry>)
    requires IsDrain(w, got) && Filed(w)
    ensures multiset(got) == Bag(w) && |got| == |w|
    decreases |got|
  {
    if got != [] {
      BagWithout(w, got[0].id);
      DrainTakesAll(w - {got[0].id}, got[1..]);
      hide Bag, IsDrain, IsFirst;
      assert got == [got[0]] + got[1..];
    }
  }

  lemma {:induction false} DrainIsFiled(w: map<nat, Entry>, got: seq<Entry>)
    requires IsDrain(w, got)
    ensures forall i :: 0 <= i < |got| ==> got[i].id in w && w[got[i].id] == got[i]
    decreases |got|
  {
    if got != [] {
      DrainIsFiled(w - {got[0].id}, got[1..]);
      hide IsDrain;
      forall i | 0 < i < |got| ensures got[i].id in w && w[got[i].id] == got[i] {
        assert got[i] == got[1..][i - 1];
      }
    }
  }

  lemma {:induction false} DrainInOrder(w: map<nat, Entry>, got: seq<Entry>, i: nat, j: nat)
    requires IsDrain(w, got) && i < j < |got|
    ensures got[i].poc < got[j].poc || (got[i].poc == got[j].poc && got[i].id > got[j].id)
    decreases |got|
  {
    var rest := w - {got[0].id};
    if i > 0 {
      DrainInOrder(rest, got[1..], i - 1, j - 1);
    } else {
      DrainIsFiled(rest, got[1..]);
      hide IsDrain;
      assert got[j] == got[1..][j - 1];
    }
  }

  /** A drain hands out exactly the waiting entries, each once, in display order: the lowest POC first, and of equal ones
      the highest id. */
  lemma DrainIsSorted(w: map<nat, Entry>, got: seq<Entry>)
    requires IsDrain(w, got) && Filed(w)
    ensures multiset(got) == Bag(w) && |got| == |w|
    ensures forall i, j :: 0 <= i < j < |got| ==>
              got[i].poc < got[j].poc || (got[i].poc == got[j].poc && got[i].id > got[j].id)
    ensures forall i :: 0 <= i < |got| ==> got[i].id in w && w[got[i].id] == got[i]
  {
    DrainTakesAll(w, got);
    DrainIsFiled(w, got);
    forall i, j | 0 <= i < j < |got|
      ensures got[i].poc < got[j].poc || (got[i].poc == got[j].poc && got[i].id > got[j].id)
    {
      DrainInOrder(w, got, i, j);
    }
  }

  lemma NothingToDrain()
    ensures IsDrain(map[], [])
  {
  }

  lemma DrainFrom(e: Entry, rest: seq<Entry>, w: map<nat, Entry>)
    requires IsFirst(e, w) && IsDrain(w - {e.id}, rest)
    ensures IsDrain(w, [e] + rest)
  {
    assert ([e] + rest)[1..] == rest;
  }

  /** Calling ih264_disp_mgr_get until it reports no picture is such a drain. */
  method Drain(d: DisplayManager) returns (ghost got: seq<Entry>)
    requires d.Valid()
    modifies d.absPoc, d.ptr
    ensures d.Valid() && Waiting(d.View()) == map[]
    ensures IsDrain(old(Waiting(d.View())), got)
  {
    hide Waiting, IsDrain;
    ghost var w0 := Waiting(d.View());
    got := [];
    forall rest: seq<Entry> ensures got + rest == rest {}
    while true
      invariant d.Valid()
      invariant forall rest :: IsDrain(Waiting(d.View()), rest) ==> IsDrain(w0, got + rest)
      decreases Waiting(d.View()).Keys
    {
      label before: ghost var s, had := d.View(), got;
      var p, id := d.Get();
      if id == -1 {
        NothingToDrain();
        assert got + [] == got;
        return;
      }
      ghost var e := Entry(id, s.pocs[id], p);
      got := got + [e];
      RemoveTakesOut(s, id);
      forall rest | IsDrain(Waiting(d.View()), rest) ensures IsDrain(w0, got + rest) {
        DrainFrom(e, rest, Waiting(s));
        assert got + rest == had + ([e] + rest);
      }
    }
  }
}
