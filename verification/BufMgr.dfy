/** The buffer manager of the H.264 decoder: up to 64 picture buffers, each with a status word whose bits say who still
    needs it. A buffer is free when its status is 0. Every operation runs under the manager's lock, so a history of the
    manager is a sequence of whole operations. */
module BufMgr {
  const MAX_CNT: nat := 64
  type Status = bv32
  const IN_USE: Status := 1

  /** A pointer; 0 is NULL. */
  type Pointer = nat

  datatype State = State(status: seq<Status>, ptrs: seq<Pointer>, active: nat)

  predicate WellFormed(s: State) { |s.status| == MAX_CNT && |s.ptrs| == MAX_CNT && s.active <= MAX_CNT }

  /** As the decoder sets the manager up: buffers were added under ids 0, 1, 2, .. without gaps, each once. */
  predicate Dense(s: State) { WellFormed(s) && forall id :: 0 <= id < MAX_CNT ==> (s.ptrs[id] != 0 <==> id < s.active) }

  /** And no two were the same buffer. */
  predicate Distinct(s: State) {
    WellFormed(s) && forall i, j :: 0 <= i < j < s.active ==> s.ptrs[i] != s.ptrs[j]
  }

  predicate Free(s: State, id: int)
    requires WellFormed(s)
  {
    0 <= id < s.active && s.status[id] == 0 && s.ptrs[id] != 0
  }

  /** What ih264_buf_mgr_release makes of a status: the mask's bits go, and if IN_USE alone is left, it goes too. */
  function Released(status: Status, mask: Status): Status {
    var rest := status & !mask;
    if rest == IN_USE then 0 else rest
  }

  /** ih264_buf_mgr_set_status tests whether a bit of the mask is set already, and sets them. */
  predicate HasBits(status: Status, mask: Status) { status & mask != 0 }
  function WithBits(status: Status, mask: Status): Status { status | mask }

  /** None of the mask's bits is set. */
  predicate NoneSet(status: Status, mask: Status) { status & mask == 0 }

  /** All of the mask's bits are set in `after`, and the others are as they were. */
  predicate AllSet(before: Status, mask: Status, after: Status) {
    after & mask == mask && after & !mask == before & !mask
  }

  lemma SetAll(status: Status, mask: Status)
    ensures WithBits(status, mask) & mask == mask
  {
  }

  lemma SetOnly(status: Status, mask: Status)
    ensures WithBits(status, mask) & !mask == status & !mask
  {
  }

  /** What set_status tests and sets. */
  lemma SettingBits(status: Status, mask: Status)
    ensures HasBits(status, mask) <==> !NoneSet(status, mask)
    ensures AllSet(status, mask, WithBits(status, mask))
  {
    SetAll(status, mask);
    SetOnly(status, mask);
    hide WithBits;
  }

  /** After a release the buffer is free exactly when no bit but IN_USE was left. */
  lemma ReleaseFrees(status: Status, mask: Status)
    ensures Released(status, mask) == 0 <==> status & !mask & !IN_USE == 0
    ensures Released(status, mask) != 0 ==> Released(status, mask) == status & !mask
  {
    var rest := status & !mask;
    OnlyInUse(rest);
  }

  lemma OnlyInUse(b: Status)
    ensures b & !IN_USE == 0 <==> b == 0 || b == IN_USE
  {
  }

  class BufferManager {
    const au4Status: array<Status>
    const ptr: array<Pointer>
    var active: nat

    ghost function View(): State
      reads this, au4Status, ptr
    {
      State(au4Status[..], ptr[..], active)
    }

    /** All that Add relies on. */
    ghost predicate Allocated()
      reads this
    {
      au4Status as object != ptr && au4Status.Length == MAX_CNT && ptr.Length == MAX_CNT
    }

    ghost predicate Valid()
      reads this, au4Status, ptr
    {
      Allocated() && WellFormed(View())
    }

    /** ih264_buf_mgr_init */
    constructor ()
      ensures Valid() && active == 0 && fresh(au4Status) && fresh(ptr)
      ensures Dense(View()) && Distinct(View())
      ensures forall id :: 0 <= id < MAX_CNT ==> au4Status[id] == 0
    {
      au4Status := new Status[MAX_CNT];
      ptr := new Pointer[MAX_CNT];
      active := 0;
      new;
      for id := 0 to MAX_CNT
        invariant forall i :: 0 <= i < id ==> au4Status[i] == 0 && ptr[i] == 0
        invariant active == 0
        modifies au4Status, ptr
      {
        au4Status[id] := 0;
        ptr[id] := 0;
      }
    }

    /** ih264_buf_mgr_add: refused for an id out of range or one that holds another buffer. What is not refused is
        counted, even a buffer added again, so that more may be counted than there are; Valid() then ends. */
    method Add(p: Pointer, id: nat) returns (ok: bool)
      requires Allocated()
      modifies this`active, ptr
      ensures Allocated() && (Valid() <==> active <= MAX_CNT)
      ensures old(Valid()) ==> Step(old(View()), Op.Add(p, id), View())
      ensures ok <==> id < 64 && (old(ptr[..])[id] == 0 || old(ptr[..])[id] == p)
      ensures View() == if ok then old(State(au4Status[..], ptr[..][id := p], active + 1)) else old(View())
    {
      if id >= MAX_CNT {
        return false;
      }
      if ptr[id] != 0 && ptr[id] != p {
        return false;
      }
      ptr[id] := p;
      active := active + 1;
      return true;
    }

    /** ih264_buf_mgr_get_next_free: the free buffer with the lowest id, now in use; NULL when none is free. */
    method GetNextFree() returns (p: Pointer, bufId: int)
      requires Valid()
      modifies au4Status
      ensures Valid()
      ensures p == 0 <==> forall id :: 0 <= id < active ==> !old(Free(View(), id))
      ensures p == 0 ==> View() == old(View())
      ensures p != 0 ==>
                && old(Free(View(), bufId)) && p == ptr[bufId]
                && (forall id :: 0 <= id < bufId ==> !old(Free(View(), id)))
                && View() == old(State(au4Status[..][bufId := IN_USE], ptr[..], active))
                && old(au4Status[..])[bufId] == 0 && au4Status[bufId] == 1
                && forall id :: 0 <= id < bufId ==> old(au4Status[..])[id] != 0 || ptr[id] == 0
      ensures p == 0 <==> forall id :: 0 <= id < active ==> old(au4Status[..])[id] != 0 || ptr[id] == 0
      ensures Step(old(View()), Op.GetNextFree, View())
    {
      p, bufId := 0, -1;
      for id := 0 to active
        invariant View() == old(View())
        invariant forall i :: 0 <= i < id ==> !Free(View(), i) && (au4Status[i] != 0 || ptr[i] == 0)
      {
        if au4Status[id] == 0 && ptr[id] != 0 {
          assert old(Free(View(), id));
          assert old(IsLowestFree(View(), id));
          bufId := id;
          au4Status[id] := IN_USE;
          p := ptr[id];
          return;
        }
      }
    }

    /** ih264_buf_mgr_check_free */
    method CheckFree() returns (ok: bool)
      requires Valid()
      ensures ok <==> exists id :: 0 <= id < active && Free(View(), id)
      ensures ok <==> exists id :: 0 <= id < active && au4Status[id] == 0 && ptr[id] != 0
    {
      for id := 0 to active
        invariant forall i :: 0 <= i < id ==> !Free(View(), i) && (au4Status[i] != 0 || ptr[i] == 0)
      {
        if au4Status[id] == 0 && ptr[id] != 0 {
          assert Free(View(), id);
          return true;
        }
      }
      return false;
    }

    /** ih264_buf_mgr_release */
    method Release(id: nat, mask: Status) returns (ok: bool)
      requires Valid()
      modifies au4Status
      ensures Valid() && (ok <==> id < active)
      ensures View() == if ok then old(State(au4Status[..][id := Released(au4Status[id], mask)], ptr[..], active))
                        else old(View())
      ensures ok ==> au4Status[id] == if old(au4Status[..])[id] & !mask == 1 then 0 else old(au4Status[..])[id] & !mask
      ensures Step(old(View()), Op.Release(id, mask), View())
    {
      if id >= active {
        return false;
      }
      au4Status[id] := au4Status[id] & !mask;
      if au4Status[id] == IN_USE {
        au4Status[id] := 0;
      }
      return true;
    }

    /** ih264_buf_mgr_set_status: refused if one of the bits is set already. */
    method SetStatus(id: nat, mask: Status) returns (ok: bool)
      requires Valid()
      modifies au4Status
      ensures Valid() && (ok <==> id < active && !HasBits(old(au4Status[..])[id], mask))
      ensures View() == if ok then old(State(au4Status[..][id := WithBits(au4Status[id], mask)], ptr[..], active))
                        else old(View())
      ensures ok <==> id < active && NoneSet(old(au4Status[..])[id], mask)
      ensures ok ==> AllSet(old(au4Status[..])[id], mask, au4Status[id])
      ensures Step(old(View()), Op.SetStatus(id, mask), View())
    {
      hide HasBits, WithBits, NoneSet, AllSet;
      if id < active { SettingBits(au4Status[id], mask); }
      if id >= active {
        return false;
      }
      if HasBits(au4Status[id], mask) {
        return false;
      }
      au4Status[id] := WithBits(au4Status[id], mask);
      return true;
    }

    /** ih264_buf_mgr_get_buf; the code does not check the id. */
    method GetBuf(id: nat) returns (p: Pointer)
      requires Valid() && id < MAX_CNT
      ensures p == ptr[id]
    {
      p := ptr[id];
    }

    /** ih264_buf_mgr_get_bufid: the lowest id under which the buffer was added, or -1. */
    method GetBufId(p: Pointer) returns (bufId: int)
      requires Valid()
      ensures -1 <= bufId < active
      ensures bufId == -1 <==> forall id :: 0 <= id < active ==> ptr[id] != p
      ensures bufId >= 0 ==> ptr[bufId] == p && forall id :: 0 <= id < bufId ==> ptr[id] != p
    {
      for id := 0 to active
        invariant forall i :: 0 <= i < id ==> ptr[i] != p
      {
        if ptr[id] == p {
          return id;
        }
      }
      return -1;
    }

    /** ih264_buf_mgr_get_status */
    method GetStatus(id: nat) returns (status: Status)
      requires Valid() && id < MAX_CNT
      ensures status == au4Status[id]
    {
      status := au4Status[id];
    }
  }

  /** ih264_buf_mgr_check_free succeeds exactly when ih264_buf_mgr_get_next_free, called next, would find a buffer. */
  method CheckThenGet(m: BufferManager) returns (ok: bool, p: Pointer)
    requires m.Valid()
    modifies m.au4Status
    ensures ok <==> p != 0
  {
    ok := m.CheckFree();
    var id;
    p, id := m.GetNextFree();
  }

  /** ih264_buf_mgr_get_buf and ih264_buf_mgr_get_bufid undo each other on the buffers added. */
  method IdOfBuf(m: BufferManager, id: nat) returns (id': int)
    requires m.Valid() && Distinct(m.View()) && id < m.active
    ensures id' == id
  {
    var p := m.GetBuf(id);
    id' := m.GetBufId(p);
  }

  method BufOfId(m: BufferManager, p: Pointer) returns (p': Pointer)
    requires m.Valid() && exists id :: 0 <= id < m.active && m.ptr[id] == p
    ensures p' == p
  {
    var id := m.GetBufId(p);
    p' := m.GetBuf(id);
  }

  // ---------------------------------------------------------------------------------------
  // Histories.
  // ---------------------------------------------------------------------------------------

  datatype Op =
    | Add(p: Pointer, id: nat)
    | GetNextFree
    | Release(id: nat, mask: Status)
    | SetStatus(id: nat, mask: Status)
    | Look                                // the operations that change nothing

  /** `t` is what the operation makes of `s`, as the methods' contracts say. */
  predicate Step(s: State, op: Op, t: State)
    requires WellFormed(s)
  {
    match op
    case Add(p, id) =>
      t == if id < MAX_CNT && (s.ptrs[id] == 0 || s.ptrs[id] == p)
           then State(s.status, s.ptrs[id := p], s.active + 1) else s
    case GetNextFree =>
      || (t == s && forall id :: 0 <= id < s.active ==> !Free(s, id))
      || (exists id | 0 <= id < s.active :: IsLowestFree(s, id) && HandsOut(s, t, id))
    case Release(id, mask) =>
      t == if id < s.active then s.(status := s.status[id := Released(s.status[id], mask)]) else s
    case SetStatus(id, mask) =>
      t == if id < s.active && !HasBits(s.status[id], mask)
           then s.(status := s.status[id := WithBits(s.status[id], mask)]) else s
    case Look => t == s
  }

  predicate IsLowestFree(s: State, id: int)
    requires WellFormed(s)
  {
    Free(s, id) && forall i :: 0 <= i < id ==> !Free(s, i)
  }

  /** GetNextFree hands out buffer `id`. */
  predicate HandsOut(s: State, t: State, id: int)
    requires WellFormed(s)
  {
    Free(s, id) && t == s.(status := s.status[id := IN_USE])
  }

  /** The discipline of adding: the next id, a buffer that is not there yet; calls that are refused do no harm. */
  predicate GoodAdd(s: State, op: Op)
    requires WellFormed(s)
  {
    op.Add? && op.id < MAX_CNT && (s.ptrs[op.id] == 0 || s.ptrs[op.id] == op.p) ==>
      op.id == s.active && op.p != 0 && forall i :: 0 <= i < |s.ptrs| ==> s.ptrs[i] != op.p
  }

  predicate IsHistory(ops: seq<Op>, states: seq<State>) {
    && |states| == |ops| + 1 && Dense(states[0]) && Distinct(states[0])
    && (forall i :: 0 <= i < |states| ==> WellFormed(states[i]))
    && forall i :: 0 <= i < |ops| ==> GoodAdd(states[i], ops[i]) && Step(states[i], ops[i], states[i + 1])
  }

  lemma StepKeepsOrder(s: State, op: Op, t: State)
    requires Dense(s) && Distinct(s) && GoodAdd(s, op) && Step(s, op, t) && WellFormed(t)
    ensures Dense(t) && Distinct(t) && t.active >= s.active
    ensures forall id :: 0 <= id < s.active ==> t.ptrs[id] == s.ptrs[id]
  {
  }

  lemma {:induction false} HistoryKeepsOrder(ops: seq<Op>, states: seq<State>, i: nat, j: nat)
    requires IsHistory(ops, states) && i <= j < |states|
    ensures Dense(states[j]) && Distinct(states[j]) && states[j].active >= states[i].active
    ensures Dense(states[i]) && Distinct(states[i])
    ensures forall id :: 0 <= id < states[i].active ==> states[j].ptrs[id] == states[i].ptrs[id]
    decreases j
  {
    hide Step, Dense, Distinct, GoodAdd;
    if j > 0 {
      HistoryKeepsOrder(ops, states, if i < j then i else j - 1, j - 1);
      StepKeepsOrder(states[j - 1], ops[j - 1], states[j]);
    }
  }

  /** The buffer handed out by step `k`. */
  predicate HandedOut(states: seq<State>, k: nat, id: nat, p: Pointer)
    requires k + 1 < |states| && WellFormed(states[k])
  {
    HandsOut(states[k], states[k + 1], id) && states[k].ptrs[id] == p
  }

  /** A buffer's status only returns to 0 through a release that leaves no bit but IN_USE. */
  lemma OnlyReleaseFrees(s: State, op: Op, t: State, id: nat)
    requires WellFormed(s) && WellFormed(t) && Step(s, op, t) && id < s.active
    requires s.status[id] != 0 && t.status[id] == 0
    ensures op.Release? && op.id == id && s.status[id] & !op.mask & !IN_USE == 0
  {
    hide Released, WithBits, HasBits;
    match op
    case Add(p, i) =>
    case GetNextFree =>
    case Release(i, mask) => ReleaseFrees(s.status[id], mask);
    case SetStatus(i, mask) => OrKeeps(s.status[id], mask);
    case Look =>
  }

  lemma OrKeeps(a: Status, b: Status)
    requires a != 0
    ensures WithBits(a, b) != 0
  {
  }

  /** So between a state in which it is not 0 and one in which it is, somebody released its last bit. */
  lemma {:induction false} ReleasedBetween(ops: seq<Op>, states: seq<State>, i: nat, j: nat, id: nat)
    requires IsHistory(ops, states) && i <= j < |states| && id < states[i].active
    requires states[i].status[id] != 0 && states[j].status[id] == 0
    ensures exists k :: i <= k < j && ops[k].Release? && ops[k].id == id
                        && states[k].status[id] & !ops[k].mask & !IN_USE == 0
    decreases j
  {
    hide Dense, Distinct, Step;
    HistoryKeepsOrder(ops, states, i, j - 1);
    if states[j - 1].status[id] == 0 {
      ReleasedBetween(ops, states, i, j - 1, id);
    } else {
      OnlyReleaseFrees(states[j - 1], ops[j - 1], states[j], id);
    }
  }

  /** In every history, whatever is interleaved with what: a buffer that was handed out is not handed out again until its
      status is 0 again, and for that somebody had to release the last of its bits. */
  lemma NotHandedOutTwice(ops: seq<Op>, states: seq<State>, i: nat, j: nat, idI: nat, idJ: nat, p: Pointer)
    requires IsHistory(ops, states) && i < j < |ops|
    requires HandedOut(states, i, idI, p) && HandedOut(states, j, idJ, p)
    ensures idI == idJ && states[i + 1].status[idI] != 0 && states[j].status[idI] == 0
    ensures exists k :: i < k < j && ops[k].Release? && ops[k].id == idI
                        && states[k].status[idI] & !ops[k].mask & !IN_USE == 0
  {
    HistoryKeepsOrder(ops, states, i, j);
    HistoryKeepsOrder(ops, states, i, i + 1);
    assert states[j].ptrs[idI] == p;
    ReleasedBetween(ops, states, i + 1, j, idI);
  }

  // ---------------------------------------------------------------------------------------
  // Bits are references: a buffer is kept while one is set.
  // ---------------------------------------------------------------------------------------

  /** All of `bits` are set. */
  predicate Holds(status: Status, bits: Status) { status & bits == bits }

  /** `bits` are some bits other than IN_USE. */
  predicate References(bits: Status) { bits != 0 && bits & 1 == 0 }

  /** The operation releases one of `bits` of buffer `id`. */
  predicate Drops(op: Op, id: nat, bits: Status) { op.Release? && op.id == id && op.mask & bits != 0 }

  lemma HeldIsBusy(status: Status, bits: Status)
    requires Holds(status, bits) && References(bits)
    ensures status != 0
  {
  }

  lemma HeldIsNotOnlyInUse(status: Status, bits: Status)
    requires Holds(status, bits) && References(bits)
    ensures status != IN_USE
  {
  }

  lemma SettingKeeps(status: Status, mask: Status, bits: Status)
    requires Holds(status, bits)
    ensures Holds(WithBits(status, mask), bits)
  {
  }

  lemma ClearingKeeps(status: Status, mask: Status, bits: Status)
    requires Holds(status, bits) && mask & bits == 0
    ensures Holds(status & !mask, bits)
  {
  }

  lemma ReleasingKeeps(status: Status, mask: Status, bits: Status)
    requires Holds(status, bits) && References(bits) && mask & bits == 0
    ensures Holds(Released(status, mask), bits)
  {
    ClearingKeeps(status, mask, bits);
    HeldIsNotOnlyInUse(status & !mask, bits);
    hide Holds, References;
  }

  lemma StepKeepsBits(s: State, op: Op, t: State, id: nat, bits: Status)
    requires WellFormed(s) && WellFormed(t) && Step(s, op, t) && id < s.active
    requires Holds(s.status[id], bits) && References(bits) && !Drops(op, id, bits)
    ensures Holds(t.status[id], bits)
  {
    hide Holds, References, WithBits, Released, HasBits;
    HeldIsBusy(s.status[id], bits);
    match op
    case Add(p, i) =>
    case GetNextFree =>
    case Release(i, mask) => if !Drops(op, id, bits) && i == id { ReleasingKeeps(s.status[id], mask, bits); }
    case SetStatus(i, mask) => SettingKeeps(s.status[id], mask, bits);
    case Look =>
  }

  /** In every history: what is set of the bits stays set until somebody releases one of them. */
  lemma {:induction false} HeldUntilDropped(ops: seq<Op>, states: seq<State>, i: nat, j: nat, id: nat, bits: Status)
    requires IsHistory(ops, states) && i <= j < |states| && id < states[i].active
    requires Holds(states[i].status[id], bits) && References(bits)
    requires forall k :: i <= k < j ==> !Drops(ops[k], id, bits)
    ensures Holds(states[j].status[id], bits)
    decreases j
  {
    hide Holds, References, Dense, Distinct, Step, Drops;
    if i < j {
      HeldUntilDropped(ops, states, i, j - 1, id, bits);
      HistoryKeepsOrder(ops, states, i, j - 1);
      StepKeepsBits(states[j - 1], ops[j - 1], states[j], id, bits);
    }
  }

  /** In every history: when set_status has set a bit other than IN_USE of a buffer, the buffer is not handed out again
      before a release whose mask holds one of the bits set. */
  lemma NotHandedOutWhileHeld(ops: seq<Op>, states: seq<State>, i: nat, j: nat, id: nat, mask: Status, bits: Status,
                              p: Pointer)
    requires IsHistory(ops, states) && i < j < |ops| && ops[i] == SetStatus(id, mask)
    requires id < states[i].active && states[i].status[id] & mask == 0
    requires bits & mask == bits && References(bits) && HandedOut(states, j, id, p)
    ensures exists k :: i < k < j && Drops(ops[k], id, bits)
  {
    SetHolds(states[i].status[id], mask, bits);
    HistoryKeepsOrder(ops, states, i, i + 1);
    if forall k :: i < k < j ==> !Drops(ops[k], id, bits) {
      HeldUntilDropped(ops, states, i + 1, j, id, bits);
      HeldIsBusy(states[j].status[id], bits);
      assert false;
    }
  }

  lemma SetHolds(status: Status, mask: Status, bits: Status)
    requires status & mask == 0 && bits & mask == bits
    ensures !HasBits(status, mask) && Holds(WithBits(status, mask), bits)
  {
  }
}
