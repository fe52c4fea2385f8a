/** The masked search for code signatures in guest memory. Two of its three paths first compare the start of the
    signature without the mask, which is faster and agrees with the masked comparison only for some masks. */
module SignatureScan {
  import opened Options

  const NULL: nat := 0

  /** The addresses that are searched: every fourth one from `start` on, below `end`. Guest memory is `mem`, indexed
      by virtual address. */
  datatype Window = Window(start: nat, end: int) {
    predicate Has(a: int) { start <= a < end && (a - start) % 4 == 0 }
  }

  function Masked(b: bv8, m: bv8): bv8 { b & m }

  /** compareMasked's promise. */
  predicate Matches(mem: seq<bv8>, a: int, data: seq<bv8>, mask: seq<bv8>)
    requires 0 <= a && a + |data| <= |mem| && |data| == |mask|
  {
    forall i :: 0 <= i < |data| ==> Masked(mem[a + i], mask[i]) == Masked(data[i], mask[i])
  }

  predicate MatchesAll(mem: seq<bv8>, a: int, data: seq<bv8>)
    requires 0 <= a && a + |data| <= |mem|
  {
    forall i :: 0 <= i < |data| ==> mem[a + i] == data[i]
  }

  method CompareMasked(mem: seq<bv8>, a: nat, data: seq<bv8>, mask: seq<bv8>) returns (same: bool)
    requires a + |data| <= |mem| && |data| == |mask|
    ensures same == Matches(mem, a, data, mask)
  {
    var length, k := |data|, 0;
    while length > 0
      invariant 0 <= k <= |data| && length == |data| - k
      invariant forall i :: 0 <= i < k ==> Masked(mem[a + i], mask[i]) == Masked(data[i], mask[i])
    {
      var m := mask[k];
      if Masked(mem[a + k], m) != Masked(data[k], m) {
        return false;
      }
      k := k + 1;
      length := length - 1;
    }
    return true;
  }

  method CompareAll(mem: seq<bv8>, a: nat, data: seq<bv8>) returns (same: bool)
    requires a + |data| <= |mem|
    ensures same == MatchesAll(mem, a, data)
  {
    same := mem[a..a + |data|] == data;
    ghost var there := mem[a..a + |data|];
    assert forall i {:trigger mem[a + i]} {:trigger data[i]} :: 0 <= i < |data| ==> there[i] == mem[a + i];
  }

  /** A little-endian dword. */
  function Dword(s: seq<bv8>, i: nat): bv32
    requires i + 4 <= |s|
  {
    Join(s[i], s[i + 1], s[i + 2], s[i + 3])
  }

  function Join(a: bv8, b: bv8, c: bv8, d: bv8): bv32 {
    ((d as bv32) << 24) | ((c as bv32) << 16) | ((b as bv32) << 8) | (a as bv32)
  }

  lemma JoinIsExact(a: bv8, b: bv8, c: bv8, d: bv8, a': bv8, b': bv8, c': bv8, d': bv8)
    ensures Join(a, b, c, d) == Join(a', b', c', d') <==> a == a' && b == b' && c == c' && d == d'
  {
  }

  lemma FullMask(b: bv8, c: bv8, m: bv8)
    ensures m == 0xFF ==> (Masked(b, m) == Masked(c, m) <==> b == c)
  {
  }

  // ---------------------------------------------------------------------------------------
  // What a scan returns.
  // ---------------------------------------------------------------------------------------

  /** What the path that a call takes accepts at `a`. */
  ghost predicate Accepts(mem: seq<bv8>, a: int, data: seq<bv8>, mask: Option<seq<bv8>>)
    requires 0 <= a && a + |data| <= |mem| && (mask.Some? ==> |mask.value| == |data| > 0)
  {
    match mask
    case None => MatchesAll(mem, a, data)
    case Some(m) => (FirstDwordPath(m) || mem[a] == data[0]) && Matches(mem, a, data, m)
  }

  /** What a caller asks for. */
  ghost predicate Wanted(mem: seq<bv8>, a: int, data: seq<bv8>, mask: Option<seq<bv8>>)
    requires 0 <= a && a + |data| <= |mem| && (mask.Some? ==> |mask.value| == |data| > 0)
  {
    match mask
    case None => MatchesAll(mem, a, data)
    case Some(m) => Matches(mem, a, data, m)
  }

  predicate FirstDwordPath(mask: seq<bv8>) { |mask| >= 4 && Dword(mask, 0) == 0xFFFFFFFF }

  /** The caller's side: signature and mask of one length, guest memory covers the code area up to `maxCode`, and the
      end of the window, an unsigned 32-bit number, does not wrap. */
  predicate Searchable(mem: seq<bv8>, data: seq<bv8>, mask: Option<seq<bv8>>, codeArea: nat, maxCode: nat) {
    && 0 < codeArea && |data| <= maxCode <= |mem|
    && (mask.Some? ==> |mask.value| == |data| > 0)
  }

  function CodeWindow(data: seq<bv8>, codeArea: nat, maxCode: nat): Window { Window(codeArea, maxCode - |data|) }

  /** `r` is the lowest address of the window that `hit` holds of, or NULL when there is none. */
  ghost predicate Lowest(r: nat, w: Window, hit: int -> bool) {
    && (r != NULL ==> w.Has(r) && hit(r) && forall a :: w.Has(a) && a < r ==> !hit(a))
    && (r == NULL ==> forall a :: w.Has(a) ==> !hit(a))
  }

  ghost function Accepted(mem: seq<bv8>, data: seq<bv8>, mask: Option<seq<bv8>>): int -> bool
    requires mask.Some? ==> |mask.value| == |data| > 0
  {
    a => 0 <= a && a + |data| <= |mem| && Accepts(mem, a, data, mask)
  }

  ghost function Sought(mem: seq<bv8>, data: seq<bv8>, mask: Option<seq<bv8>>): int -> bool
    requires mask.Some? ==> |mask.value| == |data| > 0
  {
    a => 0 <= a && a + |data| <= |mem| && Wanted(mem, a, data, mask)
  }

  /** How far a scan has got without a hit. */
  ghost predicate NoneBelow(w: Window, hit: int -> bool, from: int) {
    && w.start <= from && (from - w.start) % 4 == 0
    && forall a :: w.Has(a) && a < from ==> !hit(a)
  }

  lemma NothingBefore(w: Window, hit: int -> bool)
    ensures NoneBelow(w, hit, w.start)
  {
  }

  lemma OneStep(w: Window, hit: int -> bool, from: nat)
    requires NoneBelow(w, hit, from) && 0 < w.start && from < w.end
    ensures if hit(from) then Lowest(from, w, hit) else NoneBelow(w, hit, from + 4)
  {
  }

  lemma AtEnd(w: Window, hit: int -> bool, from: nat)
    requires NoneBelow(w, hit, from) && from >= w.end
    ensures Lowest(NULL, w, hit)
  {
  }

  /** `r` is the lowest of the addresses codeArea, codeArea + 4, .. below `end` that `hit` holds of, or 0 when it holds of
      none of them. */
  ghost predicate LowestOfCode(r: nat, codeArea: nat, end: int, hit: int -> bool) {
    if r == 0 then forall a :: codeArea <= a < end && (a - codeArea) % 4 == 0 ==> !hit(a)
    else
      && codeArea <= r < end && (r - codeArea) % 4 == 0 && hit(r)
      && forall a :: codeArea <= a < r && (a - codeArea) % 4 == 0 ==> !hit(a)
  }

  lemma WindowIsCode(data: seq<bv8>, codeArea: nat, maxCode: nat, hit: int -> bool)
    requires 0 < codeArea
    ensures forall r: nat :: Lowest(r, CodeWindow(data, codeArea, maxCode), hit) <==>
                             LowestOfCode(r, codeArea, maxCode - |data|, hit)
  {
    var w := CodeWindow(data, codeArea, maxCode);
    assert forall a :: w.Has(a) <==> codeArea <= a < maxCode - |data| && (a - codeArea) % 4 == 0;
  }

  // ---------------------------------------------------------------------------------------
  // hle_locate
  // ---------------------------------------------------------------------------------------

  method Locate(mem: seq<bv8>, data: seq<bv8>, mask: Option<seq<bv8>>, codeArea: nat, maxCode: nat) returns (r: nat)
    requires Searchable(mem, data, mask, codeArea, maxCode)
    ensures Lowest(r, CodeWindow(data, codeArea, maxCode), Accepted(mem, data, mask))
    ensures LowestOfCode(r, codeArea, maxCode - |data|, Accepted(mem, data, mask))
    ensures (mask.Some? ==> mask.value[0] == 0xFF) ==>
              && Lowest(r, CodeWindow(data, codeArea, maxCode), Sought(mem, data, mask))
              && LowestOfCode(r, codeArea, maxCode - |data|, Sought(mem, data, mask))
  {
    WindowIsCode(data, codeArea, maxCode, Accepted(mem, data, mask));
    WindowIsCode(data, codeArea, maxCode, Sought(mem, data, mask));
    ghost var w, hit := CodeWindow(data, codeArea, maxCode), Accepted(mem, data, mask);
    if mask.Some? ==> mask.value[0] == 0xFF { AcceptedIsSought(mem, data, mask, w); }
    NothingBefore(w, hit);
    hide Matches, MatchesAll, Dword, Masked, Lowest, LowestOfCode, NoneBelow, Window.Has;
    var scanEnd, scanCurrent := maxCode - |data|, codeArea;
    if mask.Some? {
      if |data| >= 4 && Dword(mask.value, 0) == 0xFFFFFFFF {
        var firstDword := Dword(data, 0);
        while scanCurrent < scanEnd
          invariant codeArea <= scanCurrent && NoneBelow(w, hit, scanCurrent)
        {
          FirstDwordFollows(mem, scanCurrent, data, mask.value);
          var same := false;
          if Dword(mem, scanCurrent) == firstDword {
            same := CompareMasked(mem, scanCurrent, data, mask.value);
          }
          OneStep(w, hit, scanCurrent);
          if same {
            return scanCurrent;
          }
          scanCurrent := scanCurrent + 4;
        }
      } else {
        var firstByte := data[0];
        while scanCurrent < scanEnd
          invariant codeArea <= scanCurrent && NoneBelow(w, hit, scanCurrent)
        {
          var same := false;
          if mem[scanCurrent] == firstByte {
            same := CompareMasked(mem, scanCurrent, data, mask.value);
          }
          OneStep(w, hit, scanCurrent);
          if same {
            return scanCurrent;
          }
          scanCurrent := scanCurrent + 4;
        }
      }
    } else {
      while scanCurrent < scanEnd
        invariant codeArea <= scanCurrent && NoneBelow(w, hit, scanCurrent)
      {
        var same := CompareAll(mem, scanCurrent, data);
        OneStep(w, hit, scanCurrent);
        if same {
          return scanCurrent;
        }
        scanCurrent := scanCurrent + 4;
      }
    }
    AtEnd(w, hit, scanCurrent);
    return NULL;
  }

  /** A match under a mask whose first dword is all ones begins with the signature's first dword. */
  lemma FirstDwordFollows(mem: seq<bv8>, a: nat, data: seq<bv8>, mask: seq<bv8>)
    requires a + |data| <= |mem| && |data| == |mask| && FirstDwordPath(mask)
    ensures Matches(mem, a, data, mask) ==> Dword(mem, a) == Dword(data, 0)
  {
    if !Matches(mem, a, data, mask) { return; }
    JoinIsExact(mask[0], mask[1], mask[2], mask[3], 0xFF, 0xFF, 0xFF, 0xFF);
    forall i | 0 <= i < 4 ensures mem[a + i] == data[i] { FullMask(mem[a + i], data[i], mask[i]); }
    assert mem[a + 0] == data[0] && mem[a + 1] == data[1];
  }

  /** When the mask's first byte is all ones, neither prefilter turns a match away. */
  lemma PathsAgree(mem: seq<bv8>, data: seq<bv8>, mask: seq<bv8>)
    requires |mask| == |data| > 0 && mask[0] == 0xFF
    ensures forall a :: Accepted(mem, data, Some(mask))(a) == Sought(mem, data, Some(mask))(a)
  {
    forall a | 0 <= a && a + |data| <= |mem| && Matches(mem, a, data, mask) ensures mem[a] == data[0] {
      FullMask(mem[a + 0], data[0], mask[0]);
      assert Masked(mem[a + 0], mask[0]) == Masked(data[0], mask[0]);
    }
  }

  lemma AcceptedIsSought(mem: seq<bv8>, data: seq<bv8>, mask: Option<seq<bv8>>, w: Window)
    requires mask.Some? ==> |mask.value| == |data| > 0 && mask.value[0] == 0xFF
    ensures forall r :: Lowest(r, w, Accepted(mem, data, mask)) ==> Lowest(r, w, Sought(mem, data, mask))
  {
    hide Matches;
    if mask.Some? { PathsAgree(mem, data, mask.value); }
  }

  /** Whatever the memory, the first address accepted is the first match under the mask. */
  ghost predicate ScanIsRight(n: nat, data: seq<bv8>, mask: seq<bv8>, codeArea: nat, maxCode: nat)
    requires |mask| == |data| > 0
  {
    forall mem: seq<bv8>, r: nat ::
      |mem| == n && Lowest(r, CodeWindow(data, codeArea, maxCode), Accepted(mem, data, Some(mask))) ==>
        Lowest(r, CodeWindow(data, codeArea, maxCode), Sought(mem, data, Some(mask)))
  }

  /** That holds exactly when the mask's first byte is all ones or there is nowhere to search. */
  lemma ScanIsExact(n: nat, data: seq<bv8>, mask: seq<bv8>, codeArea: nat, maxCode: nat)
    requires |mask| == |data| > 0 && 0 < codeArea && |data| <= maxCode <= n
    ensures ScanIsRight(n, data, mask, codeArea, maxCode) <==> mask[0] == 0xFF || maxCode - |data| <= codeArea
  {
    hide Matches, Masked, Dword;
    if mask[0] == 0xFF {
      forall mem: seq<bv8> | |mem| == n
        ensures forall a :: Accepted(mem, data, Some(mask))(a) == Sought(mem, data, Some(mask))(a)
      {
        PathsAgree(mem, data, mask);
      }
    } else if codeArea < maxCode - |data| {
      MissedMatch(n, data, mask, codeArea, maxCode);
    }
  }

  /** A memory whose first match the scan walks past: the signature with a masked-out bit of its first byte changed. */
  lemma MissedMatch(n: nat, data: seq<bv8>, mask: seq<bv8>, codeArea: nat, maxCode: nat)
    requires |mask| == |data| > 0 && 0 < codeArea < maxCode - |data| && maxCode <= n && mask[0] != 0xFF
    ensures !ScanIsRight(n, data, mask, codeArea, maxCode)
  {
    var mem := seq(n, i => if i == codeArea then Other(data[0], mask[0])
                           else if codeArea < i < codeArea + |data| then data[i - codeArea] else 0);
    OtherDiffers(data[0], mask[0]);
    NotFullDword(mask);
    assert Matches(mem, codeArea, data, mask);
    hide Matches, Masked, Dword;
    var w := CodeWindow(data, codeArea, maxCode);
    assert w.Has(codeArea) && Sought(mem, data, Some(mask))(codeArea) && !Accepted(mem, data, Some(mask))(codeArea);
    var r := LowestExists(w, Accepted(mem, data, Some(mask)));
    assert r != codeArea;
  }

  /** `b` with the bits that the mask ignores inverted. */
  function Other(b: bv8, m: bv8): bv8 { b ^ (m ^ 0xFF) }

  lemma OtherDiffers(b: bv8, m: bv8)
    ensures Masked(Other(b, m), m) == Masked(b, m) && (m != 0xFF ==> Other(b, m) != b)
  {
  }

  lemma NotFullDword(mask: seq<bv8>)
    requires |mask| > 0 && mask[0] != 0xFF
    ensures !FirstDwordPath(mask)
  {
    if |mask| >= 4 { JoinIsExact(mask[0], mask[1], mask[2], mask[3], 0xFF, 0xFF, 0xFF, 0xFF); }
  }

  lemma {:induction false} LowestExists(w: Window, hit: int -> bool) returns (r: nat)
    requires w.start > 0
    ensures Lowest(r, w, hit)
  {
    r := LowestFrom(w, w.start, hit);
  }

  lemma {:induction false} LowestFrom(w: Window, from: int, hit: int -> bool) returns (r: nat)
    requires 0 < w.start && NoneBelow(w, hit, from)
    ensures Lowest(r, w, hit)
    decreases w.end - from
  {
    if from >= w.end {
      r := NULL;
    } else if hit(from) {
      r := from;
    } else {
      r := LowestFrom(w, from + 4, hit);
    }
  }
}
