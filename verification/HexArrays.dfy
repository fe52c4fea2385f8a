/** Byte arrays as the text of a settings element: two hexadecimal digits a byte. */
module HexArrays {
  import opened CInt
  import opened Options

  function HexDigit(d: int): char
    requires 0 <= d < 16
  {
    if d < 10 then '0' + d as char else 'a' + (d - 10) as char
  }

  /** char2int; None where it throws. */
  function CharToInt(c: char): (r: Option<int>)
    ensures r.Some? ==> 0 <= r.value < 16
  {
    if '0' <= c <= '9' then Some(c as int - '0' as int)
    else if 'A' <= c <= 'F' then Some(c as int - 'A' as int + 10)
    else if 'a' <= c <= 'f' then Some(c as int - 'a' as int + 10)
    else None
  }

  /** Digits of either case are read, and nothing else. */
  lemma DigitsRead(c: char)
    ensures forall d :: 0 <= d < 16 && (c == "0123456789abcdef"[d] || c == "0123456789ABCDEF"[d]) ==>
                          CharToInt(c) == Some(d)
    ensures c !in "0123456789abcdef" && c !in "0123456789ABCDEF" ==> CharToInt(c) == None
  {
    forall d | 0 <= d < 16 && (c == "0123456789abcdef"[d] || c == "0123456789ABCDEF"[d])
      ensures CharToInt(c) == Some(d)
    {
      CasesOfDigit(c, d);
    }
    if CharToInt(c).Some? { DigitOf(c, CharToInt(c).value); }
  }

  lemma CasesOfDigit(c: char, d: int)
    requires 0 <= d < 16 && (c == "0123456789abcdef"[d] || c == "0123456789ABCDEF"[d])
    ensures CharToInt(c) == Some(d)
  {
  }

  lemma DigitOf(c: char, d: int)
    requires CharToInt(c) == Some(d)
    ensures 0 <= d < 16 && (c == "0123456789abcdef"[d] || c == "0123456789ABCDEF"[d])
  {
  }

  /** "{:02x}" for every byte. */
  function Hex(s: seq<byte>): (r: string)
    ensures |r| == 2 * |s|
  {
    if s == [] then "" else Hex(s[..|s| - 1]) + [HexDigit(s[|s| - 1] / 16), HexDigit(s[|s| - 1] % 16)]
  }

  /** The byte that the two characters at place `2 * i` stand for. */
  predicate Spells(t: string, i: nat, b: byte)
    requires 2 * i + 1 < |t|
  {
    CharToInt(t[2 * i]) == Some(b / 16) && CharToInt(t[2 * i + 1]) == Some(b % 16)
  }

  predicate AllHex(t: string) { forall i :: 0 <= i < |t| ==> CharToInt(t[i]).Some? }

  method SetArray(value: seq<byte>) returns (str: string)
    ensures str == Hex(value)
  {
    str := "";
    for i := 0 to |value|
      invariant str == Hex(value[..i])
    {
      str := str + [HexDigit(value[i] / 16), HexDigit(value[i] % 16)];
      assert value[..i + 1][..i] == value[..i];
    }
    assert value[..|value|] == value;
  }

  /** The source asserts that the text is twice as long as the array; it throws at a character that is no digit, with
      the bytes before it already stored. */
  method GetArray(t: string, arr: array<byte>) returns (ok: bool)
    requires |t| == 2 * arr.Length
    modifies arr
    ensures ok == AllHex(t)
    ensures ok ==> AllSpelled(t, arr[..])
  {
    forall i | 0 <= i < arr.Length { arr[i] := 0; }
    for i := 0 to arr.Length
      invariant forall k :: 0 <= k < i ==> Spells(t, k, arr[k])
      invariant forall k :: 0 <= k < 2 * i ==> CharToInt(t[k]).Some?
    {
      var hi, lo := CharToInt(t[i * 2]), CharToInt(t[i * 2 + 1]);
      if hi == None || lo == None {
        return false;
      }
      TwoDigits(hi.value, lo.value);
      arr[i] := 16 * hi.value + lo.value;
    }
    return true;
  }

  lemma TwoDigits(hi: int, lo: int)
    requires 0 <= hi < 16 && 0 <= lo < 16
    ensures (16 * hi + lo) / 16 == hi && (16 * hi + lo) % 16 == lo
  {
  }

  lemma {:induction false} HexSpells(s: seq<byte>, i: nat)
    requires i < |s|
    ensures Spells(Hex(s), i, s[i])
  {
    var n := |s| - 1;
    if i < n {
      HexSpells(s[..n], i);
    } else {
      DigitBack(s[n] / 16);
      DigitBack(s[n] % 16);
    }
  }

  lemma DigitBack(d: int)
    requires 0 <= d < 16
    ensures CharToInt(HexDigit(d)) == Some(d)
  {
  }

  /** The digits are lower-case. */
  lemma {:induction false} HexIsLowerCase(s: seq<byte>, k: nat)
    requires k < 2 * |s|
    ensures '0' <= Hex(s)[k] <= '9' || 'a' <= Hex(s)[k] <= 'f'
  {
    var n := |s| - 1;
    if k < 2 * n { HexIsLowerCase(s[..n], k); }
  }

  /** The text that SetArray makes of `s` is accepted, and GetArray can fill an array with nothing but `s` from it. */
  lemma HexRoundTrip(s: seq<byte>)
    ensures AllHex(Hex(s))
    ensures forall r: seq<byte> :: |r| == |s| && AllSpelled(Hex(s), r) ==> r == s
  {
    hide CharToInt, Spells, Hex;
    forall k | 0 <= k < |Hex(s)| ensures CharToInt(Hex(s)[k]).Some? { HexIsAccepted(s, k / 2, k % 2); }
    forall r: seq<byte> | |r| == |s| && AllSpelled(Hex(s), r) ensures r == s { SpelledOnce(s, r); }
  }

  lemma HexIsAccepted(s: seq<byte>, i: nat, second: nat)
    requires i < |s| && second < 2
    ensures CharToInt(Hex(s)[2 * i + second]).Some?
  {
    hide CharToInt, Hex;
    HexSpells(s, i);
  }

  predicate AllSpelled(t: string, r: seq<byte>)
    requires |t| == 2 * |r|
  {
    forall i :: 0 <= i < |r| ==> Spells(t, i, r[i])
  }

  lemma SpelledOnce(s: seq<byte>, r: seq<byte>)
    requires |r| == |s| && AllSpelled(Hex(s), r)
    ensures r == s
  {
    forall i | 0 <= i < |s| ensures r[i] == s[i] {
      HexSpells(s, i);
      assert Spells(Hex(s), i, r[i]);
      var b: int, c: int := r[i], s[i];
      assert b == 16 * (b / 16) + b % 16 && c == 16 * (c / 16) + c % 16;
    }
  }

  /** So an array that was set and is got again is what it was. */
  method SetThenGet(value: seq<byte>, arr: array<byte>) returns (ok: bool)
    requires arr.Length == |value|
    modifies arr
    ensures ok && arr[..] == value
  {
    var str := SetArray(value);
    HexRoundTrip(value);
    ok := GetArray(str, arr);
  }
}
