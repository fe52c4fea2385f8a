/** Numbers and flags as the text of XML attributes: printed by snprintf, read back by sscanf. */
module NumberText {
  import opened CInt
  import opened Options

  type uint32 = x: int | 0 <= x < TWO_32
  type uint64 = x: int | 0 <= x < TWO_64

  const TWO_63: int := 0x8000_0000_0000_0000
  type sint64 = x: int | -TWO_63 <= x < TWO_63

  /** A C string: no NUL inside. A char stands for one byte. */
  type text = s: string | '\0' !in s

  // ---------------------------------------------------------------------------------------
  // Decimal digits.
  // ---------------------------------------------------------------------------------------

  function Digit(d: int): char
    requires 0 <= d < 10
  {
    '0' + d as char
  }

  predicate IsDigit(c: char) { '0' <= c <= '9' }

  function DigitValue(c: char): nat
    requires IsDigit(c)
  {
    c as int - '0' as int
  }

  predicate IsBlank(c: char) { c == ' ' || '\t' <= c <= '\r' }

  /** "%u" */
  function PrintNat(n: nat): (s: text)
    ensures s != "" && forall i :: 0 <= i < |s| ==> IsDigit(s[i])
  {
    if n < 10 then [Digit(n)] else PrintNat(n / 10) + [Digit(n % 10)]
  }

  /** "%lld" */
  function PrintInt(n: int): text { if n < 0 then "-" + PrintNat(-n) else PrintNat(n) }

  /** The digits at the front of `s`, read after a number `read`. */
  function ReadDigits(s: string, read: nat): nat {
    if s == "" || !IsDigit(s[0]) then read else ReadDigits(s[1..], 10 * read + DigitValue(s[0]))
  }

  function ReadUnsigned(s: string): Option<int> {
    if s == "" || !IsDigit(s[0]) then None else Some(ReadDigits(s, 0))
  }

  /** What sscanf reads: blanks, perhaps a sign, digits, and whatever follows. */
  function ReadInt(s: string): Option<int> {
    if s == "" then None
    else if IsBlank(s[0]) then ReadInt(s[1..])
    else if s[0] == '-' || s[0] == '+' then
      match ReadUnsigned(s[1..])
      case None => None
      case Some(n) =>
        Some(if s[0] == '-' then -n else n)
    else ReadUnsigned(s)
  }

  lemma {:induction false} ReadDigitsAppend(a: string, b: string, read: nat)
    requires forall i :: 0 <= i < |a| ==> IsDigit(a[i])
    ensures ReadDigits(a + b, read) == ReadDigits(b, ReadDigits(a, read))
  {
    if a == "" {
      assert a + b == b;
    } else {
      assert (a + b)[0] == a[0] && (a + b)[1..] == a[1..] + b;
      ReadDigitsAppend(a[1..], b, 10 * read + DigitValue(a[0]));
    }
  }

  /** The digits are the decimal ones, the last one last; a minus sign stands in front. */
  lemma PrintedDigits(n: nat, d: nat)
    requires d < 10
    ensures PrintNat(d) == ["0123456789"[d]]
    ensures n > 0 ==> PrintNat(10 * n + d) == PrintNat(n) + ["0123456789"[d]]
    ensures PrintInt(n) == PrintNat(n) && (n > 0 ==> PrintInt(-(n as int)) == "-" + PrintNat(n))
  {
    assert Digit(d) == "0123456789"[d];
    assert (10 * n + d) / 10 == n && (10 * n + d) % 10 == d;
  }

  lemma {:induction false} ReadPrintNat(n: nat)
    ensures ReadDigits(PrintNat(n), 0) == n
  {
    if n >= 10 {
      ReadPrintNat(n / 10);
      ReadDigitsAppend(PrintNat(n / 10), [Digit(n % 10)], 0);
      OneDigit(n % 10, n / 10);
    } else {
      OneDigit(n, 0);
    }
  }

  lemma OneDigit(d: int, read: nat)
    requires 0 <= d < 10
    ensures ReadDigits([Digit(d)], read) == 10 * read + d
  {
    assert [Digit(d)][1..] == "";
    assert ReadDigits("", 10 * read + d) == 10 * read + d;
  }

  lemma ReadPrintInt(n: int)
    ensures ReadInt(PrintInt(n)) == Some(n)
  {
    var digits := PrintNat(if n < 0 then -n else n);
    ReadPrintNat(if n < 0 then -n else n);
    if n < 0 {
      assert PrintInt(n)[0] == '-' && PrintInt(n)[1..] == digits;
    } else {
      assert IsDigit(digits[0]);
    }
  }

  // ---------------------------------------------------------------------------------------
  // The three attribute types. Where a number does not fit its type, sscanf is taken to saturate or to truncate.
  // ---------------------------------------------------------------------------------------

  function ToInt64(s: string): Option<sint64> {
    match ReadInt(s)
    case None => None
    case Some(n) => Some(Clip3(-TWO_63, TWO_63 - 1, n))
  }

  function ToUnsigned(s: string): Option<uint32> {
    match ReadInt(s)
    case None => None
    case Some(n) => Some(ToUWord32(n))
  }

  function PrintBool(b: bool): text { if b then "true" else "false" }

  function ToBool(s: string): Option<bool> {
    match ReadInt(s)
    case Some(n) => Some(ToUWord32(n) != 0)
    case None => if s == "true" then Some(true) else if s == "false" then Some(false) else None
  }

  /** The casts between the unsigned numbers of the program and the signed ones of the document. */
  function AsSigned(n: uint64): sint64 { if n < TWO_63 then n else n - TWO_64 }
  function AsUnsigned(n: sint64): uint64 { if n >= 0 then n else n + TWO_64 }

  /** A 64-bit number survives the way through signed decimal text, also above 2^63. */
  lemma SurvivesAsSigned(n: uint64)
    ensures ToInt64(PrintInt(AsSigned(n))) == Some(AsSigned(n)) && AsUnsigned(AsSigned(n)) == n
  {
    ReadPrintInt(AsSigned(n));
  }

  lemma SurvivesAsUnsigned(n: uint32)
    ensures ToUnsigned(PrintNat(n)) == Some(n)
  {
    hide PrintNat, ReadInt;
    ReadPrintInt(n);
    assert PrintInt(n) == PrintNat(n);
  }

  lemma BoolSurvives(b: bool)
    ensures ToBool(PrintBool(b)) == Some(b)
  {
    assert ReadInt("true") == None && ReadInt("false") == None;
  }
}
