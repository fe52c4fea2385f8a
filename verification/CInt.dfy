/** The C integer types and macros that the modelled sources compute with. */
module CInt {

  /** UWORD8 */
  type byte = x: int | 0 <= x < 256

  const MAX_INT32: int := 0x7FFF_FFFF
  const TWO_32: int := 0x1_0000_0000
  const TWO_64: int := 0x1_0000_0000_0000_0000

  /** The value a C variable of each narrow type holds after `v` is assigned to it. */
  function ToUWord8(v: int): byte { v % 256 }
  function ToWord8(v: int): int { (v + 128) % 256 - 128 }
  function ToWord16(v: int): int { (v + 32768) % 65536 - 32768 }
  function ToUWord32(v: int): nat { v % TWO_32 }

  /** Each keeps the number modulo the range of its type. */
  lemma ByteWidths(v: int)
    ensures 0 <= ToUWord8(v) < 256 && (v - ToUWord8(v)) % 256 == 0
    ensures -128 <= ToWord8(v) < 128 && (v - ToWord8(v)) % 256 == 0
  {
  }

  lemma Word16Width(v: int)
    ensures -32768 <= ToWord16(v) < 32768 && (v - ToWord16(v)) % 65536 == 0
  {
  }

  lemma Word32Width(v: int)
    ensures 0 <= ToUWord32(v) < 0x1_0000_0000 && (v - ToUWord32(v)) % 0x1_0000_0000 == 0
  {
  }

  function Abs(x: int): nat { if x < 0 then -x else x }

  /** The CLIP3 macro: the lower bound is tested first, which matters when `lo > hi`. */
  function Clip3(lo: int, hi: int, x: int): int {
    if x < lo then lo else if x > hi then hi else x
  }

  function ClipU8(x: int): byte { Clip3(0, 255, x) }

  /** Arithmetic right shifts; Dafny's division rounds down as they do. */
  function Shr1(n: int): int { n / 2 }
  function Shr2(n: int): (r: int)
    ensures 0 <= n < 1024 ==> 0 <= r < 256
  {
    n / 4
  }
  function Shr3(n: int): (r: int)
    ensures 0 <= n < 2048 ==> 0 <= r < 256
  {
    n / 8
  }
  function Shr5(n: int): int { n / 32 }
  function Shr6(n: int): int { n / 64 }
}
