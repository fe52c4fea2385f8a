/** Bit fields of a byte string, most significant bit first. */
module BigEndianBits {
  import opened CInt

  function Pow2(n: nat): (r: nat)
    ensures r > 0
  {
    if n == 0 then 1 else 2 * Pow2(n - 1)
  }

  function Bit(data: seq<byte>, i: nat): (b: nat)
    requires i / 8 < |data|
    ensures b <= 1
  {
    data[i / 8] / Pow2(7 - i % 8) % 2
  }

  /** The number spelled by the `n` bits from bit `i` on. */
  function Bits(data: seq<byte>, i: nat, n: nat): (r: nat)
    requires n > 0 ==> (i + n - 1) / 8 < |data|
    ensures r < Pow2(n)
  {
    if n == 0 then 0 else 2 * Bits(data, i, n - 1) + Bit(data, i + n - 1)
  }

  lemma {:induction false} BitsSplit(data: seq<byte>, i: nat, a: nat, b: nat)
    requires a + b > 0 ==> (i + a + b - 1) / 8 < |data|
    ensures Bits(data, i, a + b) == Bits(data, i, a) * Pow2(b) + Bits(data, i + a, b)
  {
    hide Bit;
    if b > 0 {
      BitsSplit(data, i, a, b - 1);
      Twice(Bits(data, i, a), Pow2(b - 1));
      assert Pow2(b) == 2 * Pow2(b - 1);
    }
  }

  lemma Twice(x: nat, p: nat)
    ensures x * (2 * p) == 2 * (x * p)
  {
  }

  lemma Powers()
    ensures Pow2(0) == 1 && Pow2(1) == 2 && Pow2(2) == 4 && Pow2(3) == 8 && Pow2(4) == 16
    ensures Pow2(5) == 32 && Pow2(6) == 64 && Pow2(7) == 128 && Pow2(8) == 256
    ensures Pow2(13) == 8192 && Pow2(15) == 32768 && Pow2(16) == 65536
  {
    assert Pow2(8) == 16 * Pow2(4);
    assert Pow2(12) == 16 * Pow2(8);
    assert Pow2(16) == 16 * Pow2(12);
  }

  lemma BitOfByte(data: seq<byte>, k: nat, m: nat)
    requires k < |data| && m < 8
    ensures Bit(data, 8 * k + m) == data[k] / Pow2(7 - m) % 2
  {
    hide Pow2;
    assert (8 * k + m) / 8 == k && (8 * k + m) % 8 == m;
  }

  /** The top bits of a byte. */
  lemma {:induction false} TopOfByte(data: seq<byte>, k: nat, n: nat)
    requires k < |data| && n <= 8
    ensures Bits(data, 8 * k, n) == data[k] / Pow2(8 - n)
  {
    if n == 0 {
      Powers();
    } else {
      assert Bits(data, 8 * k, n) == 2 * Bits(data, 8 * k, n - 1) + Bit(data, 8 * k + n - 1);
      hide Bits, Pow2, Bit;
      TopOfByte(data, k, n - 1);
      BitOfByte(data, k, n - 1);
      HalfAgain(data[k], 8 - n);
      Halves(data[k] / Pow2(8 - n));
    }
  }

  lemma Halves(h: nat)
    ensures 2 * (h / 2) + h % 2 == h
  {
  }

  lemma HalfAgain(x: nat, n: nat)
    ensures x / Pow2(n + 1) == x / Pow2(n) / 2
  {
    var p := Pow2(n);
    var q, r := x / p, x % p;
    assert x == (q / 2) * (2 * p) + (q % 2) * p + r;
    assert (q % 2) * p + r < 2 * p by { if q % 2 == 1 { assert (q % 2) * p == p; } }
    QuotientIs(x, 2 * p, q / 2, (q % 2) * p + r);
  }

  lemma OnlyQuotient(d: nat, q: nat, r: nat, q': nat, r': nat)
    requires r < d && r' < d && q * d + r == q' * d + r'
    ensures q == q' && r == r'
  {
    if q < q' {
      AtLeastOne(q' - q, d);
    } else if q' < q {
      AtLeastOne(q - q', d);
    }
    assert (q - q') * d == r' - r;
  }

  lemma AtLeastOne(n: nat, d: nat)
    requires n >= 1
    ensures n * d >= d
  {
  }

  lemma QuotientIs(x: nat, d: nat, q: nat, r: nat)
    requires d > 0 && x == q * d + r && r < d
    ensures x / d == q && x % d == r
  {
    OnlyQuotient(d, q, r, x / d, x % d);
  }

  lemma ByteIsBits(data: seq<byte>, k: nat)
    requires k < |data|
    ensures Bits(data, 8 * k, 8) == data[k]
  {
    TopOfByte(data, k, 8);
    assert Pow2(0) == 1;
  }

  lemma TwoBytes(data: seq<byte>, k: nat)
    requires k + 1 < |data|
    ensures Bits(data, 8 * k, 16) == data[k] as int * 256 + data[k + 1]
  {
    Powers();
    ByteIsBits(data, k);
    ByteIsBits(data, k + 1);
    BitsSplit(data, 8 * k, 8, 8);
  }

  lemma ThreeBytes(data: seq<byte>, k: nat)
    requires k + 2 < |data|
    ensures Bits(data, 8 * k, 24) == data[k] as int * 65536 + data[k + 1] as int * 256 + data[k + 2]
  {
    Powers();
    TwoBytes(data, k);
    ByteIsBits(data, k + 2);
    BitsSplit(data, 8 * k, 16, 8);
  }

  /** A field of `n` bits inside `w` bits: shift the tail away, then mask. */
  lemma FieldOf(data: seq<byte>, i: nat, skip: nat, n: nat, tail: nat)
    requires skip + n + tail > 0 ==> (i + skip + n + tail - 1) / 8 < |data|
    ensures Bits(data, i, skip + n + tail) / Pow2(tail) % Pow2(n) == Bits(data, i + skip, n)
  {
    hide Bits, Pow2, Bit;
    BitsSplit(data, i, skip + n, tail);
    BitsSplit(data, i, skip, n);
    var above, field, below := Bits(data, i, skip), Bits(data, i + skip, n), Bits(data, i + skip + n, tail);
    assert Bits(data, i, skip + n + tail) == (above * Pow2(n) + field) * Pow2(tail) + below;
    ShiftAndMask(Bits(data, i, skip + n + tail), above, field, below, Pow2(n), Pow2(tail));
  }

  lemma ShiftAndMask(w: nat, a: nat, x: nat, c: nat, n: nat, t: nat)
    requires x < n && c < t && w == (a * n + x) * t + c
    ensures w / t % n == x
  {
    QuotientIs(w, t, a * n + x, c);
    QuotientIs(a * n + x, n, a, x);
  }
}
