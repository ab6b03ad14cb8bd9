/** Fixed-width integers and the big-endian codec of Go's encoding/binary. */
module Numbers {

  type Byte = b: int | 0 <= b < 0x100

  const TWO_31: int := 0x8000_0000
  const TWO_32: int := 0x1_0000_0000
  const TWO_63: int := 0x8000_0000_0000_0000
  const TWO_64: int := 0x1_0000_0000_0000_0000

  type Int64 = x: int | -0x8000_0000_0000_0000 <= x < 0x8000_0000_0000_0000

  /** The conversion uint64(x). */
  function ToUint64(x: Int64): (u: int)
    ensures 0 <= u < TWO_64
  {
    if x < 0 then x + TWO_64 else x
  }

  /** The conversion int64(u). */
  function ToInt64(u: int): Int64
    requires 0 <= u < TWO_64
  {
    if u < TWO_63 then u else u - TWO_64
  }

  /** The int64 that a computation with mathematical result x leaves in a register. */
  function Wrap64(x: int): Int64 {
    ToInt64(x % TWO_64)
  }

  lemma WrapIsIdentity(x: int)
    ensures Wrap64(x) == x <==> -TWO_63 <= x < TWO_63
  {
  }

  function Pow256(n: nat): (p: int)
    ensures p >= 1
  {
    if n == 0 then 1 else 256 * Pow256(n - 1)
  }

  /** PutUint32/PutUint64: the width lowest bytes of n, most significant first. */
  function BigEndian(n: nat, width: nat): (bytes: seq<Byte>)
    ensures |bytes| == width
  {
    if width == 0 then [] else BigEndian(n / 256, width - 1) + [n % 256]
  }

  /** Uint32/Uint64: the number that bytes spell, most significant first. */
  function FromBigEndian(bytes: seq<Byte>): (n: nat)
  {
    if bytes == [] then 0
    else FromBigEndian(bytes[..|bytes| - 1]) * 256 + bytes[|bytes| - 1]
  }

  lemma {:induction false} FromBigEndianBound(bytes: seq<Byte>)
    ensures FromBigEndian(bytes) < Pow256(|bytes|)
  {
    if bytes != [] {
      FromBigEndianBound(bytes[..|bytes| - 1]);
    }
  }

  /** What was put is what is got. */
  lemma {:induction false} GetAfterPut(n: nat, width: nat)
    requires n < Pow256(width)
    ensures FromBigEndian(BigEndian(n, width)) == n
  {
    if width > 0 {
      GetAfterPut(n / 256, width - 1);
      assert BigEndian(n, width)[..width - 1] == BigEndian(n / 256, width - 1);
    }
  }

  /** Every byte string of the width is the encoding of the number it spells. */
  lemma {:induction false} PutAfterGet(bytes: seq<Byte>)
    ensures BigEndian(FromBigEndian(bytes), |bytes|) == bytes
  {
    if bytes != [] {
      PutAfterGet(bytes[..|bytes| - 1]);
    }
  }

  /** Byte i of the form is digit width - 1 - i to the base 256: the most significant comes first. */
  lemma {:induction false} BigEndianByte(n: nat, width: nat, i: nat)
    requires i < width
    ensures BigEndian(n, width)[i] == n / Pow256(width - 1 - i) % 256
  {
    if i < width - 1 {
      BigEndianByte(n / 256, width - 1, i);
      DivideTwice(n, Pow256(width - 2 - i));
    }
  }

  lemma DivideTwice(n: nat, p: int)
    requires p >= 1
    ensures n / 256 / p == n / (256 * p)
  {
    var q, r := n / 256 / p, n / 256 % p;
    assert n / 256 == q * p + r;
    var low := 256 * r + n % 256;
    assert n == q * (256 * p) + low;
    assert 0 <= low < 256 * p;
    QuotientIs(n, 256 * p, q, low);
  }

  lemma QuotientIs(n: nat, d: int, q: int, r: int)
    requires d > 0 && n == q * d + r && 0 <= r < d
    ensures n / d == q
  {
    var p, low := n / d, n % d;
    assert n == p * d + low && 0 <= low < d;
    assert (p - q) * d == r - low;
    SmallMultiple(p - q, d);
  }

  lemma SmallMultiple(k: int, d: int)
    requires -d < k * d < d
    ensures k == 0
  {
  }

  /** A register keeps a number modulo 2^64. */
  lemma WrapIsModular(x: int)
    ensures (Wrap64(x) - x) % TWO_64 == 0
    ensures ToUint64(Wrap64(x)) == x % TWO_64
  {
  }

  lemma Pow256Values()
    ensures Pow256(4) == TWO_32 && Pow256(8) == TWO_64
  {
    assert Pow256(2) == 0x1_0000;
    assert Pow256(4) == TWO_32;
    assert Pow256(6) == 0x1_0000_0000_0000;
  }

  /** An int64 survives the eight bytes it is written to. */
  lemma Int64RoundTrip(x: Int64)
    ensures FromBigEndian(BigEndian(ToUint64(x), 8)) == ToUint64(x)
    ensures ToInt64(ToUint64(x)) == x
  {
    Pow256Values();
    GetAfterPut(ToUint64(x), 8);
  }

  lemma Uint32RoundTrip(n: nat)
    requires n < TWO_32
    ensures FromBigEndian(BigEndian(n, 4)) == n
  {
    Pow256Values();
    GetAfterPut(n, 4);
  }

  /** Eight bytes always spell a uint64. */
  lemma Uint64Bound(bytes: seq<Byte>)
    requires |bytes| == 8
    ensures FromBigEndian(bytes) < TWO_64
  {
    Pow256Values();
    FromBigEndianBound(bytes);
  }
}
