/** Fixed-width integers, IEEE 754 bit patterns and the big-endian byte layout of
    java.io.DataOutput (writeShort, writeInt, writeLong, writeDouble) with the
    matching DataInput readers. */
module Binary {
  import opened Results

  type byte = x: int | 0 <= x < 256
  type int32 = x: int | -0x8000_0000 <= x < 0x8000_0000
  type int64 = x: int | -0x8000_0000_0000_0000 <= x < 0x8000_0000_0000_0000

  /** A Kotlin Double, kept as its raw 64-bit IEEE 754 pattern. */
  type Double = x: int | 0 <= x < 0x1_0000_0000_0000_0000

  function Pow256(k: nat): (p: nat)
    ensures p >= 1
  {
    if k == 0 then 1 else 256 * Pow256(k - 1)
  }

  lemma {:induction false} Pow256Values()
    ensures Pow256(2) == 0x1_0000
    ensures Pow256(4) == 0x1_0000_0000
    ensures Pow256(8) == 0x1_0000_0000_0000_0000
  {
  }

  /** The k-byte big-endian form of u. */
  function BigEndian(u: nat, k: nat): (s: seq<byte>)
    requires u < Pow256(k)
    ensures |s| == k
  {
    if k == 0 then [] else BigEndian(u / 256, k - 1) + [u % 256]
  }

  /** The unsigned value of a big-endian byte string. */
  function Unsigned(s: seq<byte>): (u: nat)
    ensures u < Pow256(|s|)
  {
    if s == [] then 0 else Unsigned(s[..|s| - 1]) * 256 + s[|s| - 1]
  }

  lemma {:induction false} UnsignedOfBigEndian(u: nat, k: nat)
    requires u < Pow256(k)
    ensures Unsigned(BigEndian(u, k)) == u
  {
    if k > 0 {
      var s := BigEndian(u, k);
      assert s[..k - 1] == BigEndian(u / 256, k - 1);
      UnsignedOfBigEndian(u / 256, k - 1);
    }
  }

  /** Two's complement of x in k bytes. */
  function TwosComplement(x: int, k: nat): (u: nat)
    requires -(Pow256(k) as int) <= 2 * x < Pow256(k)
    ensures u < Pow256(k)
  {
    if x < 0 then x + Pow256(k) else x
  }

  function FromTwosComplement(u: nat, k: nat): (x: int)
    requires u < Pow256(k)
    ensures -(Pow256(k) as int) <= 2 * x < Pow256(k)
  {
    if 2 * u >= Pow256(k) then u - Pow256(k) else u
  }

  /** Bytes of writeShort for an unsigned 16-bit length, as writeUTF emits it. */
  function WriteUnsignedShort(n: nat): (s: seq<byte>)
    requires n < 0x1_0000
    ensures |s| == 2
  {
    Pow256Values();
    BigEndian(n, 2)
  }

  /** writeInt: four bytes, high byte first. */
  function WriteInt(x: int32): (s: seq<byte>)
    ensures |s| == 4
  {
    Pow256Values();
    BigEndian(TwosComplement(x, 4), 4)
  }

  /** writeLong: eight bytes, high byte first. */
  function WriteLong(x: int64): (s: seq<byte>)
    ensures |s| == 8
  {
    Pow256Values();
    BigEndian(TwosComplement(x, 8), 8)
  }

  /** A reader consumes a prefix of the bytes and hands back the rest;
      too few bytes is DataInput's EOFException. */
  function ReadUnsignedShort(s: seq<byte>): (r: Result<(nat, seq<byte>)>)
    ensures r.Ok? ==> |s| >= 2 && r.value.0 < 0x1_0000 && r.value.1 == s[2..]
    ensures r.Ok? <==> |s| >= 2
  {
    Pow256Values();
    if |s| < 2 then Thrown(EndOfFile) else Ok((Unsigned(s[..2]), s[2..]))
  }

  function ReadInt(s: seq<byte>): (r: Result<(int32, seq<byte>)>)
    ensures r.Ok? ==> |s| >= 4 && r.value.1 == s[4..]
    ensures r.Ok? <==> |s| >= 4
  {
    Pow256Values();
    if |s| < 4 then Thrown(EndOfFile) else Ok((FromTwosComplement(Unsigned(s[..4]), 4), s[4..]))
  }

  function ReadLong(s: seq<byte>): (r: Result<(int64, seq<byte>)>)
    ensures r.Ok? ==> |s| >= 8 && r.value.1 == s[8..]
    ensures r.Ok? <==> |s| >= 8
  {
    Pow256Values();
    if |s| < 8 then Thrown(EndOfFile) else Ok((FromTwosComplement(Unsigned(s[..8]), 8), s[8..]))
  }

  lemma {:induction false} ReadUnsignedShortOfWrite(n: nat, rest: seq<byte>)
    requires n < 0x1_0000
    ensures ReadUnsignedShort(WriteUnsignedShort(n) + rest) == Ok((n, rest))
  {
    Pow256Values();
    var s := WriteUnsignedShort(n) + rest;
    assert s[..2] == BigEndian(n, 2);
    UnsignedOfBigEndian(n, 2);
    assert s[2..] == rest;
  }

  lemma {:induction false} ReadIntOfWrite(x: int32, rest: seq<byte>)
    ensures ReadInt(WriteInt(x) + rest) == Ok((x, rest))
  {
    Pow256Values();
    var s := WriteInt(x) + rest;
    assert s[..4] == BigEndian(TwosComplement(x, 4), 4);
    UnsignedOfBigEndian(TwosComplement(x, 4), 4);
    assert s[4..] == rest;
  }

  lemma {:induction false} ReadLongOfWrite(x: int64, rest: seq<byte>)
    ensures ReadLong(WriteLong(x) + rest) == Ok((x, rest))
  {
    Pow256Values();
    var s := WriteLong(x) + rest;
    assert s[..8] == BigEndian(TwosComplement(x, 8), 8);
    UnsignedOfBigEndian(TwosComplement(x, 8), 8);
    assert s[8..] == rest;
  }

  // ---- IEEE 754 double precision, on the bit pattern ----

  const SignBit: int := 0x8000_0000_0000_0000
  const CanonicalNaN: Double := 0x7FF8_0000_0000_0000
  /** The pattern of the double 3.0. */
  const Three: Double := 0x4008_0000_0000_0000

  predicate IsNaN(x: Double) {
    (x % SignBit) / 0x10_0000_0000_0000 == 0x7FF && x % 0x10_0000_0000_0000 != 0
  }

  /** `x < 0.0`: a set sign bit on a non-zero, non-NaN value (-0.0 is not below 0.0). */
  predicate IsBelowZero(x: Double) {
    x >= SignBit && x % SignBit != 0 && !IsNaN(x)
  }

  /** `x in 0.0..3.0`, both ends included; NaN is in no range and -0.0 equals 0.0.
      Among non-negative doubles the bit patterns are ordered as the values are. */
  predicate IsWithinZeroToThree(x: Double) {
    !IsNaN(x) && (if x >= SignBit then x % SignBit == 0 else x <= Three)
  }

  /** Double.doubleToLongBits: the pattern as a Long, every NaN collapsed to the canonical one. */
  function DoubleToLongBits(x: Double): int64 {
    Pow256Values();
    FromTwosComplement(if IsNaN(x) then CanonicalNaN else x, 8)
  }

  /** Double.longBitsToDouble. */
  function LongBitsToDouble(l: int64): Double {
    Pow256Values();
    TwosComplement(l, 8)
  }

  /** What survives a trip through doubleToLongBits: x itself unless x is a NaN. */
  function Canonical(x: Double): (c: Double)
    ensures !IsNaN(x) ==> c == x
    ensures IsNaN(x) ==> c == CanonicalNaN
  {
    Pow256Values();
    LongBitsToDouble(DoubleToLongBits(x))
  }

  /** writeDouble is writeLong(doubleToLongBits(x)). */
  function WriteDouble(x: Double): (s: seq<byte>)
    ensures |s| == 8
  {
    WriteLong(DoubleToLongBits(x))
  }

  function ReadDouble(s: seq<byte>): (r: Result<(Double, seq<byte>)>)
    ensures r.Ok? ==> |s| >= 8 && r.value.1 == s[8..]
    ensures r.Ok? <==> |s| >= 8
  {
    var (l, rest) :- ReadLong(s);
    Ok((LongBitsToDouble(l), rest))
  }

  lemma {:induction false} ReadDoubleOfWrite(x: Double, rest: seq<byte>)
    ensures ReadDouble(WriteDouble(x) + rest) == Ok((Canonical(x), rest))
  {
    ReadLongOfWrite(DoubleToLongBits(x), rest);
  }
}
