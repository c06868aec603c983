/** Character encodings the storage adapters go through: the UTF-16 code units of a
    JVM String, the standard UTF-8 of File.readLines / writeText / appendText, and
    the modified UTF-8 of DataOutput.writeUTF / DataInput.readUTF. */
module Unicode {
  import opened Results
  import opened Binary

  // ---- UTF-16 ----

  /** A UTF-16 code unit, one JVM `char`. */
  type Unit = x: int | 0 <= x < 0x1_0000

  predicate IsHighSurrogate(u: Unit) { 0xD800 <= u < 0xDC00 }
  predicate IsLowSurrogate(u: Unit) { 0xDC00 <= u < 0xE000 }

  /** The code units of one scalar value: itself, or a surrogate pair. */
  function CharUnits(c: char): (us: seq<Unit>)
    ensures 1 <= |us| <= 2
  {
    var n := c as int;
    if n < 0x1_0000 then [n]
    else [0xD800 + (n - 0x1_0000) / 0x400, 0xDC00 + (n - 0x1_0000) % 0x400]
  }

  /** The code units of a string, as the JVM stores it. */
  function ToUtf16(s: string): seq<Unit> {
    if s == [] then [] else CharUnits(s[0]) + ToUtf16(s[1..])
  }

  /** The string a sequence of code units spells. A lone surrogate, which a JVM String
      may hold but a Dafny string may not, reads as U+FFFD. */
  function FromUtf16(us: seq<Unit>): string
    decreases |us|
  {
    if us == [] then []
    else if IsHighSurrogate(us[0]) && |us| >= 2 && IsLowSurrogate(us[1]) then
      var hi: int, lo: int := us[0], us[1];
      [((hi - 0xD800) * 0x400 + (lo - 0xDC00) + 0x1_0000) as char] + FromUtf16(us[2..])
    else if IsHighSurrogate(us[0]) || IsLowSurrogate(us[0]) then
      ['\U{FFFD}'] + FromUtf16(us[1..])
    else
      [us[0] as char] + FromUtf16(us[1..])
  }

  lemma {:induction false} FromUtf16OfCharUnits(c: char, rest: seq<Unit>)
    ensures FromUtf16(CharUnits(c) + rest) == [c] + FromUtf16(rest)
  {
    var us := CharUnits(c) + rest;
    if c as int < 0x1_0000 {
      assert us[1..] == rest;
    } else {
      assert us[2..] == rest;
    }
  }

  lemma {:induction false} FromUtf16OfToUtf16(s: string)
    ensures FromUtf16(ToUtf16(s)) == s
  {
    if s != [] {
      FromUtf16OfCharUnits(s[0], ToUtf16(s[1..]));
      FromUtf16OfToUtf16(s[1..]);
    }
  }

  lemma {:induction false} ToUtf16Append(s: string, t: string)
    ensures ToUtf16(s + t) == ToUtf16(s) + ToUtf16(t)
  {
    if s != [] {
      assert (s + t)[0] == s[0] && (s + t)[1..] == s[1..] + t;
      ToUtf16Append(s[1..], t);
    } else {
      assert s + t == t;
    }
  }

  // ---- modified UTF-8 (DataOutput.writeUTF) ----

  /** The bytes writeUTF emits for one code unit: U+0000 takes two bytes. */
  function UnitMutf8(u: Unit): (bs: seq<byte>)
    ensures 1 <= |bs| <= 3
  {
    if 1 <= u < 0x80 then [u]
    else if u < 0x800 then [0xC0 + u / 64, 0x80 + u % 64]
    else [0xE0 + u / 4096, 0x80 + (u / 64) % 64, 0x80 + u % 64]
  }

  function Mutf8(us: seq<Unit>): seq<byte> {
    if us == [] then [] else UnitMutf8(us[0]) + Mutf8(us[1..])
  }

  predicate IsContinuation(b: byte) { 0x80 <= b < 0xC0 }

  /** The six payload bits of a continuation byte. */
  function Low6(b: byte): (v: int)
    ensures 0 <= v < 64
  {
    b % 64
  }

  function ConsUnit(u: Unit, rest: Option<seq<Unit>>): Option<seq<Unit>> {
    match rest
    case Some(us) => Some([u] + us)
    case None => None
  }

  /** DataInput.readUTF's decoding of the payload; None where it throws
      UTFDataFormatException (a bad lead byte, a bad continuation byte, or a
      character cut off at the end). Overlong forms are accepted, as the JDK does. */
  function Mutf8Decode(bs: seq<byte>): Option<seq<Unit>>
    decreases |bs|
  {
    if bs == [] then Some([])
    else
      var c: int := bs[0];
      if c < 0x80 then ConsUnit(c, Mutf8Decode(bs[1..]))
      else if 0xC0 <= c < 0xE0 then
        if |bs| < 2 || !IsContinuation(bs[1]) then None
        else ConsUnit((c - 0xC0) * 64 + Low6(bs[1]), Mutf8Decode(bs[2..]))
      else if 0xE0 <= c < 0xF0 then
        if |bs| < 3 || !IsContinuation(bs[1]) || !IsContinuation(bs[2]) then None
        else ConsUnit((c - 0xE0) * 4096 + Low6(bs[1]) * 64 + Low6(bs[2]), Mutf8Decode(bs[3..]))
      else None
  }

  lemma {:induction false} Mutf8DecodeOfUnit(u: Unit, rest: seq<byte>)
    ensures Mutf8Decode(UnitMutf8(u) + rest) == ConsUnit(u, Mutf8Decode(rest))
  {
    var bs := UnitMutf8(u) + rest;
    if 1 <= u < 0x80 {
      assert bs[1..] == rest;
    } else if u < 0x800 {
      Mutf8DecodeOfTwo(u, rest);
    } else {
      Mutf8DecodeOfThree(u, rest);
    }
  }

  lemma {:induction false} Mutf8DecodeOfTwo(u: Unit, rest: seq<byte>)
    requires (u == 0 || 0x80 <= u) && u < 0x800
    ensures Mutf8Decode(UnitMutf8(u) + rest) == ConsUnit(u, Mutf8Decode(rest))
  {
    var bs := UnitMutf8(u) + rest;
    assert bs[0] == 0xC0 + u / 64 && bs[1] == 0x80 + u % 64;
    assert Low6(bs[1]) == u % 64;
    assert bs[2..] == rest;
  }

  lemma {:induction false} Mutf8DecodeOfThree(u: Unit, rest: seq<byte>)
    requires 0x800 <= u
    ensures Mutf8Decode(UnitMutf8(u) + rest) == ConsUnit(u, Mutf8Decode(rest))
  {
    var bs := UnitMutf8(u) + rest;
    assert bs[0] == 0xE0 + u / 4096 && bs[1] == 0x80 + (u / 64) % 64 && bs[2] == 0x80 + u % 64;
    assert Low6(bs[1]) == (u / 64) % 64 && Low6(bs[2]) == u % 64;
    assert (u / 4096) * 4096 + ((u / 64) % 64) * 64 + u % 64 == u;
    assert bs[3..] == rest;
  }

  lemma {:induction false} Mutf8DecodeOfMutf8(us: seq<Unit>)
    ensures Mutf8Decode(Mutf8(us)) == Some(us)
  {
    if us != [] {
      var tail := Mutf8(us[1..]);
      assert Mutf8(us) == UnitMutf8(us[0]) + tail;
      Mutf8DecodeOfUnit(us[0], tail);
      Mutf8DecodeOfMutf8(us[1..]);
      assert [us[0]] + us[1..] == us;
    }
  }

  /** The payload writeUTF emits for s. */
  function Utf(s: string): seq<byte> {
    Mutf8(ToUtf16(s))
  }

  lemma {:induction false} Mutf8Append(a: seq<Unit>, b: seq<Unit>)
    ensures Mutf8(a + b) == Mutf8(a) + Mutf8(b)
  {
    if a != [] {
      assert (a + b)[0] == a[0] && (a + b)[1..] == a[1..] + b;
      Mutf8Append(a[1..], b);
    } else {
      assert a + b == b;
    }
  }

  /** The payload length writeUTF counts for a code unit: one byte for U+0001 to
      U+007F, two up to U+07FF and for U+0000, three above. */
  function UnitSize(u: Unit): (n: nat)
    ensures n == |UnitMutf8(u)|
  {
    if 1 <= u < 0x80 then 1 else if u < 0x800 then 2 else 3
  }

  /** The count for a character: that of its one or two code units (both units of a
      surrogate pair count three). */
  function CharSize(c: char): (n: nat)
    ensures n <= 6
  {
    var n := c as int;
    if n < 0x1_0000 then UnitSize(n) else 6
  }

  /** The payload length writeUTF computes before it writes anything. */
  function UtfSize(s: string): nat {
    if s == [] then 0 else CharSize(s[0]) + UtfSize(s[1..])
  }

  /** Strings writeUTF accepts: at most 65535 payload bytes. */
  predicate FitsUtf(s: string) { UtfSize(s) < 0x1_0000 }

  lemma {:induction false} CharSizeIsLength(c: char)
    ensures |Mutf8(CharUnits(c))| == CharSize(c)
  {
    var us := CharUnits(c);
    if |us| == 2 {
      assert Mutf8(us) == UnitMutf8(us[0]) + Mutf8(us[1..]);
      assert Mutf8(us[1..]) == UnitMutf8(us[1]) + Mutf8([]);
    } else {
      assert Mutf8(us) == UnitMutf8(us[0]) + Mutf8(us[1..]);
    }
  }

  /** The count is the length of the payload. */
  lemma {:induction false} UtfSizeIsLength(s: string)
    ensures |Utf(s)| == UtfSize(s)
  {
    if s != [] {
      Mutf8Append(CharUnits(s[0]), ToUtf16(s[1..]));
      CharSizeIsLength(s[0]);
      UtfSizeIsLength(s[1..]);
    }
  }

  lemma {:induction false} UtfSizeBound(s: string)
    ensures UtfSize(s) <= 6 * |s|
  {
    if s != [] {
      UtfSizeBound(s[1..]);
    }
  }

  /** Every string of up to 10000 characters fits writeUTF's length field. */
  lemma {:induction false} ShortFitsUtf(s: string)
    requires |s| <= 10000
    ensures FitsUtf(s)
  {
    UtfSizeBound(s);
  }

  /** DataOutput.writeUTF: a two-byte length, then the payload; a payload over
      65535 bytes throws UTFDataFormatException before anything is written. */
  function WriteUtf(s: string): (r: Result<seq<byte>>)
    ensures r.Ok? <==> FitsUtf(s)
    ensures r.Ok? ==> |r.value| == 2 + |Utf(s)|
    ensures !r.Ok? ==> r == Thrown(UtfDataFormat)
  {
    UtfSizeIsLength(s);
    if UtfSize(s) < 0x1_0000 then Ok(WriteUnsignedShort(UtfSize(s)) + Utf(s)) else Thrown(UtfDataFormat)
  }

  /** DataInput.readUTF: EOFException when the bytes run out before the announced
      length, UTFDataFormatException for a malformed payload. */
  function ReadUtf(s: seq<byte>): (r: Result<(string, seq<byte>)>)
    ensures r.Ok? ==> |r.value.1| <= |s| - 2 && r.value.1 == s[|s| - |r.value.1|..]
  {
    var (n, rest) :- ReadUnsignedShort(s);
    if |rest| < n then Thrown(EndOfFile)
    else match Mutf8Decode(rest[..n])
      case Some(us) => Ok((FromUtf16(us), rest[n..]))
      case None => Thrown(UtfDataFormat)
  }

  lemma {:induction false} ReadUtfOfWrite(s: string, rest: seq<byte>)
    requires FitsUtf(s)
    ensures ReadUtf(WriteUtf(s).value + rest) == Ok((s, rest))
  {
    var payload := Utf(s);
    UtfSizeIsLength(s);
    var bs := WriteUnsignedShort(|payload|) + (payload + rest);
    assert WriteUtf(s).value + rest == bs;
    ReadUnsignedShortOfWrite(|payload|, payload + rest);
    assert (payload + rest)[..|payload|] == payload;
    assert (payload + rest)[|payload|..] == rest;
    Mutf8DecodeOfMutf8(ToUtf16(s));
    FromUtf16OfToUtf16(s);
  }

  // ---- standard UTF-8 ----

  /** The UTF-8 bytes of one scalar value. */
  function CharUtf8(c: char): (bs: seq<byte>)
    ensures 1 <= |bs| <= 4
  {
    var n := c as int;
    if n < 0x80 then [n]
    else if n < 0x800 then [0xC0 + n / 64, 0x80 + n % 64]
    else if n < 0x1_0000 then [0xE0 + n / 4096, 0x80 + (n / 64) % 64, 0x80 + n % 64]
    else [0xF0 + n / 262144, 0x80 + (n / 4096) % 64, 0x80 + (n / 64) % 64, 0x80 + n % 64]
  }

  /** String.toByteArray(UTF_8): what writeText and appendText store. */
  function Utf8(s: string): seq<byte> {
    if s == [] then [] else CharUtf8(s[0]) + Utf8(s[1..])
  }

  predicate IsScalar(n: int) { 0 <= n < 0xD800 || 0xE000 <= n < 0x11_0000 }

  /** The code point a well-formed sequence at the head of bs spells, with its
      length; None when the head is malformed (a bad lead or continuation byte, an
      overlong form, a surrogate, or a value past U+10FFFF). */
  function DecodeHead(bs: seq<byte>): (r: Option<(char, nat)>)
    requires bs != []
    ensures r.Some? ==> 1 <= r.value.1 <= |bs|
  {
    var c: int := bs[0];
    if c < 0x80 then Some((c as char, 1))
    else if 0xC0 <= c < 0xE0 && |bs| >= 2 && IsContinuation(bs[1]) then
      var n := (c - 0xC0) * 64 + Low6(bs[1]);
      if n >= 0x80 then Some((n as char, 2)) else None
    else if 0xE0 <= c < 0xF0 && |bs| >= 3 && IsContinuation(bs[1]) && IsContinuation(bs[2]) then
      var n := (c - 0xE0) * 4096 + Low6(bs[1]) * 64 + Low6(bs[2]);
      if n >= 0x800 && IsScalar(n) then Some((n as char, 3)) else None
    else if 0xF0 <= c < 0xF8 && |bs| >= 4 && IsContinuation(bs[1]) && IsContinuation(bs[2]) && IsContinuation(bs[3]) then
      var n := (c - 0xF0) * 262144 + Low6(bs[1]) * 4096 + Low6(bs[2]) * 64 + Low6(bs[3]);
      if 0x1_0000 <= n < 0x11_0000 then Some((n as char, 4)) else None
    else None
  }

  /** A UTF-8 decoder that replaces malformed input by U+FFFD, as readLines and
      readText do; this one replaces one byte at a time. */
  function Utf8Decode(bs: seq<byte>): string
    decreases |bs|
  {
    if bs == [] then []
    else match DecodeHead(bs)
      case Some((c, k)) => [c] + Utf8Decode(bs[k..])
      case None => ['\U{FFFD}'] + Utf8Decode(bs[1..])
  }

  lemma {:induction false} DecodeHeadOfChar(c: char, rest: seq<byte>)
    ensures DecodeHead(CharUtf8(c) + rest) == Some((c, |CharUtf8(c)|))
  {
    var n := c as int;
    if n < 0x80 {
    } else if n < 0x800 {
      DecodeHeadOfTwo(c, rest);
    } else if n < 0x1_0000 {
      DecodeHeadOfThree(c, rest);
    } else {
      DecodeHeadOfFour(c, rest);
    }
  }

  lemma {:induction false} DecodeHeadOfTwo(c: char, rest: seq<byte>)
    requires 0x80 <= c as int < 0x800
    ensures DecodeHead(CharUtf8(c) + rest) == Some((c, 2))
  {
    var n := c as int;
    var bs := CharUtf8(c) + rest;
    assert bs[0] == 0xC0 + n / 64 && bs[1] == 0x80 + n % 64;
    assert Low6(bs[1]) == n % 64;
  }

  lemma {:induction false} DecodeHeadOfThree(c: char, rest: seq<byte>)
    requires 0x800 <= c as int < 0x1_0000
    ensures DecodeHead(CharUtf8(c) + rest) == Some((c, 3))
  {
    var n := c as int;
    var bs := CharUtf8(c) + rest;
    assert bs[0] == 0xE0 + n / 4096 && bs[1] == 0x80 + (n / 64) % 64 && bs[2] == 0x80 + n % 64;
    assert Low6(bs[1]) == (n / 64) % 64 && Low6(bs[2]) == n % 64;
    assert (n / 4096) * 4096 + ((n / 64) % 64) * 64 + n % 64 == n;
  }

  /** n in base 64, four digits. */
  lemma {:induction false} Base64Digits(n: nat)
    ensures (n / 262144) * 262144 + ((n / 4096) % 64) * 4096 + ((n / 64) % 64) * 64 + n % 64 == n
  {
    var q1 := n / 64;
    var q2 := q1 / 64;
    assert n == q1 * 64 + n % 64;
    assert q1 == q2 * 64 + q1 % 64;
    assert q2 == (q2 / 64) * 64 + q2 % 64;
    assert q2 == n / 4096;
    assert q2 / 64 == n / 262144;
  }

  lemma {:induction false} DecodeHeadOfFour(c: char, rest: seq<byte>)
    requires 0x1_0000 <= c as int
    ensures DecodeHead(CharUtf8(c) + rest) == Some((c, 4))
  {
    var n := c as int;
    var b0, b1, b2, b3 := n / 262144, (n / 4096) % 64, (n / 64) % 64, n % 64;
    var bs := CharUtf8(c) + rest;
    assert bs[0] == 0xF0 + b0 && bs[1] == 0x80 + b1 && bs[2] == 0x80 + b2 && bs[3] == 0x80 + b3;
    assert Low6(bs[1]) == b1 && Low6(bs[2]) == b2 && Low6(bs[3]) == b3;
    Base64Digits(n);
    assert b0 * 262144 + b1 * 4096 + b2 * 64 + b3 == n;
  }

  lemma {:induction false} Utf8DecodeOfUtf8(s: string)
    ensures Utf8Decode(Utf8(s)) == s
  {
    if s != [] {
      var e := CharUtf8(s[0]);
      DecodeHeadOfChar(s[0], Utf8(s[1..]));
      assert (e + Utf8(s[1..]))[|e|..] == Utf8(s[1..]);
      Utf8DecodeOfUtf8(s[1..]);
    }
  }

  lemma {:induction false} Utf8Append(s: string, t: string)
    ensures Utf8(s + t) == Utf8(s) + Utf8(t)
  {
    if s != [] {
      assert (s + t)[0] == s[0] && (s + t)[1..] == s[1..] + t;
      Utf8Append(s[1..], t);
    } else {
      assert s + t == t;
    }
  }
}
