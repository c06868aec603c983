/** The Kotlin string operations the roster relies on: Int/Long toString and
    toIntOrNull/toLongOrNull, isBlank, split(",") and the line splitting of
    File.readLines. */
module Text {
  import opened Results
  import opened Binary

  // ---- decimal numbers ----

  predicate IsDigit(c: char) { '0' <= c <= '9' }

  predicate AllDigits(s: string) { forall i :: 0 <= i < |s| ==> IsDigit(s[i]) }

  function DigitChar(d: nat): (c: char)
    requires d < 10
    ensures IsDigit(c) && c as int - '0' as int == d
  {
    ('0' as int + d) as char
  }

  /** The decimal digits of n, no leading zero. */
  function NatText(n: nat): (s: string)
    ensures |s| >= 1 && AllDigits(s)
  {
    if n < 10 then [DigitChar(n)] else NatText(n / 10) + [DigitChar(n % 10)]
  }

  /** Int.toString / Long.toString. */
  function IntText(n: int): (s: string)
    ensures |s| >= 1
  {
    if n < 0 then "-" + NatText(-n) else NatText(n)
  }

  /** The value of a string of decimal digits. */
  function DigitsValue(s: string): nat
    requires AllDigits(s)
  {
    if s == [] then 0 else DigitsValue(s[..|s| - 1]) * 10 + (s[|s| - 1] as int - '0' as int)
  }

  lemma {:induction false} DigitsValueOfNatText(n: nat)
    ensures DigitsValue(NatText(n)) == n
  {
    if n >= 10 {
      var s := NatText(n);
      assert s[..|s| - 1] == NatText(n / 10);
      DigitsValueOfNatText(n / 10);
    }
  }

  /** The number a string spells, with an optional leading '+' or '-', no bound
      on its size; the shape Kotlin's toIntOrNull and toLongOrNull accept. */
  function ParseDecimal(s: string): (r: Option<int>)
  {
    if s == [] then None
    else if s[0] == '-' || s[0] == '+' then
      var digits := s[1..];
      if digits != [] && AllDigits(digits) then
        Some(if s[0] == '-' then -(DigitsValue(digits) as int) else DigitsValue(digits))
      else None
    else if AllDigits(s) then Some(DigitsValue(s))
    else None
  }

  /** String.toIntOrNull: null for malformed text and for values outside Int. */
  function ParseInt32(s: string): (r: Option<int32>)
    ensures r.Some? ==> ParseDecimal(s) == Some(r.value as int)
  {
    match ParseDecimal(s)
    case Some(n) => if -0x8000_0000 <= n < 0x8000_0000 then Some(n as int32) else None
    case None => None
  }

  /** String.toLongOrNull. */
  function ParseInt64(s: string): (r: Option<int64>)
    ensures r.Some? ==> ParseDecimal(s) == Some(r.value as int)
  {
    match ParseDecimal(s)
    case Some(n) => if -0x8000_0000_0000_0000 <= n < 0x8000_0000_0000_0000 then Some(n as int64) else None
    case None => None
  }

  /** String.toInt: NumberFormatException where toIntOrNull gives null. */
  function ToInt(s: string): (r: Result<int32>)
    ensures r.Ok? || r == Thrown(NumberFormat)
  {
    match ParseInt32(s)
    case Some(n) => Ok(n)
    case None => Thrown(NumberFormat)
  }

  /** String.toLong. */
  function ToLong(s: string): (r: Result<int64>)
    ensures r.Ok? || r == Thrown(NumberFormat)
  {
    match ParseInt64(s)
    case Some(n) => Ok(n)
    case None => Thrown(NumberFormat)
  }

  lemma {:induction false} ParseDecimalOfIntText(n: int)
    ensures ParseDecimal(IntText(n)) == Some(n)
  {
    DigitsValueOfNatText(if n < 0 then -n else n);
    if n < 0 {
      assert IntText(n)[1..] == NatText(-n);
    } else {
      assert IntText(n)[0] == NatText(n)[0];
    }
  }

  lemma {:induction false} ParseInt32OfIntText(n: int32)
    ensures ParseInt32(IntText(n)) == Some(n)
  {
    ParseDecimalOfIntText(n);
  }

  lemma {:induction false} ParseInt64OfIntText(n: int64)
    ensures ParseInt64(IntText(n)) == Some(n)
  {
    ParseDecimalOfIntText(n);
  }

  /** The empty text is no number: an empty CSV column reads as null. */
  lemma {:induction false} ParseOfEmpty()
    ensures ParseInt32("") == None && ParseInt64("") == None
  {
  }

  // ---- Double text ----

  /** Stand-in for Double.toString: the text of doubleToLongBits(x). Like Java's
      form it is exactly invertible except that every NaN reads back as the
      canonical NaN, and it holds no ',' or line break. */
  function DoubleText(x: Double): string {
    IntText(DoubleToLongBits(x))
  }

  /** Stand-in for String.toDoubleOrNull, inverse of DoubleText. */
  function ParseDouble(s: string): Option<Double> {
    match ParseInt64(s)
    case Some(l) => Some(LongBitsToDouble(l))
    case None => None
  }

  /** Stand-in for String.toDouble: NumberFormatException where toDoubleOrNull gives null. */
  function ToDouble(s: string): (r: Result<Double>)
    ensures r.Ok? || r == Thrown(NumberFormat)
  {
    match ParseDouble(s)
    case Some(x) => Ok(x)
    case None => Thrown(NumberFormat)
  }

  lemma {:induction false} ParseDoubleOfDoubleText(x: Double)
    ensures ParseDouble(DoubleText(x)) == Some(Canonical(x))
  {
    ParseInt64OfIntText(DoubleToLongBits(x));
  }

  lemma {:induction false} DoubleTextIsNumeral(x: Double)
    ensures |DoubleText(x)| >= 1
    ensures forall i :: 0 <= i < |DoubleText(x)| ==> IsDigit(DoubleText(x)[i]) || DoubleText(x)[i] == '-'
  {
  }

  // ---- blank strings ----

  /** Char.isWhitespace: Java's Character.isWhitespace or isSpaceChar. */
  predicate IsWhitespace(c: char) {
    ('\t' <= c <= '\r') || ('\U{1C}' <= c <= ' ')
    || c == '\U{A0}' || c == '\U{1680}' || ('\U{2000}' <= c <= '\U{200A}')
    || c == '\U{2028}' || c == '\U{2029}' || c == '\U{202F}' || c == '\U{205F}' || c == '\U{3000}'
  }

  /** CharSequence.isBlank: empty or only whitespace. */
  predicate IsBlank(s: string) {
    forall i :: 0 <= i < |s| ==> IsWhitespace(s[i])
  }

  // ---- split and join on one separator ----

  /** Index of the first occurrence of c in s, |s| if none. */
  function IndexOf(s: string, c: char): (i: nat)
    ensures i <= |s|
    ensures i < |s| ==> s[i] == c
    ensures forall j :: 0 <= j < i ==> s[j] != c
  {
    if s == [] then 0 else if s[0] == c then 0 else 1 + IndexOf(s[1..], c)
  }

  /** String.split(sep) with no limit: every field kept, trailing empty ones too. */
  function Split(s: string, sep: char): (fields: seq<string>)
    ensures |fields| >= 1
    decreases |s|
  {
    var i := IndexOf(s, sep);
    if i == |s| then [s] else [s[..i]] + Split(s[i + 1..], sep)
  }

  /** joinToString(sep) of the fields: what a string template with sep between fields builds. */
  function Join(fields: seq<string>, sep: char): string
    requires |fields| >= 1
  {
    if |fields| == 1 then fields[0] else fields[0] + [sep] + Join(fields[1..], sep)
  }

  predicate Excludes(s: string, c: char) { forall i :: 0 <= i < |s| ==> s[i] != c }

  lemma {:induction false} SplitOfJoin(fields: seq<string>, sep: char)
    requires |fields| >= 1
    requires forall k :: 0 <= k < |fields| ==> Excludes(fields[k], sep)
    ensures Split(Join(fields, sep), sep) == fields
  {
    var f := fields[0];
    if |fields| == 1 {
      assert IndexOf(f, sep) == |f|;
    } else {
      var rest := Join(fields[1..], sep);
      var s := f + [sep] + rest;
      IndexOfPrefix(f, sep, rest);
      assert s[..|f|] == f;
      assert s[|f| + 1..] == rest;
      SplitOfJoin(fields[1..], sep);
    }
  }

  lemma {:induction false} IndexOfPrefix(f: string, c: char, rest: string)
    requires Excludes(f, c)
    ensures IndexOf(f + [c] + rest, c) == |f|
  {
    if f != [] {
      assert (f + [c] + rest)[1..] == f[1..] + [c] + rest;
      IndexOfPrefix(f[1..], c, rest);
    }
  }

  // ---- lines ----

  predicate IsLineBreak(c: char) { c == '\n' || c == '\r' }

  /** Index of the first '\n' or '\r', |t| if none. */
  function LineEnd(t: string): (i: nat)
    ensures i <= |t|
    ensures i < |t| ==> IsLineBreak(t[i])
    ensures forall j :: 0 <= j < i ==> !IsLineBreak(t[j])
  {
    if t == [] then 0 else if IsLineBreak(t[0]) then 0 else 1 + LineEnd(t[1..])
  }

  /** File.readLines (BufferedReader.readLine): a line ends at "\n", "\r" or "\r\n";
      a last line without terminator counts, an empty tail does not. */
  function Lines(t: string): (ls: seq<string>)
    decreases |t|
  {
    if t == [] then []
    else
      var i := LineEnd(t);
      if i == |t| then [t]
      else if t[i] == '\r' && i + 1 < |t| && t[i + 1] == '\n' then [t[..i]] + Lines(t[i + 2..])
      else [t[..i]] + Lines(t[i + 1..])
  }

  predicate NoLineBreak(s: string) { forall i :: 0 <= i < |s| ==> !IsLineBreak(s[i]) }

  /** Each line followed by "\n": the file writeText and appendText build. */
  function Unlines(ls: seq<string>): string {
    if ls == [] then [] else ls[0] + "\n" + Unlines(ls[1..])
  }

  lemma {:induction false} LinesOfUnlines(ls: seq<string>)
    requires forall k :: 0 <= k < |ls| ==> NoLineBreak(ls[k])
    ensures Lines(Unlines(ls)) == ls
  {
    if ls != [] {
      var l, rest := ls[0], Unlines(ls[1..]);
      var t := l + "\n" + rest;
      LineEndPrefix(l, rest);
      assert t[..|l|] == l;
      assert t[|l| + 1..] == rest;
      LinesOfUnlines(ls[1..]);
    }
  }

  lemma {:induction false} LineEndPrefix(l: string, rest: string)
    requires NoLineBreak(l)
    ensures LineEnd(l + "\n" + rest) == |l|
  {
    if l != [] {
      assert (l + "\n" + rest)[1..] == l[1..] + "\n" + rest;
      LineEndPrefix(l[1..], rest);
    }
  }

  lemma {:induction false} UnlinesAppend(ls: seq<string>, l: string)
    ensures Unlines(ls + [l]) == Unlines(ls) + l + "\n"
  {
    if ls != [] {
      assert (ls + [l])[1..] == ls[1..] + [l];
      UnlinesAppend(ls[1..], l);
    }
  }

  /** Fields without line breaks, joined by a separator that is none, make one line. */
  lemma {:induction false} JoinNoLineBreak(fields: seq<string>, sep: char)
    requires |fields| >= 1 && !IsLineBreak(sep)
    requires forall k :: 0 <= k < |fields| ==> NoLineBreak(fields[k])
    ensures NoLineBreak(Join(fields, sep))
  {
    if |fields| > 1 {
      JoinNoLineBreak(fields[1..], sep);
      var s := fields[0] + [sep] + Join(fields[1..], sep);
      forall i | 0 <= i < |s| ensures !IsLineBreak(s[i]) {
        if i > |fields[0]| {
          assert s[i] == Join(fields[1..], sep)[i - |fields[0]| - 1];
        }
      }
    }
  }

  /** Decimal text holds only digits and '-': no ',' and no line break. */
  lemma {:induction false} IntTextIsPlain(n: int)
    ensures Excludes(IntText(n), ',') && NoLineBreak(IntText(n))
  {
  }
}
