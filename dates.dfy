/** java.time.LocalDate as the roster uses it: a proleptic Gregorian calendar date,
    its comparison, LocalDate.toString and LocalDate.parse (the ISO 8601 calendar
    date in extended format, section 5.2.1.1 of ISO 8601:2004, YYYY-MM-DD, with the
    expanded year forms java.time writes outside 0000..9999). */
module Dates {
  import opened Results
  import opened Text

  const MinYear: int := -999_999_999
  const MaxYear: int := 999_999_999

  datatype DateFields = DateFields(year: int, month: int, day: int)

  predicate IsLeapYear(y: int) {
    y % 4 == 0 && (y % 100 != 0 || y % 400 == 0)
  }

  function DaysInMonth(y: int, m: int): (n: int)
    requires 1 <= m <= 12
    ensures 28 <= n <= 31
  {
    if m == 2 then (if IsLeapYear(y) then 29 else 28)
    else if m == 4 || m == 6 || m == 9 || m == 11 then 30
    else 31
  }

  predicate IsValidDate(d: DateFields) {
    MinYear <= d.year <= MaxYear && 1 <= d.month <= 12 && 1 <= d.day <= DaysInMonth(d.year, d.month)
  }

  /** A LocalDate: only real calendar days of the supported years. */
  type Date = d: DateFields | IsValidDate(d) witness DateFields(1970, 1, 1)

  /** `a < b` on LocalDate (isBefore, compareTo < 0): year, then month, then day. */
  predicate IsBefore(a: Date, b: Date) {
    a.year < b.year
    || (a.year == b.year && (a.month < b.month || (a.month == b.month && a.day < b.day)))
  }

  lemma {:induction false} IsBeforeTotal(a: Date, b: Date)
    ensures IsBefore(a, b) || a == b || IsBefore(b, a)
    ensures !(IsBefore(a, b) && IsBefore(b, a))
    ensures !IsBefore(a, a)
  {
  }

  // ---- text ----

  function Zeros(k: nat): (s: string)
    ensures |s| == k && AllDigits(s)
  {
    if k == 0 then [] else "0" + Zeros(k - 1)
  }

  /** n in decimal, left-padded with zeros to at least w digits. */
  function Padded(n: nat, w: nat): (s: string)
    ensures AllDigits(s) && |s| >= w && |s| >= 1
  {
    var t := NatText(n);
    if |t| < w then Zeros(w - |t|) + t else t
  }

  /** The year as LocalDate.toString writes it: four digits at least, a '-' before a
      negative year and a '+' before a year past 9999. */
  function YearText(y: int): string {
    if y < 0 then "-" + Padded(-y, 4)
    else if y > 9999 then "+" + Padded(y, 4)
    else Padded(y, 4)
  }

  function TwoDigits(n: nat): (s: string)
    requires n < 100
    ensures |s| == 2 && AllDigits(s)
  {
    [DigitChar(n / 10), DigitChar(n % 10)]
  }

  /** LocalDate.toString. */
  function DateText(d: Date): string {
    YearText(d.year) + "-" + TwoDigits(d.month) + "-" + TwoDigits(d.day)
  }

  /** Number of leading decimal digits of s. */
  function DigitRun(s: string): (k: nat)
    ensures k <= |s| && AllDigits(s[..k])
    ensures k < |s| ==> !IsDigit(s[k])
  {
    if s == [] || !IsDigit(s[0]) then 0
    else
      var k := 1 + DigitRun(s[1..]);
      assert s[..k] == [s[0]] + s[1..][..k - 1];
      k
  }

  function DigitAt(s: string, i: nat): (v: nat)
    requires i < |s| && IsDigit(s[i])
    ensures v < 10
  {
    s[i] as int - '0' as int
  }

  /** The sign before the year, if any. */
  function SignPrefix(s: string): (sign: string)
    ensures sign == "" || sign == "-" || sign == "+"
  {
    if s != [] && s[0] == '-' then "-" else if s != [] && s[0] == '+' then "+" else ""
  }

  /** The value of the year field, by the rules of ISO_LOCAL_DATE in strict mode:
      4 to 10 digits; no sign takes exactly 4, '+' takes more than 4, '-' may not
      stand before zero. Returns the year and the rest of the text. */
  function ParseYear(s: string): Option<(int, string)> {
    var sign := SignPrefix(s);
    YearDigits(sign, s[|sign|..])
  }

  /** The digit run of the year after its sign, and the text after it. */
  function YearDigits(sign: string, body: string): Option<(int, string)> {
    var k := DigitRun(body);
    var v: int := DigitsValue(body[..k]);
    if k < 4 || k > 10 then None
    else if sign == "" && k != 4 then None
    else if sign == "+" && k <= 4 then None
    else if sign == "-" && v == 0 then None
    else Some((if sign == "-" then -v else v, body[k..]))
  }

  /** LocalDate.parse: None where it throws DateTimeParseException (malformed text,
      a field out of range, or a day the month does not have). */
  function ParseDate(s: string): (r: Option<Date>)
  {
    match ParseYear(s)
    case None => None
    case Some((y, rest)) =>
      if |rest| != 6 || rest[0] != '-' || rest[3] != '-'
        || !IsDigit(rest[1]) || !IsDigit(rest[2]) || !IsDigit(rest[4]) || !IsDigit(rest[5])
      then None
      else
        var d := DateFields(y, DigitAt(rest, 1) * 10 + DigitAt(rest, 2), DigitAt(rest, 4) * 10 + DigitAt(rest, 5));
        if IsValidDate(d) then Some(d) else None
  }

  /** LocalDate.parse as the mappers call it: the exception escapes. */
  function ToDate(s: string): (r: Result<Date>)
    ensures r.Ok? || r == Thrown(DateTimeParse)
  {
    match ParseDate(s)
    case Some(d) => Ok(d)
    case None => Thrown(DateTimeParse)
  }

  // ---- the round trip ----

  function Pow10(k: nat): (p: nat)
    ensures p >= 1
  {
    if k == 0 then 1 else 10 * Pow10(k - 1)
  }

  lemma {:induction false} NatTextShort(n: nat, k: nat)
    requires 1 <= k && n < Pow10(k)
    ensures |NatText(n)| <= k
  {
    if n >= 10 {
      NatTextShort(n / 10, k - 1);
    }
  }

  lemma {:induction false} NatTextLong(n: nat, k: nat)
    requires n >= Pow10(k)
    ensures |NatText(n)| > k
  {
    if k > 0 {
      NatTextLong(n / 10, k - 1);
    }
  }

  lemma {:induction false} DigitsValueOfZeros(k: nat)
    ensures DigitsValue(Zeros(k)) == 0
  {
    if k > 0 {
      assert Zeros(k)[..k - 1] == Zeros(k - 1) by {
        assert Zeros(k) == Zeros(k - 1) + "0" by { ZerosSnoc(k - 1); }
      }
      DigitsValueOfZeros(k - 1);
    }
  }

  lemma {:induction false} ZerosSnoc(k: nat)
    ensures Zeros(k + 1) == Zeros(k) + "0"
  {
    if k > 0 {
      ZerosSnoc(k - 1);
    }
  }

  lemma {:induction false} DigitsValueOfPadding(z: string, t: string)
    requires AllDigits(t) && z == Zeros(|z|)
    ensures DigitsValue(z + t) == DigitsValue(t)
  {
    if t == [] {
      assert z + t == z;
      DigitsValueOfZeros(|z|);
    } else {
      var u := z + t;
      assert u[..|u| - 1] == z + t[..|t| - 1];
      DigitsValueOfPadding(z, t[..|t| - 1]);
    }
  }

  lemma {:induction false} DigitsValueOfPadded(n: nat, w: nat)
    ensures DigitsValue(Padded(n, w)) == n
  {
    var t := NatText(n);
    DigitsValueOfNatText(n);
    if |t| < w {
      DigitsValueOfPadding(Zeros(w - |t|), t);
    }
  }

  lemma {:induction false} PaddedLength(n: nat)
    requires n <= MaxYear
    ensures |Padded(n, 4)| <= 9
    ensures n < 10000 ==> |Padded(n, 4)| == 4
    ensures n >= 10000 ==> |Padded(n, 4)| > 4
  {
    assert Pow10(4) == 10000 && Pow10(9) == 1_000_000_000;
    NatTextShort(n, 9);
    if n < 10000 {
      NatTextShort(n, 4);
    } else {
      NatTextLong(n, 4);
    }
  }

  /** LocalDate.toString never writes more than 16 characters. */
  lemma {:induction false} DateTextLength(d: Date)
    ensures |DateText(d)| <= 16
  {
    if d.year < 0 {
      PaddedLength(-d.year);
    } else {
      PaddedLength(d.year);
    }
  }

  lemma {:induction false} DigitRunOfDigits(t: string, rest: string)
    requires AllDigits(t) && rest != [] && !IsDigit(rest[0])
    ensures DigitRun(t + rest) == |t|
  {
    if t != [] {
      assert (t + rest)[1..] == t[1..] + rest;
      DigitRunOfDigits(t[1..], rest);
    }
  }

  /** A digit run followed by a non-digit splits where the digits end. */
  lemma {:induction false} DigitsThenRest(p: string, rest: string)
    requires AllDigits(p) && rest != [] && !IsDigit(rest[0])
    ensures DigitRun(p + rest) == |p| && (p + rest)[..|p|] == p && (p + rest)[|p|..] == rest
  {
    DigitRunOfDigits(p, rest);
  }

  /** Four digits with no sign, then a non-digit. */
  lemma {:induction false} ParseUnsignedYear(p: string, rest: string)
    requires AllDigits(p) && |p| == 4 && rest != [] && !IsDigit(rest[0])
    ensures ParseYear(p + rest) == Some((DigitsValue(p) as int, rest))
  {
    assert (p + rest)[0] == p[0];
    DigitsThenRest(p, rest);
  }

  /** '+' and more than four digits, then a non-digit. */
  lemma {:induction false} ParsePlusYear(p: string, rest: string)
    requires AllDigits(p) && 4 < |p| <= 10 && rest != [] && !IsDigit(rest[0])
    ensures ParseYear("+" + p + rest) == Some((DigitsValue(p) as int, rest))
  {
    var s := "+" + p + rest;
    assert s[1..] == p + rest;
    DigitsThenRest(p, rest);
  }

  /** '-' and four or more digits not all zero, then a non-digit. */
  lemma {:induction false} ParseMinusYear(p: string, rest: string)
    requires AllDigits(p) && 4 <= |p| <= 10 && DigitsValue(p) != 0 && rest != [] && !IsDigit(rest[0])
    ensures ParseYear("-" + p + rest) == Some((-(DigitsValue(p) as int), rest))
  {
    var s := "-" + p + rest;
    assert SignPrefix(s) == "-";
    assert s[1..] == p + rest;
    YearDigitsOfMinus(p, rest);
  }

  lemma {:induction false} YearDigitsMinus(body: string)
    requires 4 <= DigitRun(body) <= 10 && DigitsValue(body[..DigitRun(body)]) != 0
    ensures YearDigits("-", body) == Some((-(DigitsValue(body[..DigitRun(body)]) as int), body[DigitRun(body)..]))
  {
    assert "-" != "" && "-" != "+";
  }

  lemma {:induction false} YearDigitsOfMinus(p: string, rest: string)
    requires AllDigits(p) && 4 <= |p| <= 10 && DigitsValue(p) != 0 && rest != [] && !IsDigit(rest[0])
    ensures YearDigits("-", p + rest) == Some((-(DigitsValue(p) as int), rest))
  {
    var body := p + rest;
    DigitsThenRest(p, rest);
    var k := DigitRun(body);
    assert body[..k] == p;
    YearDigitsMinus(body);
    assert body[k..] == rest;
  }

  lemma {:induction false} ParseYearOfYearText(y: int, rest: string)
    requires MinYear <= y <= MaxYear && rest != [] && rest[0] == '-'
    ensures ParseYear(YearText(y) + rest) == Some((y, rest))
  {
    var n: nat := if y < 0 then -y else y;
    PaddedLength(n);
    DigitsValueOfPadded(n, 4);
    if y < 0 {
      ParseMinusYear(Padded(n, 4), rest);
    } else if y > 9999 {
      ParsePlusYear(Padded(n, 4), rest);
    } else {
      ParseUnsignedYear(Padded(n, 4), rest);
    }
  }

  /** The month and day part of DateText reads back as the month and the day. */
  lemma {:induction false} MonthDayText(m: nat, dd: nat)
    requires m < 100 && dd < 100
    ensures var rest := "-" + TwoDigits(m) + "-" + TwoDigits(dd);
      |rest| == 6 && rest[0] == '-' && rest[3] == '-'
      && IsDigit(rest[1]) && IsDigit(rest[2]) && IsDigit(rest[4]) && IsDigit(rest[5])
      && DigitAt(rest, 1) * 10 + DigitAt(rest, 2) == m && DigitAt(rest, 4) * 10 + DigitAt(rest, 5) == dd
  {
    var rest := "-" + TwoDigits(m) + "-" + TwoDigits(dd);
    assert rest[1] == DigitChar(m / 10) && rest[2] == DigitChar(m % 10);
    assert rest[4] == DigitChar(dd / 10) && rest[5] == DigitChar(dd % 10);
  }

  lemma {:induction false} ParseDateOfDateText(d: Date)
    ensures ParseDate(DateText(d)) == Some(d)
  {
    var rest := "-" + TwoDigits(d.month) + "-" + TwoDigits(d.day);
    assert DateText(d) == YearText(d.year) + rest;
    ParseYearOfYearText(d.year, rest);
    MonthDayText(d.month, d.day);
  }

  lemma {:induction false} ToDateOfDateText(d: Date)
    ensures ToDate(DateText(d)) == Ok(d)
  {
    ParseDateOfDateText(d);
  }

  /** Digits and signs only. */
  predicate IsNumeric(s: string) {
    forall i :: 0 <= i < |s| ==> IsDigit(s[i]) || s[i] == '-' || s[i] == '+'
  }

  lemma {:induction false} NumericAppend(a: string, b: string)
    requires IsNumeric(a) && IsNumeric(b)
    ensures IsNumeric(a + b)
  {
    assert forall i :: |a| <= i < |a + b| ==> (a + b)[i] == b[i - |a|];
  }

  /** The text of a date holds no ',' and no line break, so it survives a CSV line. */
  lemma {:induction false} DateTextIsPlain(d: Date)
    ensures Excludes(DateText(d), ',') && NoLineBreak(DateText(d))
  {
    var y := YearText(d.year);
    var n: nat := if d.year < 0 then -d.year else d.year;
    assert IsNumeric(Padded(n, 4));
    if d.year < 0 || d.year > 9999 {
      NumericAppend([y[0]], Padded(n, 4));
    }
    assert IsNumeric(y);
    NumericAppend(y, "-");
    NumericAppend(y + "-", TwoDigits(d.month));
    NumericAppend(y + "-" + TwoDigits(d.month), "-");
    NumericAppend(y + "-" + TwoDigits(d.month) + "-", TwoDigits(d.day));
  }
}
