/**
 * Decimal text of 64-bit integers, as strconv.FormatInt and strconv.ParseInt
 * write and read it in base 10.  Upload sessions keep the size difference as such
 * text, and modification times are two of them joined by a dot.
 */
module Decimal {
  import opened Base

  /** A parse result: the value a caller that ignores the error goes on with. */
  datatype Parsed = Parsed(value: int, ok: bool)

  predicate IsDigit(c: char) {
    '0' <= c <= '9'
  }

  predicate AllDigits(s: string) {
    forall i :: 0 <= i < |s| ==> IsDigit(s[i])
  }

  function DigitValue(c: char): (d: int)
    requires IsDigit(c)
    ensures 0 <= d < 10
  {
    c as int - '0' as int
  }

  function DigitChar(d: int): (c: char)
    requires 0 <= d < 10
    ensures IsDigit(c) && DigitValue(c) == d
  {
    (d + '0' as int) as char
  }

  function Digits(n: nat): (s: string)
    ensures |s| > 0 && AllDigits(s)
  {
    if n < 10 then [DigitChar(n)] else Digits(n / 10) + [DigitChar(n % 10)]
  }

  function Value(s: string): (n: nat)
    requires AllDigits(s)
  {
    if s == "" then 0 else 10 * Value(s[..|s| - 1]) + DigitValue(s[|s| - 1])
  }

  function FormatInt(n: int): (s: string)
    ensures s != ""
  {
    if n < 0 then "-" + Digits(-n) else Digits(n)
  }

  function ParseInt(s: string): (p: Parsed)
    ensures Int64(p.value)
  {
    var negative := s != "" && s[0] == '-';
    var digits := if s != "" && (s[0] == '-' || s[0] == '+') then s[1..] else s;
    if digits == "" || !AllDigits(digits) then
      Parsed(0, false)
    else
      var magnitude: int := Value(digits);
      var v := if negative then -magnitude else magnitude;
      if v > MAX_INT64 then Parsed(MAX_INT64, false)
      else if v < MIN_INT64 then Parsed(MIN_INT64, false)
      else Parsed(v, true)
  }

  lemma {:induction false} ValueOfDigits(n: nat)
    ensures Value(Digits(n)) == n
  {
    if n >= 10 {
      ValueOfDigits(n / 10);
      var s := Digits(n);
      assert s[..|s| - 1] == Digits(n / 10);
    } else {
      var s := Digits(n);
      assert s[..|s| - 1] == "";
    }
  }

  /** Reading back what was written: exact on every int64, clamped and reported beyond. */
  lemma ParseFormat(n: int)
    ensures Int64(n) ==> ParseInt(FormatInt(n)) == Parsed(n, true)
    ensures n > MAX_INT64 ==> ParseInt(FormatInt(n)) == Parsed(MAX_INT64, false)
    ensures n < MIN_INT64 ==> ParseInt(FormatInt(n)) == Parsed(MIN_INT64, false)
  {
    if n < 0 {
      ValueOfDigits(-n);
      assert FormatInt(n)[1..] == Digits(-n);
    } else {
      ValueOfDigits(n);
      assert IsDigit(Digits(n)[0]);
    }
  }

  /** The digits of a text, behind a sign if it has one. */
  function Unsigned(s: string): string {
    if s != "" && (s[0] == '+' || s[0] == '-') then s[1..] else s
  }

  /** A text is a number exactly when it has digits, nothing but digits behind a sign, and is within 64 bits; otherwise it counts as zero or is clamped. */
  lemma ParseExactlyWhen(s: string)
    ensures ParseInt(s).ok ==> Unsigned(s) != "" && forall i :: 0 <= i < |Unsigned(s)| ==> '0' <= Unsigned(s)[i] <= '9'
    ensures Unsigned(s) == "" || (exists i :: 0 <= i < |Unsigned(s)| && !('0' <= Unsigned(s)[i] <= '9')) ==> ParseInt(s) == Parsed(0, false)
  {
  }

  /** A plus sign and leading zeros change nothing. */
  lemma ParsePadded(n: nat)
    ensures ParseInt("+" + FormatInt(n)) == ParseInt(FormatInt(n)) == ParseInt("0" + FormatInt(n))
  {
    var d := Digits(n);
    assert ("+" + d)[1..] == d && IsDigit(d[0]);
    LeadingZero(d);
    assert AllDigits("0" + d);
  }

  lemma {:induction false} LeadingZero(d: string)
    requires AllDigits(d)
    ensures AllDigits("0" + d) && Value("0" + d) == Value(d)
  {
    var s := "0" + d;
    if d == "" {
      assert s[..0] == "";
    } else {
      var k := |d| - 1;
      LeadingZero(d[..k]);
      assert s[..|s| - 1] == "0" + d[..k] && s[|s| - 1] == d[k];
    }
  }
}
