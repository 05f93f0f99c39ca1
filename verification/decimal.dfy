/**
 Decimal text and 64-bit signed integers: the conversion the parser applies
 to an integer literal (Rust's `str::parse::<i64>`) and, as its partner, the
 decimal rendering (`i64::to_string`) that the source's tests compare token
 literals against.
 */
module Decimal {
  import opened Optional
  import opened Tokens

  const I64_MAX: int := 0x7fff_ffff_ffff_ffff
  const I64_MIN: int := -0x8000_0000_0000_0000

  const PLUS_SIGN: Byte := '+' as Byte
  const MINUS_SIGN: Byte := '-' as Byte

  function DigitValue(b: Byte): nat
    requires IsDigit(b)
  {
    b - '0' as Byte
  }

  /** The value of a run of decimal digits, most significant first. */
  function DigitsValue(s: seq<Byte>): nat
    requires AllIn(s, Digit)
  {
    if |s| == 0 then 0
    else DigitsValue(s[..|s| - 1]) * 10 + DigitValue(s[|s| - 1])
  }

  /**
   Rust's `i64` parsing: an optional `+` or `-` sign followed by at least one
   decimal digit and nothing else, whose value lies in the 64-bit signed range.
   Anything else is an error (None).
   */
  function ParseI64(s: seq<Byte>): (r: Option<int>)
    ensures r.Some? ==> I64_MIN <= r.value <= I64_MAX
    ensures r.Some? ==> 0 < |s| && AllIn(s[1..], Digit)
    ensures r.Some? ==> IsDigit(s[0]) || (1 < |s| && (s[0] == PLUS_SIGN || s[0] == MINUS_SIGN))
    ensures r.Some? && r.value < 0 ==> s[0] == MINUS_SIGN
  {
    if |s| == 0 then None
    else if s[0] == PLUS_SIGN || s[0] == MINUS_SIGN then
      var digits := s[1..];
      if |digits| == 0 || !AllIn(digits, Digit) then None
      else if s[0] == MINUS_SIGN then
        (if DigitsValue(digits) <= -I64_MIN then Some(-(DigitsValue(digits) as int)) else None)
      else
        (if DigitsValue(digits) <= I64_MAX then Some(DigitsValue(digits)) else None)
    else if AllIn(s, Digit) && DigitsValue(s) <= I64_MAX then Some(DigitsValue(s))
    else None
  }

  /** The decimal digits of a natural number, without leading zeros. */
  function Digits(n: nat): (s: seq<Byte>)
    ensures 0 < |s| && AllIn(s, Digit)
  {
    if n < 10 then ['0' as Byte + n]
    else Digits(n / 10) + ['0' as Byte + n % 10]
  }

  /** `i64::to_string`: a minus sign for negative values, then the digits. */
  function Format(n: int): (s: seq<Byte>)
    ensures 0 < |s|
  {
    if n < 0 then [MINUS_SIGN] + Digits(-n) else Digits(n)
  }

  lemma {:induction false} DigitsRoundTrip(n: nat)
    ensures DigitsValue(Digits(n)) == n
  {
    if n >= 10 {
      var s := Digits(n);
      assert s[..|s| - 1] == Digits(n / 10);
      DigitsRoundTrip(n / 10);
    }
  }

  /** Parsing the rendering of any 64-bit value gives that value back. */
  lemma ParseFormatRoundTrip(n: int)
    requires I64_MIN <= n <= I64_MAX
    ensures ParseI64(Format(n)) == Some(n)
  {
    if n < 0 {
      var s := Format(n);
      assert s[1..] == Digits(-n);
      DigitsRoundTrip(-n);
    } else {
      DigitsRoundTrip(n);
    }
  }

  /** The value of a digit run grows one digit at a time, most significant first. */
  lemma DigitsValuePrefix(s: seq<Byte>, i: nat)
    requires AllIn(s, Digit) && 0 < i <= |s|
    ensures DigitsValue(s[..i]) == DigitsValue(s[..i - 1]) * 10 + DigitValue(s[i - 1])
  {
    assert s[..i][..i - 1] == s[..i - 1];
  }

  /** On a pure digit run, which is all the lexer ever puts in an Int token,
      parsing fails exactly when the value overflows. */
  lemma ParseDigitRun(s: seq<Byte>)
    requires 0 < |s| && AllIn(s, Digit)
    ensures ParseI64(s).None? <==> DigitsValue(s) > I64_MAX
    ensures ParseI64(s).Some? ==> ParseI64(s).value == DigitsValue(s)
  {
    assert IsDigit(s[0]);
  }
}
