/**
 * Decimal text and integers: the lexer's Number(...) of a run of digits
 * (lexer.ts:26-31) and the interpreter's toString() of a printed value
 * (interpreter.ts:81).
 */
module Numerals {

  predicate IsDigit(c: char)
  {
    '0' <= c <= '9'
  }

  predicate AllDigits(s: string)
  {
    forall k :: 0 <= k < |s| ==> IsDigit(s[k])
  }

  function DigitValue(c: char): (d: nat)
    requires IsDigit(c)
    ensures d < 10
  {
    c as int - '0' as int
  }

  function DigitChar(d: nat): (c: char)
    requires d < 10
    ensures IsDigit(c) && DigitValue(c) == d
  {
    ('0' as int + d) as char
  }

  /** The value of a run of decimal digits, leading zeros allowed. */
  function DecimalValue(s: string): nat
    requires AllDigits(s)
  {
    if s == [] then 0 else DecimalValue(s[..|s| - 1]) * 10 + DigitValue(s[|s| - 1])
  }

  /** The shortest decimal spelling of n. */
  function NatToDecimal(n: nat): (s: string)
    ensures 0 < |s| && AllDigits(s)
    ensures n < 10 <==> |s| == 1
  {
    if n < 10 then [DigitChar(n)] else NatToDecimal(n / 10) + [DigitChar(n % 10)]
  }

  /** Reading back the spelling of n gives n. */
  lemma {:induction false} DecimalRoundTrip(n: nat)
    ensures DecimalValue(NatToDecimal(n)) == n
  {
    if n >= 10 {
      var s := NatToDecimal(n);
      assert s[..|s| - 1] == NatToDecimal(n / 10);
      DecimalRoundTrip(n / 10);
    }
  }

  /** An integer as JavaScript prints it: a minus sign before negative values. */
  function IntToString(v: int): (s: string)
    ensures 0 < |s|
    ensures v < 0 <==> s[0] == '-'
  {
    if v < 0 then "-" + NatToDecimal(-v) else NatToDecimal(v)
  }

  /** The inverse of IntToString on its image. */
  function SignedValue(s: string): int
    requires 0 < |s| && (if s[0] == '-' then AllDigits(s[1..]) else AllDigits(s))
  {
    if s[0] == '-' then -(DecimalValue(s[1..]) as int) else DecimalValue(s)
  }

  lemma IntToStringRoundTrip(v: int)
    ensures var s := IntToString(v);
      (if s[0] == '-' then AllDigits(s[1..]) else AllDigits(s)) && SignedValue(s) == v
  {
    var s := IntToString(v);
    if v < 0 {
      assert s[1..] == NatToDecimal(-v);
      DecimalRoundTrip(-v);
    } else {
      DecimalRoundTrip(v);
    }
  }

  /** Distinct values print differently. */
  lemma IntToStringInjective(v: int, w: int)
    requires IntToString(v) == IntToString(w)
    ensures v == w
  {
    IntToStringRoundTrip(v);
    IntToStringRoundTrip(w);
  }
}
