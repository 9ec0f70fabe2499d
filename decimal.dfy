/**
 * Decimal text of integers: how an `int` dictionary key is written as a
 * JSON object key and how pydantic reads it back.
 */
module Decimal {
  import opened Wrappers

  /** An ASCII digit, as the int key parser and `[a-zA-Z0-9.]` take it. */
  predicate IsDigit(c: char) {
    '0' <= c <= '9'
  }

  /** One or more ASCII digits. */
  predicate IsNumeral(s: string) {
    |s| > 0 && forall i :: 0 <= i < |s| ==> IsDigit(s[i])
  }

  function DigitChar(d: nat): (c: char)
    requires d < 10
    ensures IsDigit(c)
  {
    ('0' as int + d) as char
  }

  function DigitValue(c: char): (d: nat)
    requires IsDigit(c)
    ensures d < 10
  {
    c as int - '0' as int
  }

  /** The decimal numeral of `n`, most significant digit first. */
  function NatToString(n: nat): (s: string)
    ensures IsNumeral(s)
  {
    if n < 10 then [DigitChar(n)] else NatToString(n / 10) + [DigitChar(n % 10)]
  }

  /** The value of a run of digits (leading zeros allowed). */
  function NumeralValue(s: string): nat
    requires forall i :: 0 <= i < |s| ==> IsDigit(s[i])
  {
    if s == [] then 0 else NumeralValue(s[..|s| - 1]) * 10 + DigitValue(s[|s| - 1])
  }

  lemma {:induction false} NumeralRoundTrip(n: nat)
    ensures NumeralValue(NatToString(n)) == n
  {
    var s := NatToString(n);
    if n >= 10 {
      NumeralRoundTrip(n / 10);
      assert s[..|s| - 1] == NatToString(n / 10);
    }
  }

  /** The JSON object key `model_dump_json` writes for an `int` key. */
  function EncodeKey(k: int): string {
    if k < 0 then "-" + NatToString(-k) else NatToString(k)
  }

  /** An `int` key read from a JSON object key: an optional `-` then digits. */
  function DecodeKey(s: string): Option<int> {
    if |s| > 0 && s[0] == '-' then
      if IsNumeral(s[1..]) then Some(-(NumeralValue(s[1..]) as int)) else None
    else if IsNumeral(s) then Some(NumeralValue(s))
    else None
  }

  /** Reading a written key gives the key back. */
  lemma KeyRoundTrip(k: int)
    ensures DecodeKey(EncodeKey(k)) == Some(k)
  {
    if k < 0 {
      NumeralRoundTrip(-k);
      assert EncodeKey(k)[1..] == NatToString(-k);
    } else {
      NumeralRoundTrip(k);
      assert IsDigit(EncodeKey(k)[0]);
    }
  }

  /** Distinct keys are written as distinct strings. */
  lemma EncodeKeyInjective(j: int, k: int)
    requires EncodeKey(j) == EncodeKey(k)
    ensures j == k
  {
    KeyRoundTrip(j);
    KeyRoundTrip(k);
  }
}
