/**
 Decimal integers as text: the `[+-]?[0-9]+` group of the second device line,
 and the decimal rendering Python uses for an `int` inside an f-string.
 */
module Decimal {
  import opened Wrappers

  predicate IsDigit(c: char) {
    '0' <= c <= '9'
  }

  predicate AllDigits(s: string) {
    forall i :: 0 <= i < |s| ==> IsDigit(s[i])
  }

  function DigitValue(c: char): (d: nat)
    requires IsDigit(c)
    ensures d < 10
  {
    c as int - '0' as int
  }

  function DigitChar(d: nat): (c: char)
    requires d < 10
    ensures IsDigit(c) && DigitValue(c) == d
  {
    ('0' as int + d) as char
  }

  /** The value of a run of digits, most significant digit first. */
  function DecimalValue(s: string): nat
    requires AllDigits(s)
  {
    if |s| == 0 then 0 else 10 * DecimalValue(s[..|s| - 1]) + DigitValue(s[|s| - 1])
  }

  /** `str(n)` for a non-negative integer: digits without leading zeros. */
  function NatToDecimal(n: nat): (s: string)
    ensures |s| >= 1 && AllDigits(s)
    ensures |s| > 1 ==> s[0] != '0'
  {
    if n < 10 then [DigitChar(n)] else NatToDecimal(n / 10) + [DigitChar(n % 10)]
  }

  /** `str(i)` for any integer: a minus sign before the digits of a negative value. */
  function IntToDecimal(i: int): (s: string)
    ensures |s| >= 1
    ensures s[0] == '-' <==> i < 0
    ensures i >= 0 ==> AllDigits(s)
  {
    if i < 0 then "-" + NatToDecimal(-i) else NatToDecimal(i)
  }

  /** Length of the longest run of digits at the start of s (the greedy `[0-9]*`). */
  function LeadingDigits(s: string): (k: nat)
    ensures k <= |s|
    ensures AllDigits(s[..k])
    ensures k < |s| ==> !IsDigit(s[k])
  {
    if |s| > 0 && IsDigit(s[0]) then
      var k := 1 + LeadingDigits(s[1..]);
      assert s[..k] == [s[0]] + s[1..][..k - 1];
      k
    else 0
  }

  /**
   `[+-]?[0-9]+` matched at the start of s, trailing text allowed, and the
   value of the match: the sign applies to the maximal run of digits.
   */
  function ParseSigned(s: string): (r: Option<int>)
    ensures r.Some? <==>
              (|s| > 0 && IsDigit(s[0])) ||
              (|s| > 1 && (s[0] == '+' || s[0] == '-') && IsDigit(s[1]))
  {
    if |s| > 0 && (s[0] == '+' || s[0] == '-') then
      var k := LeadingDigits(s[1..]);
      if k == 0 then None
      else
        var magnitude: int := DecimalValue(s[1..][..k]);
        Some(if s[0] == '-' then -magnitude else magnitude)
    else
      var k := LeadingDigits(s);
      if k == 0 then None else Some(DecimalValue(s[..k]))
  }

  lemma {:induction false} DecimalRoundTrip(n: nat)
    ensures DecimalValue(NatToDecimal(n)) == n
  {
    if n >= 10 {
      var s := NatToDecimal(n);
      assert s[..|s| - 1] == NatToDecimal(n / 10);
      DecimalRoundTrip(n / 10);
    }
  }

  /** A run of digits followed by a non-digit (or nothing) is exactly what the greedy match takes. */
  lemma {:induction false} LeadingDigitsOfRun(d: string, rest: string)
    requires AllDigits(d)
    requires rest == [] || !IsDigit(rest[0])
    ensures LeadingDigits(d + rest) == |d|
  {
    if d == [] {
      assert d + rest == rest;
    } else {
      assert (d + rest)[1..] == d[1..] + rest;
      LeadingDigitsOfRun(d[1..], rest);
    }
  }

  /** Parsing what `str(i)` prints gives back i, whatever non-digit text follows. */
  lemma SignedRoundTrip(i: int, rest: string)
    requires rest == [] || !IsDigit(rest[0])
    ensures ParseSigned(IntToDecimal(i) + rest) == Some(i)
  {
    var d := NatToDecimal(if i < 0 then -i else i);
    DecimalRoundTrip(if i < 0 then -i else i);
    LeadingDigitsOfRun(d, rest);
    var s := IntToDecimal(i) + rest;
    if i < 0 {
      assert s[1..] == d + rest;
      assert s[1..][..|d|] == d;
    } else {
      assert s == d + rest;
      assert s[..|d|] == d;
    }
  }

  /** An explicit plus sign is accepted and does not change the value. */
  lemma PlusSignAccepted(n: nat, rest: string)
    requires rest == [] || !IsDigit(rest[0])
    ensures ParseSigned("+" + NatToDecimal(n) + rest) == Some(n)
  {
    var d := NatToDecimal(n);
    var s := "+" + d + rest;
    DecimalRoundTrip(n);
    LeadingDigitsOfRun(d, rest);
    assert s[1..] == d + rest;
    assert s[1..][..|d|] == d;
  }
}
