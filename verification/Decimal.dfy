/**
 Decimal text of natural numbers, as `String(n)` and `BigInt(text)` produce and read it.
 Cached identifiers, SQL placeholders and partition names are all written this way.
 */
module Decimal {
  import opened Environment

  predicate IsDigit(c: char) {
    '0' <= c <= '9'
  }

  function DigitValue(c: char): nat
    requires IsDigit(c)
  {
    c as int - '0' as int
  }

  predicate AllDigits(s: string) {
    forall i :: 0 <= i < |s| ==> IsDigit(s[i])
  }

  function Text(n: nat): (s: string)
    ensures |s| >= 1
  {
    if n < 10 then ['0' + n as char] else Text(n / 10) + ['0' + (n % 10) as char]
  }

  function Number(s: string): nat
    requires AllDigits(s)
  {
    if s == "" then 0 else Number(s[..|s| - 1]) * 10 + DigitValue(s[|s| - 1])
  }

  /** `BigInt(text)` on plain decimal text; None stands for the SyntaxError it throws. */
  function Parse(s: string): Option<nat> {
    if s != "" && AllDigits(s) then Some(Number(s)) else None
  }

  lemma {:induction false} NumberOfText(n: nat)
    ensures AllDigits(Text(n)) && Number(Text(n)) == n
  {
    if n < 10 {
      assert Text(n)[..0] == "";
    } else {
      NumberOfText(n / 10);
      var high := Text(n / 10);
      assert (high + ['0' + (n % 10) as char])[..|high|] == high;
    }
  }

  lemma ParseOfText(n: nat)
    ensures Parse(Text(n)) == Some(n)
  {
    NumberOfText(n);
  }

  /** `padStart(2, '0')` of a number below 100. */
  function Padded(n: nat): string {
    if n < 10 then "0" + Text(n) else Text(n)
  }

  lemma NumberOfPadded(n: nat)
    requires n < 100
    ensures |Padded(n)| == 2 && AllDigits(Padded(n)) && Number(Padded(n)) == n
  {
    NumberOfText(n);
    if n < 10 {
      var p := Padded(n);
      assert p == ['0', '0' + n as char];
      assert p[..1] == "0" && p[..1][..0] == "";
    } else {
      assert |Text(n / 10)| == 1;
    }
  }
}
