/** Decimal printing as `format!("{}")` does it for integers, and parsing digits back. */
module Decimal {
  predicate IsDigit(c: char) { '0' <= c <= '9' }

  predicate AllDigits(text: string) { forall i :: 0 <= i < |text| ==> IsDigit(text[i]) }

  function DigitChar(d: int): (c: char)
    requires 0 <= d < 10
    ensures IsDigit(c) && DigitValue(c) == d
  {
    ('0' as int + d) as char
  }

  function DigitValue(c: char): (d: int)
    requires IsDigit(c)
    ensures 0 <= d < 10
  {
    c as int - '0' as int
  }

  function PrintNat(n: nat): (text: string)
    ensures AllDigits(text) && text != ""
    ensures ParseNat(text) == n
  {
    if n < 10 then [DigitChar(n)]
    else
      assert (PrintNat(n / 10) + [DigitChar(n % 10)])[..|PrintNat(n / 10)|] == PrintNat(n / 10);
      PrintNat(n / 10) + [DigitChar(n % 10)]
  }

  function ParseNat(text: string): nat
    requires AllDigits(text)
  {
    if text == "" then 0
    else 10 * ParseNat(text[..|text| - 1]) + DigitValue(text[|text| - 1])
  }

  function Print(n: int): (text: string)
    ensures text != ""
    ensures forall i :: 0 <= i < |text| ==> IsDigit(text[i]) || text[i] == '-'
  {
    if n < 0 then "-" + PrintNat(-n) else PrintNat(n)
  }

  /** Two integers never print alike. */
  lemma PrintInjective(a: int, b: int)
    requires Print(a) == Print(b)
    ensures a == b
  {
    assert Print(a)[0] == Print(b)[0];
    if a < 0 {
      assert Print(a)[1..] == PrintNat(-a);
      assert Print(b)[1..] == PrintNat(-b);
    }
  }
}
