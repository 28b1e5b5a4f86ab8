/** Exit codes as the shell prints them and as a 32-bit integer is parsed. */
module Decimal {
  import opened Wrappers

  predicate IsInt32(n: int) { -0x8000_0000 <= n < 0x8000_0000 }

  function DigitChar(d: int): char
    requires 0 <= d < 10
  {
    '0' + d as char
  }

  predicate IsDigit(c: char) { '0' <= c <= '9' }

  function PrintNat(n: nat): string {
    if n < 10 then [DigitChar(n)] else PrintNat(n / 10) + [DigitChar(n % 10)]
  }

  function Print(n: int): string {
    if n < 0 then "-" + PrintNat(-n) else PrintNat(n)
  }

  predicate AllDigits(s: string) {
    forall i :: 0 <= i < |s| ==> IsDigit(s[i])
  }

  function DigitsValue(s: string): nat
    requires AllDigits(s)
  {
    if s == "" then 0
    else DigitsValue(s[..|s| - 1]) * 10 + (s[|s| - 1] as int - '0' as int)
  }

  /** An optional sign and at least one digit; a value outside the range is refused. */
  function ParseInt32(s: string): Option<int> {
    var signed := s != "" && (s[0] == '-' || s[0] == '+');
    var digits := if signed then s[1..] else s;
    if digits == "" || !AllDigits(digits) then None
    else
      var n: int := if signed && s[0] == '-' then 0 - DigitsValue(digits) else DigitsValue(digits);
      if IsInt32(n) then Some(n) else None
  }

  lemma {:induction false} PrintNatBack(n: nat)
    ensures PrintNat(n) != "" && AllDigits(PrintNat(n)) && DigitsValue(PrintNat(n)) == n
  {
    if n < 10 {
      assert PrintNat(n)[..0] == "";
    } else {
      PrintNatBack(n / 10);
      var s := PrintNat(n);
      assert s[..|s| - 1] == PrintNat(n / 10);
    }
  }

  lemma ParseUnsigned(p: string)
    requires p != "" && AllDigits(p) && IsInt32(DigitsValue(p))
    ensures ParseInt32(p) == Some(DigitsValue(p))
  {
    assert IsDigit(p[0]);
  }

  lemma ParseNegative(p: string)
    requires p != "" && AllDigits(p) && IsInt32(0 - DigitsValue(p))
    ensures ParseInt32("-" + p) == Some(0 - DigitsValue(p))
  {
    assert ("-" + p)[1..] == p;
  }

  lemma PrintBack(n: int)
    requires IsInt32(n)
    ensures ParseInt32(Print(n)) == Some(n)
  {
    if n < 0 {
      PrintNatBack(-n);
      ParseNegative(PrintNat(-n));
    } else {
      PrintNatBack(n);
      ParseUnsigned(PrintNat(n));
    }
  }

  /** What parses has only digits after an optional sign. */
  lemma ParsedChars(s: string)
    requires ParseInt32(s).Some?
    ensures forall c :: c in s ==> IsDigit(c) || c == '-' || c == '+'
  {
  }
}
