/**
 * Decimal text of integers, as Python's `str(int)` writes it: an optional
 * minus sign followed by the digits, no leading zeros, no plus sign.
 * `ParseInt` reads such text back; the round trip makes the text injective,
 * which is what the vector formatter relies on when it compares a
 * coefficient's text with "0", "1" and "-1".
 */
module Decimal {

  predicate IsDigit(c: char) {
    '0' <= c <= '9'
  }

  function DigitChar(d: nat): (c: char)
    requires d < 10
    ensures IsDigit(c) && c as int - '0' as int == d
  {
    (d + '0' as int) as char
  }

  function DigitValue(c: char): nat
    requires IsDigit(c)
  {
    c as int - '0' as int
  }

  /** Decimal digits of a natural number, most significant first. */
  function NatToString(n: nat): (s: string)
    ensures |s| > 0
  {
    if n < 10 then [DigitChar(n)] else NatToString(n / 10) + [DigitChar(n % 10)]
  }

  /** `str(n)` for a Python int. */
  function IntToString(n: int): (s: string)
    ensures |s| > 0
  {
    if n < 0 then "-" + NatToString(-n) else NatToString(n)
  }

  predicate AllDigits(s: string) {
    forall i :: 0 <= i < |s| ==> IsDigit(s[i])
  }

  function ParseNat(s: string): nat
    requires AllDigits(s)
  {
    if |s| == 0 then 0 else ParseNat(s[..|s| - 1]) * 10 + DigitValue(s[|s| - 1])
  }

  function ParseInt(s: string): int
    requires |s| > 0 && AllDigits(s[1..]) && (s[0] == '-' || IsDigit(s[0]))
  {
    if s[0] == '-' then -(ParseNat(s[1..]) as int) else ParseNat(s)
  }

  /** The text of a natural number is made of digits only (so it never starts with a sign). */
  lemma {:induction false} NatToStringDigits(n: nat)
    ensures AllDigits(NatToString(n))
  {
    if n >= 10 {
      NatToStringDigits(n / 10);
    }
  }

  /** Reading back the digits of n gives n. */
  lemma {:induction false} NatRoundTrip(n: nat)
    ensures AllDigits(NatToString(n)) && ParseNat(NatToString(n)) == n
  {
    NatToStringDigits(n);
    if n >= 10 {
      var s := NatToString(n);
      assert s[..|s| - 1] == NatToString(n / 10);
      NatRoundTrip(n / 10);
    }
  }

  /** Reading back `str(n)` gives n, for every integer n. */
  lemma IntRoundTrip(n: int)
    ensures var s := IntToString(n);
      |s| > 0 && AllDigits(s[1..]) && (s[0] == '-' || IsDigit(s[0])) && ParseInt(s) == n
  {
    var s := IntToString(n);
    if n < 0 {
      NatRoundTrip(-n);
      assert s[1..] == NatToString(-n);
    } else {
      NatRoundTrip(n);
      assert IsDigit(s[0]);
    }
  }

  /** Different integers have different texts. */
  lemma IntToStringInjective(m: int, n: int)
    ensures IntToString(m) == IntToString(n) <==> m == n
  {
    IntRoundTrip(m);
    IntRoundTrip(n);
  }

  /** The three texts the formatter tests for belong to exactly 0, 1 and -1. */
  lemma SpecialTexts(n: int)
    ensures IntToString(n) == "0" <==> n == 0
    ensures IntToString(n) == "1" <==> n == 1
    ensures IntToString(n) == "-1" <==> n == -1
  {
    assert IntToString(0) == "0";
    assert IntToString(1) == "1";
    assert IntToString(-1) == "-1";
    IntToStringInjective(n, 0);
    IntToStringInjective(n, 1);
    IntToStringInjective(n, -1);
  }

  /** `str(n)` starts with a digit or, exactly for negative n, with '-'. */
  lemma IntToStringLead(n: int)
    ensures IntToString(n)[0] == '-' <==> n < 0
    ensures n >= 0 ==> IsDigit(IntToString(n)[0])
  {
    if n >= 0 {
      NatToStringDigits(n);
    } else {
      NatToStringDigits(-n);
    }
  }
}
