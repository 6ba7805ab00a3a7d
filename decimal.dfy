/**
 * Decimal rendering of integers, as Go's strconv.Itoa does it, and the
 * parser that undoes it. The parser is not part of the service; it is the
 * partner against which the rendering is proved injective.
 */
module Decimal {
  import opened Wrappers

  predicate IsDigit(c: char) {
    '0' <= c <= '9'
  }

  predicate AllDigits(s: string) {
    forall i :: 0 <= i < |s| ==> IsDigit(s[i])
  }

  function DigitValue(c: char): (d: nat)
    requires IsDigit(c)
    ensures d < 10
  {
    (c as int) - ('0' as int)
  }

  function DigitChar(d: nat): (c: char)
    requires d < 10
    ensures IsDigit(c) && DigitValue(c) == d
  {
    (('0' as int) + d) as char
  }

  /** The decimal digits of n, most significant first, without leading zeros. */
  function NatDigits(n: nat): (s: string)
    ensures |s| >= 1 && AllDigits(s)
    ensures s[0] == '0' ==> n == 0
    decreases n
  {
    if n < 10 then [DigitChar(n)] else NatDigits(n / 10) + [DigitChar(n % 10)]
  }

  /** strconv.Itoa: the decimal form of n, with a leading '-' when n is negative. */
  function Itoa(n: int): (s: string)
    ensures |s| >= 1
    ensures ',' !in s
    ensures s[0] == '-' <==> n < 0
    ensures n >= 0 ==> AllDigits(s)
  {
    if n < 0 then "-" + NatDigits(-n) else NatDigits(n)
  }

  /** The number a string of digits denotes. */
  function DigitsValue(s: string): nat
    requires AllDigits(s)
  {
    if |s| == 0 then 0 else DigitsValue(s[..|s| - 1]) * 10 + DigitValue(s[|s| - 1])
  }

  /** Parses an optional '-' followed by at least one digit; anything else is rejected. */
  function Atoi(s: string): Option<int> {
    if |s| > 0 && s[0] == '-' then
      if |s| > 1 && AllDigits(s[1..]) then Some(-(DigitsValue(s[1..]) as int)) else None
    else if |s| > 0 && AllDigits(s) then Some(DigitsValue(s) as int)
    else None
  }

  lemma {:induction false} DigitsValueOfNatDigits(n: nat)
    ensures DigitsValue(NatDigits(n)) == n
    decreases n
  {
    if n >= 10 {
      var s := NatDigits(n);
      assert s[..|s| - 1] == NatDigits(n / 10);
      DigitsValueOfNatDigits(n / 10);
    }
  }

  lemma AtoiNatDigits(n: nat)
    ensures Atoi(NatDigits(n)) == Some(n)
  {
    var s := NatDigits(n);
    assert IsDigit(s[0]);
    DigitsValueOfNatDigits(n);
  }

  lemma AtoiNegativeDigits(n: nat)
    requires n > 0
    ensures Atoi("-" + NatDigits(n)) == Some(-(n as int))
  {
    var s := "-" + NatDigits(n);
    assert s[1..] == NatDigits(n);
    DigitsValueOfNatDigits(n);
  }

  /** Parsing recovers every integer Itoa renders. */
  lemma AtoiItoa(n: int)
    ensures Atoi(Itoa(n)) == Some(n)
  {
    if n < 0 {
      AtoiNegativeDigits(-n);
    } else {
      AtoiNatDigits(n);
    }
  }

  /** Itoa is injective: two integers never share a rendering. */
  lemma ItoaInjective(m: int, n: int)
    requires Itoa(m) == Itoa(n)
    ensures m == n
  {
    AtoiItoa(m);
    AtoiItoa(n);
  }
}
