/**
 * Decimal rendering of integers, as Swift's `String(n)` and `"\(n)"` do it
 * (an optional minus sign, then the digits without leading zeros), and a
 * parser that reads such a rendering back.
 */
module Decimal {
  import opened Wrappers

  predicate IsDigit(ch: char) {
    '0' <= ch <= '9'
  }

  predicate AllDigits(s: string) {
    forall i :: 0 <= i < |s| ==> IsDigit(s[i])
  }

  function DigitChar(d: nat): (ch: char)
    requires d < 10
    ensures IsDigit(ch)
  {
    ('0' as int + d) as char
  }

  function DigitValue(ch: char): (d: nat)
    requires IsDigit(ch)
    ensures d < 10
  {
    ch as int - '0' as int
  }

  /** The digits of a natural number, most significant first. */
  function NatString(n: nat): (s: string)
    ensures |s| > 0 && AllDigits(s)
    ensures s[0] == '0' <==> n == 0
    ensures |s| > 1 ==> s[0] != '0'
  {
    if n < 10 then [DigitChar(n)] else NatString(n / 10) + [DigitChar(n % 10)]
  }

  /**
   * The canonical decimal form: a minus sign only before a non-zero number,
   * at least one digit, and no leading zero except in "0" itself.
   */
  predicate IsCanonicalDecimal(s: string) {
    if |s| > 0 && s[0] == '-' then
      |s| > 1 && AllDigits(s[1..]) && s[1] != '0'
    else
      |s| > 0 && AllDigits(s) && (|s| > 1 ==> s[0] != '0')
  }

  /** `String(n)` for a Swift `Int`. */
  function IntString(n: int): (s: string)
    ensures IsCanonicalDecimal(s)
    ensures s[0] == '-' <==> n < 0
    ensures forall i :: 0 <= i < |s| ==> IsDigit(s[i]) || (i == 0 && s[i] == '-')
  {
    if n < 0 then "-" + NatString(-n) else NatString(n)
  }

  /** The value of a string of digits. */
  function DigitsValue(s: string): nat
    requires AllDigits(s)
  {
    if s == [] then 0 else DigitsValue(s[..|s| - 1]) * 10 + DigitValue(s[|s| - 1])
  }

  /** Reads an optional minus sign followed by at least one digit. */
  function ParseInt(s: string): Option<int> {
    if |s| > 0 && s[0] == '-' then
      if |s| > 1 && AllDigits(s[1..]) then Some(-(DigitsValue(s[1..]) as int)) else None
    else if |s| > 0 && AllDigits(s) then Some(DigitsValue(s))
    else None
  }

  lemma {:induction false} NatStringValue(n: nat)
    ensures DigitsValue(NatString(n)) == n
  {
    var s := NatString(n);
    if n < 10 {
      assert s[..|s| - 1] == [];
    } else {
      assert s[..|s| - 1] == NatString(n / 10);
      NatStringValue(n / 10);
    }
  }

  /** Parsing the rendering of any integer gives the integer back. */
  lemma IntStringRoundTrip(n: int)
    ensures ParseInt(IntString(n)) == Some(n)
  {
    if n < 0 {
      assert IntString(n)[1..] == NatString(-n);
      NatStringValue(-n);
    } else {
      NatStringValue(n);
    }
  }

  lemma {:induction false} CanonicalDigitsAreNatString(s: string)
    requires |s| > 0 && AllDigits(s) && (|s| > 1 ==> s[0] != '0')
    ensures NatString(DigitsValue(s)) == s
  {
    var p, c := s[..|s| - 1], s[|s| - 1];
    if |s| == 1 {
      assert DigitsValue(s) == DigitValue(c);
    } else {
      assert p[0] == s[0];
      CanonicalDigitsAreNatString(p);
      var v := DigitsValue(p);
      assert v != 0;
      assert DigitsValue(s) / 10 == v && DigitsValue(s) % 10 == DigitValue(c);
      assert s == p + [c];
    }
  }

  /**
   * The canonical form is the only one: a canonical decimal that reads as
   * `n` is the rendering of `n`.
   */
  lemma CanonicalDecimalIsIntString(s: string, n: int)
    requires IsCanonicalDecimal(s) && ParseInt(s) == Some(n)
    ensures s == IntString(n)
  {
    if s[0] == '-' {
      var t := s[1..];
      CanonicalDigitsAreNatString(t);
      assert DigitsValue(t) != 0;
      assert s == "-" + t;
    } else {
      CanonicalDigitsAreNatString(s);
    }
  }

  /** Two integers render alike exactly when they are equal. */
  lemma IntStringInjective(m: int, n: int)
    ensures IntString(m) == IntString(n) <==> m == n
  {
    IntStringRoundTrip(m);
    IntStringRoundTrip(n);
  }
}
