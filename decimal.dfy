/** Python's `str(i)` for an integer: the decimal digits without leading
    zeros, preceded by '-' when negative. Serving turns cluster ids into map
    keys and fallback labels with it, so it must be one-to-one; parsing the
    text back gives the number again. */
module Decimal {

  function DigitChar(d: nat): (c: char)
    requires d < 10
    ensures '0' <= c <= '9'
  {
    "0123456789"[d]
  }

  function DigitValue(c: char): nat
    requires '0' <= c <= '9'
  {
    (c as int - '0' as int) as nat
  }

  lemma DigitRoundTrip(d: nat)
    requires d < 10
    ensures DigitValue(DigitChar(d)) == d
  {
  }

  predicate AllDigits(s: string) {
    forall i :: 0 <= i < |s| ==> '0' <= s[i] <= '9'
  }

  /** The digits of `n`, most significant first. */
  function NatToString(n: nat): (s: string)
    ensures |s| >= 1 && AllDigits(s)
    ensures s[0] == '0' <==> n == 0
    ensures n == 0 ==> s == "0"
  {
    if n < 10 then [DigitChar(n)]
    else
      var front := NatToString(n / 10);
      front + [DigitChar(n % 10)]
  }

  /** `str(i)`. */
  function IntToString(i: int): (s: string)
    ensures |s| >= 1
    ensures s[0] == '-' <==> i < 0
  {
    if i < 0 then "-" + NatToString(-i) else NatToString(i)
  }

  /** The value of a string of digits. */
  function DigitsValue(s: string): nat
    requires AllDigits(s)
  {
    if s == [] then 0 else DigitsValue(s[..|s| - 1]) * 10 + DigitValue(s[|s| - 1])
  }

  /** `int(s)` on the texts `str` produces. */
  function ParseInt(s: string): (r: int)
    requires |s| >= 1
    requires s[0] == '-' ==> AllDigits(s[1..])
    requires s[0] != '-' ==> AllDigits(s)
  {
    if s[0] == '-' then 0 - DigitsValue(s[1..]) as int else DigitsValue(s)
  }

  lemma {:induction false} NatRoundTrip(n: nat)
    ensures DigitsValue(NatToString(n)) == n
  {
    var s := NatToString(n);
    if n < 10 {
      DigitRoundTrip(n);
      assert s[..|s| - 1] == [];
    } else {
      var front := NatToString(n / 10);
      assert s[..|s| - 1] == front;
      NatRoundTrip(n / 10);
      DigitRoundTrip(n % 10);
    }
  }

  /** Reading back what `str` wrote gives the integer again. */
  lemma RoundTrip(i: int)
    ensures var s := IntToString(i);
      (s[0] == '-' ==> AllDigits(s[1..])) && (s[0] != '-' ==> AllDigits(s)) && ParseInt(s) == i
  {
    if i < 0 {
      NegativeRoundTrip(-i);
    } else {
      NatRoundTrip(i);
    }
  }

  /** The text of a negative number is '-' and the digits of its magnitude. */
  lemma NegativeRoundTrip(n: nat)
    requires n > 0
    ensures IntToString(-(n as int))[1..] == NatToString(n)
    ensures AllDigits(IntToString(-(n as int))[1..])
    ensures ParseInt(IntToString(-(n as int))) == -(n as int)
  {
    var d := NatToString(n);
    var s := IntToString(-(n as int));
    assert s == "-" + d;
    assert s[1..] == d;
    NatRoundTrip(n);
  }

  /** Different integers have different decimal texts. */
  lemma Injective(a: int, b: int)
    requires IntToString(a) == IntToString(b)
    ensures a == b
  {
    RoundTrip(a);
    RoundTrip(b);
  }
}
