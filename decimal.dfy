/**
 * Decimal text: Python's `float(text)` restricted to an optional sign,
 * digits and an optional fraction, and Python's `str(n)` for integers.
 */
module Decimal {
  import opened Wrappers
  import Text
  import Seqs

  predicate AllDigits(s: string) {
    forall k :: 0 <= k < |s| ==> Text.IsDigit(s[k])
  }

  function DigitValue(c: char): nat
    requires Text.IsDigit(c)
  {
    c as int - '0' as int
  }

  /** The number a run of decimal digits denotes, most significant first. */
  function DigitsValue(s: string): nat
    requires AllDigits(s)
  {
    if s == [] then 0 else 10 * DigitsValue(s[..|s| - 1]) + DigitValue(s[|s| - 1])
  }

  function Pow10(n: nat): (r: nat)
    ensures r > 0
  {
    if n == 0 then 1 else 10 * Pow10(n - 1)
  }

  /** Index of the first '.' of `s`, or `|s|` when there is none. */
  function DotIndex(s: string): (r: nat)
    ensures r <= |s|
    ensures forall k :: 0 <= k < r ==> s[k] != '.'
    ensures r < |s| ==> s[r] == '.'
  {
    if s == [] then 0 else if s[0] == '.' then 0 else 1 + DotIndex(s[1..])
  }

  /** Unsigned decimal: digits, optionally '.' and more digits; at least one digit in all. */
  function ParseUnsigned(s: string): Option<real> {
    var d := DotIndex(s);
    var whole := s[..d];
    var frac := if d < |s| then s[d + 1..] else [];
    if AllDigits(whole) && AllDigits(frac) && |whole| + |frac| > 0 then
      Some(DigitsValue(whole) as real + DigitsValue(frac) as real / Pow10(|frac|) as real)
    else
      None
  }

  /** `float(s)` on an already stripped string; `None` where Python raises `ValueError`. */
  function ParseDecimal(s: string): Option<real> {
    if |s| > 0 && (s[0] == '+' || s[0] == '-') then
      match ParseUnsigned(s[1..])
      case None => None
      case Some(x) => Some(if s[0] == '-' then -x else x)
    else
      ParseUnsigned(s)
  }

  function NatDigits(n: nat): (r: string)
    ensures |r| > 0 && AllDigits(r)
  {
    if n < 10 then [('0' as int + n) as char]
    else NatDigits(n / 10) + [('0' as int + n % 10) as char]
  }

  /** Python's `str(n)` for an integer. */
  function IntToString(n: int): string {
    if n < 0 then "-" + NatDigits(-n) else NatDigits(n)
  }

  lemma {:induction false} NatDigitsValue(n: nat)
    ensures DigitsValue(NatDigits(n)) == n
    decreases n
  {
    if n >= 10 {
      NatDigitsValue(n / 10);
      var s := NatDigits(n);
      assert s[..|s| - 1] == NatDigits(n / 10);
    }
  }

  lemma DigitsHaveNoDot(s: string)
    requires AllDigits(s)
    ensures DotIndex(s) == |s|
  {
  }

  /** `float(str(n)) == n`: integer text parses back to the integer. */
  lemma IntToStringParses(n: int)
    ensures ParseDecimal(IntToString(n)) == Some(n as real)
  {
    if n < 0 {
      NegativeTextParses(-n);
    } else {
      NatDigitsParse(n);
      assert NatDigits(n)[0] != '+' && NatDigits(n)[0] != '-';
    }
  }

  /** A '-' in front of the digits of a natural number negates it. */
  lemma NegativeTextParses(m: nat)
    ensures ParseDecimal("-" + NatDigits(m)) == Some(-(m as real))
  {
    var t := "-" + NatDigits(m);
    NatDigitsParse(m);
    assert t[0] == '-';
    Seqs.DropPrefix("-", NatDigits(m));
    assert ParseUnsigned(t[1..]) == Some(m as real);
  }

  lemma NatDigitsParse(m: nat)
    ensures ParseUnsigned(NatDigits(m)) == Some(m as real)
  {
    var digits := NatDigits(m);
    NatDigitsValue(m);
    DigitsHaveNoDot(digits);
    assert digits[..|digits|] == digits;
  }

  /** Digits, a '.', and a non-empty run of digits parse to a non-negative number. */
  lemma {:induction false} PointNumberParses(whole: string, frac: string)
    requires AllDigits(whole) && AllDigits(frac) && |frac| > 0
    ensures ParseUnsigned(whole + "." + frac).Some?
    ensures ParseUnsigned(whole + "." + frac).value >= 0.0
  {
    var s := whole + "." + frac;
    DigitsHaveNoDot(whole);
    assert DotIndex(s) == |whole| by {
      assert forall k :: 0 <= k < |whole| ==> s[k] == whole[k];
      assert s[|whole|] == '.';
    }
    assert s[..|whole|] == whole;
    assert s[|whole| + 1..] == frac;
  }

  /** Text that starts with anything but a sign, a digit or '.' is not a number. */
  lemma BadLeadParses(c: char, rest: string)
    requires c != '+' && c != '-' && c != '.' && !Text.IsDigit(c)
    ensures ParseDecimal([c] + rest) == None
  {
    var s := [c] + rest;
    assert s[0] == c;
    var d := DotIndex(s);
    assert d > 0;
    assert !AllDigits(s[..d]) by { assert s[..d][0] == c; }
  }
}
