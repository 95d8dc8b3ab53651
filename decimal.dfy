/** Decimal rendering of a line number, as Rust's `Display` for `usize` writes
    it inside the error message of `TokenizeError`, together with the parser
    that reads it back. */
module Decimal {

  predicate IsDigit(c: char) {
    '0' <= c <= '9'
  }

  predicate AllDigits(s: string) {
    forall k :: 0 <= k < |s| ==> IsDigit(s[k])
  }

  function DigitChar(d: nat): (c: char)
    requires d < 10
    ensures IsDigit(c) && c as int - '0' as int == d
  {
    ('0' as int + d) as char
  }

  function DigitValue(c: char): (d: nat)
    requires IsDigit(c)
    ensures d < 10 && DigitChar(d) == c
  {
    c as int - '0' as int
  }

  /** The shortest decimal numeral of `n`: no sign, no leading zero. */
  function ToDecimal(n: nat): (s: string)
    ensures |s| > 0 && AllDigits(s)
    ensures s[0] == '0' ==> n == 0
  {
    if n < 10 then [DigitChar(n)] else ToDecimal(n / 10) + [DigitChar(n % 10)]
  }

  /** The value of a numeral written with the most significant digit first. */
  function FromDecimal(s: string): nat
    requires AllDigits(s)
  {
    if s == [] then 0 else FromDecimal(s[..|s| - 1]) * 10 + DigitValue(s[|s| - 1])
  }

  lemma {:induction false} FromToDecimal(n: nat)
    ensures FromDecimal(ToDecimal(n)) == n
  {
    var s := ToDecimal(n);
    if n < 10 {
      assert s[..|s| - 1] == [];
    } else {
      assert s[..|s| - 1] == ToDecimal(n / 10);
      FromToDecimal(n / 10);
    }
  }

  /** The longest prefix of `s` made of digits. */
  function TakeDigits(s: string): (d: string)
    ensures AllDigits(d) && d <= s
    ensures |d| < |s| ==> !IsDigit(s[|d|])
  {
    if s == [] || !IsDigit(s[0]) then [] else [s[0]] + TakeDigits(s[1..])
  }

  /** A run of digits followed by a non-digit (or nothing) is read whole. */
  lemma {:induction false} TakeDigitsOfNumeral(d: string, rest: string)
    requires AllDigits(d)
    requires rest == [] || !IsDigit(rest[0])
    ensures TakeDigits(d + rest) == d
  {
    if d != [] {
      assert (d + rest)[1..] == d[1..] + rest;
      TakeDigitsOfNumeral(d[1..], rest);
    } else {
      assert d + rest == rest;
    }
  }
}
