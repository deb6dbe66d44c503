/**
 * Decimal rendering of integers, as Python's `str(int)` and the `%Y`, `%m`,
 * `%d`, `%H`, `%M`, `%S` directives of `strftime` produce it, and a reader
 * of decimal digits that undoes it.
 */
module Decimal {
  import opened Wrappers

  predicate IsDigit(c: char) {
    '0' <= c <= '9'
  }

  predicate AllDigits(s: string) {
    forall i :: 0 <= i < |s| ==> IsDigit(s[i])
  }

  function DigitChar(d: nat): (c: char)
    requires d < 10
    ensures IsDigit(c)
  {
    ('0' as int + d) as char
  }

  function DigitValue(c: char): (d: nat)
    requires IsDigit(c)
    ensures d < 10 && DigitChar(d) == c
  {
    c as int - '0' as int
  }

  /** The number a string of decimal digits denotes, most significant first. */
  function DigitsValue(s: string): nat
    requires AllDigits(s)
  {
    if s == [] then 0 else DigitsValue(s[..|s| - 1]) * 10 + DigitValue(s[|s| - 1])
  }

  function Pow10(n: nat): (p: nat)
    ensures p >= 1
  {
    if n == 0 then 1 else 10 * Pow10(n - 1)
  }

  /** `str(n)` for a natural number: the shortest decimal numeral. */
  function NatToDecimal(n: nat): (r: string)
    ensures |r| >= 1
    decreases n
  {
    if n < 10 then [DigitChar(n)] else NatToDecimal(n / 10) + [DigitChar(n % 10)]
  }

  /** `str(n)` for any integer: a minus sign before the magnitude when negative. */
  function IntToDecimal(n: int): (r: string)
    ensures |r| >= 1
  {
    if n < 0 then "-" + NatToDecimal(-n) else NatToDecimal(n)
  }

  /** `n` in exactly `width` digits, padded with leading zeros (`%02d` and
      friends); only the low `width` digits survive when `n` is too large. */
  function FixedWidth(n: nat, width: nat): (r: string)
    ensures |r| == width && AllDigits(r)
  {
    if width == 0 then [] else FixedWidth(n / 10, width - 1) + [DigitChar(n % 10)]
  }

  /** Reads back an integer written by `IntToDecimal`: optional minus sign,
      then at least one digit. */
  function ParseInt(s: string): Option<int> {
    if |s| >= 2 && s[0] == '-' && AllDigits(s[1..]) then Some(-(DigitsValue(s[1..]) as int))
    else if |s| >= 1 && AllDigits(s) then Some(DigitsValue(s))
    else None
  }

  lemma DigitsValueAppend(s: string, c: char)
    requires AllDigits(s) && IsDigit(c)
    ensures AllDigits(s + [c]) && DigitsValue(s + [c]) == DigitsValue(s) * 10 + DigitValue(c)
  {
    assert (s + [c])[..|s|] == s;
  }

  /** `str(n)` of a natural number is digits only, with no leading zero. */
  lemma {:induction false} NatToDecimalDigits(n: nat)
    ensures AllDigits(NatToDecimal(n))
    ensures |NatToDecimal(n)| > 1 ==> NatToDecimal(n)[0] != '0'
    decreases n
  {
    if n >= 10 {
      NatToDecimalDigits(n / 10);
      assert NatToDecimal(n)[0] == NatToDecimal(n / 10)[0];
    }
  }

  /** `str(n)` of an integer is digits, after a minus sign exactly when `n`
      is negative. */
  lemma IntToDecimalChars(n: int)
    ensures var r := IntToDecimal(n);
      && (r[0] == '-' <==> n < 0)
      && forall i :: 0 <= i < |r| ==> IsDigit(r[i]) || (i == 0 && r[i] == '-')
  {
    if n < 0 {
      NatToDecimalDigits(-n);
      assert IntToDecimal(n)[1..] == NatToDecimal(-n);
    } else {
      NatToDecimalDigits(n);
    }
  }

  /** The numeral `str(n)` denotes `n`. */
  lemma {:induction false} NatToDecimalValue(n: nat)
    ensures AllDigits(NatToDecimal(n)) && DigitsValue(NatToDecimal(n)) == n
    decreases n
  {
    NatToDecimalDigits(n);
    if n >= 10 {
      NatToDecimalValue(n / 10);
      DigitsValueAppend(NatToDecimal(n / 10), DigitChar(n % 10));
    }
  }

  /** A fixed-width field denotes its number whenever the number fits. */
  lemma {:induction false} FixedWidthValue(n: nat, width: nat)
    requires n < Pow10(width)
    ensures DigitsValue(FixedWidth(n, width)) == n
  {
    if width > 0 {
      FixedWidthValue(n / 10, width - 1);
      DigitsValueAppend(FixedWidth(n / 10, width - 1), DigitChar(n % 10));
    }
  }

  /** Decimal rendering is undone by `ParseInt`; in particular two different
      integers never render to the same text. */
  lemma IntToDecimalRoundTrip(n: int)
    ensures ParseInt(IntToDecimal(n)) == Some(n)
  {
    var s := IntToDecimal(n);
    if n < 0 {
      var m := NatToDecimal(-n);
      NatToDecimalValue(-n);
      assert s[0] == '-' && s[1..] == m;
    } else {
      NatToDecimalValue(n);
      assert IsDigit(s[0]);
    }
  }
}
