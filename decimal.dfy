/** The decimal rendering of integers that `valid_proof` relies on when it
    formats `f'{last_proof}{proof}'`: Python's `str` of an `int`, for integers
    of any size (the interpreter's limit on digits, past which it raises
    `ValueError`, is not modelled). */
module Decimal {
  import opened LedgerTypes

  predicate IsDigit(c: char) { '0' <= c <= '9' }

  predicate AllDigits(s: string) { forall i :: 0 <= i < |s| ==> IsDigit(s[i]) }

  function DigitChar(d: nat): (c: char)
    requires d < 10
    ensures IsDigit(c)
  {
    (('0' as int) + d) as char
  }

  function DigitValue(c: char): (d: nat)
    requires IsDigit(c)
    ensures d < 10
  {
    c as int - '0' as int
  }

  /** The digits of `n`, most significant first, without leading zeros. */
  function Digits(n: nat): string
    decreases n
  {
    if n < 10 then [DigitChar(n)] else Digits(n / 10) + [DigitChar(n % 10)]
  }

  /** `str(n)`: a minus sign for negative numbers, then the digits of `|n|`. */
  function ToDecimal(n: int): (s: string)
    ensures |s| >= 1 && (s[0] == '-' <==> n < 0)
    ensures var digits := if n < 0 then s[1..] else s;
      |digits| >= 1 && AllDigits(digits) && (digits[0] == '0' <==> n == 0)
  {
    DigitsShape(if n < 0 then -n else n);
    assert n < 0 ==> ("-" + Digits(-n))[1..] == Digits(-n);
    if n < 0 then "-" + Digits(-n) else Digits(n)
  }

  /** The number a run of digits denotes. */
  function DigitsValue(s: string): nat
    requires AllDigits(s)
    decreases |s|
  {
    if s == [] then 0 else 10 * DigitsValue(s[..|s| - 1]) + DigitValue(s[|s| - 1])
  }

  /** Reads an optional minus sign followed by at least one digit; anything else is `None`. */
  function ParseDecimal(s: string): Option<int>
  {
    if s != [] && s[0] == '-' then
      if |s| > 1 && AllDigits(s[1..]) then Some(-(DigitsValue(s[1..]) as int)) else None
    else if s != [] && AllDigits(s) then Some(DigitsValue(s))
    else None
  }

  /** `str` of a natural number is a non-empty run of digits that starts with
      `0` exactly when the number is zero (so there are no leading zeros). */
  lemma {:induction false} DigitsShape(n: nat)
    ensures |Digits(n)| >= 1 && AllDigits(Digits(n))
    ensures Digits(n)[0] == '0' <==> n == 0
    decreases n
  {
    if n >= 10 {
      DigitsShape(n / 10);
      var s := Digits(n);
      assert s == Digits(n / 10) + [DigitChar(n % 10)];
      assert s[0] == Digits(n / 10)[0];
      forall i | 0 <= i < |s| ensures IsDigit(s[i]) {
        if i < |s| - 1 { assert s[i] == Digits(n / 10)[i]; }
      }
    }
  }

  /** Reading back the digits of `n` gives `n`. */
  lemma {:induction false} DigitsRoundTrip(n: nat)
    ensures AllDigits(Digits(n)) && DigitsValue(Digits(n)) == n
    decreases n
  {
    DigitsShape(n);
    var s := Digits(n);
    if n < 10 {
      assert s[..|s| - 1] == [];
    } else {
      DigitsRoundTrip(n / 10);
      assert s[..|s| - 1] == Digits(n / 10);
      assert s[|s| - 1] == DigitChar(n % 10);
    }
  }

  /** `str(n)` parses back to `n`: the rendering loses nothing. */
  lemma DecimalRoundTrip(n: int)
    ensures ParseDecimal(ToDecimal(n)) == Some(n)
  {
    if n < 0 {
      DigitsRoundTrip(-n);
      DigitsShape(-n);
      assert ToDecimal(n)[1..] == Digits(-n);
    } else {
      DigitsRoundTrip(n);
      DigitsShape(n);
      assert IsDigit(ToDecimal(n)[0]);
    }
  }

  /** Distinct integers have distinct renderings. */
  lemma DecimalInjective(a: int, b: int)
    requires ToDecimal(a) == ToDecimal(b)
    ensures a == b
  {
    DecimalRoundTrip(a);
    DecimalRoundTrip(b);
  }
}
