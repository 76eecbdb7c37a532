/**
 * Decimal parsing of an unsigned 8-bit integer, as Rust's `u8::from_str`
 * does it: an optional leading `+`, then one or more ASCII digits whose
 * value must fit in 0..255. Anything else (an empty string, a lone `+`,
 * a `-` sign, any other character, a value above 255) is an error.
 */
module Decimal {
  import opened Wrappers

  /** The values of Rust's `u8`. */
  type U8 = x: int | 0 <= x < 256

  predicate IsDigit(c: char) {
    '0' <= c <= '9'
  }

  predicate AllDigits(s: string) {
    forall i :: 0 <= i < |s| ==> IsDigit(s[i])
  }

  function DigitValue(c: char): nat
    requires IsDigit(c)
  {
    c as int - '0' as int
  }

  function DigitChar(d: nat): (c: char)
    requires d < 10
    ensures IsDigit(c) && DigitValue(c) == d
  {
    ('0' as int + d) as char
  }

  /** Value of a digit string, accumulated most significant digit first. */
  function DigitsValue(s: string): nat
    requires AllDigits(s)
    decreases |s|
  {
    if |s| == 0 then 0 else DigitsValue(s[..|s| - 1]) * 10 + DigitValue(s[|s| - 1])
  }

  function ParseU8(s: string): (r: Result<U8>)
    ensures r.Ok? ==> 0 < |s|
    ensures r.Ok? ==> forall i :: 0 <= i < |s| ==> IsDigit(s[i]) || (i == 0 && s[i] == '+')
    ensures r.Ok? ==> 0 < |s| && IsDigit(s[|s| - 1])
  {
    var digits := if 0 < |s| && s[0] == '+' then s[1..] else s;
    if |digits| == 0 || !AllDigits(digits) then Err
    else if DigitsValue(digits) < 256 then Ok(DigitsValue(digits))
    else Err
  }

  /** Canonical decimal spelling of `n`: no sign, no leading zeros. */
  function ToDecimal(n: nat): (s: string)
    ensures 0 < |s| && AllDigits(s)
    decreases n
  {
    if n < 10 then [DigitChar(n)] else ToDecimal(n / 10) + [DigitChar(n % 10)]
  }

  lemma {:induction false} DigitsValueOfDecimal(n: nat)
    ensures DigitsValue(ToDecimal(n)) == n
    decreases n
  {
    if n >= 10 {
      var s := ToDecimal(n);
      var prefix := ToDecimal(n / 10);
      assert s == prefix + [DigitChar(n % 10)];
      assert s[..|s| - 1] == prefix;
      DigitsValueOfDecimal(n / 10);
    }
  }

  /**
   * The canonical spelling of `n`, with or without a `+`, parses exactly when
   * `n` fits in a `u8`, and then to `n` itself.
   */
  lemma ParseU8OfDecimal(n: nat)
    ensures ParseU8(ToDecimal(n)).Ok? <==> n < 256
    ensures ParseU8("+" + ToDecimal(n)).Ok? <==> n < 256
    ensures n < 256 ==> ParseU8(ToDecimal(n)) == Ok(n) && ParseU8("+" + ToDecimal(n)) == Ok(n)
  {
    DigitsValueOfDecimal(n);
  }

  /** A sign with no digit after it is rejected, as are the empty string and a `-` sign. */
  lemma SignWithoutDigitsRejected()
    ensures ParseU8("+").Err? && ParseU8("").Err? && ParseU8("-0").Err?
  {
  }

  /** `k` zero digits. */
  function Zeros(k: nat): (z: string)
    ensures |z| == k && AllDigits(z)
  {
    seq(k, _ => '0')
  }

  lemma {:induction false} DigitsValueOfZeros(k: nat)
    ensures DigitsValue(Zeros(k)) == 0
    decreases k
  {
    if k > 0 {
      assert Zeros(k)[..k - 1] == Zeros(k - 1);
      DigitsValueOfZeros(k - 1);
    }
  }

  /** Leading zeros do not change the value of a digit string. */
  lemma {:induction false} DigitsValueLeadingZeros(k: nat, s: string)
    requires AllDigits(s)
    ensures AllDigits(Zeros(k) + s)
    ensures DigitsValue(Zeros(k) + s) == DigitsValue(s)
    decreases |s|
  {
    var z := Zeros(k);
    assert AllDigits(z + s) by {
      forall i | 0 <= i < |z + s|
        ensures IsDigit((z + s)[i])
      {
        if i < |z| { assert (z + s)[i] == z[i]; } else { assert (z + s)[i] == s[i - |z|]; }
      }
    }
    if |s| == 0 {
      assert z + s == z;
      DigitsValueOfZeros(k);
    } else {
      var t := s[..|s| - 1];
      assert (z + s)[..|z + s| - 1] == z + t;
      assert (z + s)[|z + s| - 1] == s[|s| - 1];
      DigitsValueLeadingZeros(k, t);
    }
  }

  /** A non-empty digit string, with or without `+`, parses to its value when that fits in a `u8`. */
  lemma ParseU8OfDigits(digits: string)
    requires 0 < |digits| && AllDigits(digits)
    ensures ParseU8(digits) == (if DigitsValue(digits) < 256 then Ok(DigitsValue(digits)) else Err)
    ensures ParseU8("+" + digits) == ParseU8(digits)
  {
    assert IsDigit(digits[0]);
    assert ("+" + digits)[1..] == digits;
  }

  /**
   * Leading zeros are accepted: `n` written with any number of leading zeros,
   * with or without a `+`, parses exactly when `n` fits in a `u8`, and then
   * to `n` itself (`007` is 7, `+0255` is 255).
   */
  lemma ParseU8OfPadded(k: nat, n: nat)
    ensures ParseU8(Zeros(k) + ToDecimal(n)) == (if n < 256 then Ok(n) else Err)
    ensures ParseU8("+" + Zeros(k) + ToDecimal(n)) == (if n < 256 then Ok(n) else Err)
  {
    var digits := Zeros(k) + ToDecimal(n);
    DigitsValueOfDecimal(n);
    DigitsValueLeadingZeros(k, ToDecimal(n));
    ParseU8OfDigits(digits);
    assert "+" + Zeros(k) + ToDecimal(n) == "+" + digits;
  }
}
