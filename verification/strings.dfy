/**
 * Facts about strings that the line loop and the option parser rely on:
 * the UTF-8 byte length Rust reports as `str::len`, substring containment
 * as `str::contains` tests it, and the lower-casing applied to option values.
 */
module Strings {

  predicate IsAsciiChar(c: char) {
    c as int < 0x80
  }

  predicate IsAscii(s: string) {
    forall i :: 0 <= i < |s| ==> IsAsciiChar(s[i])
  }

  /** Number of bytes in the UTF-8 encoding of `c` (RFC 3629, section 3). */
  function Utf8Width(c: char): (w: nat)
    ensures 1 <= w <= 4
    ensures w == 1 <==> IsAsciiChar(c)
  {
    if c as int < 0x80 then 1
    else if c as int < 0x800 then 2
    else if c as int < 0x1_0000 then 3
    else 4
  }

  /** Length in bytes of the UTF-8 encoding of `s`: the value of Rust's `str::len`. */
  function ByteLen(s: string): nat
  {
    if |s| == 0 then 0 else Utf8Width(s[0]) + ByteLen(s[1..])
  }

  lemma {:induction false} ByteLenAppend(a: string, b: string)
    ensures ByteLen(a + b) == ByteLen(a) + ByteLen(b)
  {
    if |a| == 0 {
      assert a + b == b;
    } else {
      assert (a + b)[0] == a[0];
      assert (a + b)[1..] == a[1..] + b;
      ByteLenAppend(a[1..], b);
    }
  }

  /** A string has as many bytes as characters exactly when it is ASCII. */
  lemma {:induction false} ByteLenBounds(s: string)
    ensures |s| <= ByteLen(s) <= 4 * |s|
    ensures ByteLen(s) == |s| <==> IsAscii(s)
  {
    if |s| > 0 {
      ByteLenBounds(s[1..]);
      if IsAsciiChar(s[0]) && IsAscii(s[1..]) {
        forall i | 0 <= i < |s|
          ensures IsAsciiChar(s[i])
        {
          if i > 0 {
            assert s[i] == s[1..][i - 1];
          }
        }
      }
    }
  }

  /** `pat` occurs in `s` starting at index `i`. */
  ghost predicate OccursAt(pat: string, s: string, i: int)
  {
    0 <= i && i + |pat| <= |s| && s[i..i + |pat|] == pat
  }

  ghost predicate Occurs(pat: string, s: string)
  {
    exists i :: OccursAt(pat, s, i)
  }

  /** Substring test, scanning `s` for a position where `pat` is a prefix. */
  function Contains(s: string, pat: string): bool
    decreases |s|
  {
    if pat <= s then true
    else if |s| == 0 then false
    else Contains(s[1..], pat)
  }

  lemma PrefixIsOccurrenceAtZero(pat: string, s: string)
    ensures OccursAt(pat, s, 0) <==> pat <= s
  {
  }

  /** An occurrence past the first character is an occurrence in the tail. */
  lemma OccursAtShift(pat: string, s: string, i: int)
    requires 0 < |s| && 1 <= i
    ensures OccursAt(pat, s, i) <==> OccursAt(pat, s[1..], i - 1)
  {
    if i + |pat| <= |s| {
      assert s[1..][i - 1..i - 1 + |pat|] == s[i..i + |pat|];
    }
  }

  lemma {:induction false} ContainsIffOccurs(s: string, pat: string)
    ensures Contains(s, pat) <==> Occurs(pat, s)
    decreases |s|
  {
    PrefixIsOccurrenceAtZero(pat, s);
    if pat <= s {
      assert OccursAt(pat, s, 0);
    } else if |s| == 0 {
      assert forall i :: !OccursAt(pat, s, i);
    } else {
      ContainsIffOccurs(s[1..], pat);
      if Occurs(pat, s[1..]) {
        var i :| OccursAt(pat, s[1..], i);
        OccursAtShift(pat, s, i + 1);
      }
      if Occurs(pat, s) {
        var i :| OccursAt(pat, s, i);
        assert i != 0;
        OccursAtShift(pat, s, i);
      }
    }
  }

  /** The empty pattern occurs in every string. */
  lemma EmptyOccursEverywhere(s: string)
    ensures Occurs([], s)
  {
    assert OccursAt([], s, 0);
  }

  const KelvinSign: char := '\U{212A}'

  /**
   * Lower-casing of one character. ASCII `A`-`Z` map to `a`-`z`; the Kelvin
   * sign is the one non-ASCII character whose full lower-case mapping is an
   * ASCII letter (`k`). Every other character is kept: its lower-case form is
   * either itself or non-ASCII, and the model only compares lower-cased text
   * with ASCII names.
   */
  function LowerChar(c: char): (r: char)
    ensures !IsUpperAscii(r)
    ensures IsUpperAscii(c) ==> r as int == c as int + ('a' as int - 'A' as int)
    ensures IsAsciiChar(c) && !IsUpperAscii(c) ==> r == c
    ensures IsAsciiChar(r) ==> IsAsciiChar(c) || c == KelvinSign
  {
    if 'A' <= c <= 'Z' then (c as int + 32) as char
    else if c == KelvinSign then 'k'
    else c
  }

  function ToLower(s: string): string
  {
    seq(|s|, i requires 0 <= i < |s| => LowerChar(s[i]))
  }

  predicate IsUpperAscii(c: char) {
    'A' <= c <= 'Z'
  }

  /** ASCII text with no upper-case letter, such as an option's table key. */
  predicate IsLowerAscii(t: string) {
    forall i :: 0 <= i < |t| ==> IsAsciiChar(t[i]) && !IsUpperAscii(t[i])
  }

  /**
   * `a` is `b` or one of its upper-case spellings: the capital of a lower-case
   * ASCII letter, or the Kelvin sign in place of `k`.
   */
  predicate CharCaseVariant(a: char, b: char) {
    a == b
    || ('a' <= b <= 'z' && a as int == b as int - ('a' as int - 'A' as int))
    || (b == 'k' && a == KelvinSign)
  }

  /** `s` spells `t` with any of its letters in either case. */
  predicate CaseVariant(s: string, t: string) {
    |s| == |t| && forall i :: 0 <= i < |s| ==> CharCaseVariant(s[i], t[i])
  }

  /** A character lower-cases to a lower-case ASCII `b` exactly when it is a case variant of `b`. */
  lemma LowerCharIff(a: char, b: char)
    requires IsAsciiChar(b) && !IsUpperAscii(b)
    ensures LowerChar(a) == b <==> CharCaseVariant(a, b)
  {
  }

  /**
   * Text lower-cases to a lower-case ASCII key exactly when it spells that key
   * in some mixture of cases.
   */
  lemma ToLowerIffCaseVariant(s: string, t: string)
    requires IsLowerAscii(t)
    ensures ToLower(s) == t <==> CaseVariant(s, t)
  {
    if ToLower(s) == t {
      forall i | 0 <= i < |s|
        ensures CharCaseVariant(s[i], t[i])
      {
        LowerCharIff(s[i], t[i]);
      }
    }
    if CaseVariant(s, t) {
      forall i | 0 <= i < |s|
        ensures ToLower(s)[i] == t[i]
      {
        LowerCharIff(s[i], t[i]);
      }
    }
  }
}
