/**
 * String helpers the manager relies on: Python's substring test `sub in s`,
 * `str.lower()` restricted to ASCII letters, and `str(n)` for integers,
 * together with a decimal reader that undoes `str(n)`.
 */
module Text {
  import opened Wrappers

  /** Lower-cases one ASCII letter and leaves every other character alone. */
  function LowerChar(c: char): (r: char)
    ensures 'A' <= c <= 'Z' ==> 'a' <= r <= 'z' && r as int - c as int == 32
    ensures !('A' <= c <= 'Z') ==> r == c
  {
    if 'A' <= c <= 'Z' then (c as int + 32) as char else c
  }

  /** `s.lower()` on ASCII text: same length, each position lower-cased. */
  function Lower(s: string): (r: string)
    ensures |r| == |s|
    ensures forall i :: 0 <= i < |s| ==> r[i] == LowerChar(s[i])
  {
    if |s| == 0 then "" else [LowerChar(s[0])] + Lower(s[1..])
  }

  /** Text without upper-case ASCII letters is already lower-case. */
  lemma LowerFixesLowerCase(s: string)
    requires forall i :: 0 <= i < |s| ==> !('A' <= s[i] <= 'Z')
    ensures Lower(s) == s
  {
    assert forall i :: 0 <= i < |s| ==> Lower(s)[i] == s[i];
  }

  /** Lower-casing twice is lower-casing once. */
  lemma LowerIdempotent(s: string)
    ensures Lower(Lower(s)) == Lower(s)
  {
    var once := Lower(s);
    forall i | 0 <= i < |s| ensures Lower(once)[i] == once[i] {
      assert once[i] == LowerChar(s[i]);
    }
  }

  /** `sub` occurs in `s` starting at position `i`. */
  predicate OccursAt(s: string, sub: string, i: int) {
    0 <= i && i + |sub| <= |s| && s[i..i + |sub|] == sub
  }

  lemma OccursShift(s: string, sub: string, i: int)
    requires 1 <= i && |s| > 0
    ensures OccursAt(s, sub, i) <==> OccursAt(s[1..], sub, i - 1)
  {
    if i + |sub| <= |s| {
      var t := s[1..];
      var a, b := s[i..i + |sub|], t[i - 1..i - 1 + |sub|];
      forall k | 0 <= k < |sub| ensures a[k] == b[k] {
        assert a[k] == s[i + k];
        assert b[k] == t[i - 1 + k] == s[i + k];
      }
      assert a == b;
    }
  }

  /** Python's `sub in s`: some window of `s` equals `sub` (the empty string occurs everywhere). */
  function Contains(s: string, sub: string): (b: bool)
    decreases |s|
    ensures b <==> exists i :: OccursAt(s, sub, i)
  {
    if |s| < |sub| then false
    else if s[..|sub|] == sub then assert OccursAt(s, sub, 0); true
    else
      assert !OccursAt(s, sub, 0);
      forall i | 1 <= i && OccursAt(s, sub, i) ensures OccursAt(s[1..], sub, i - 1) {
        OccursShift(s, sub, i);
      }
      forall j | OccursAt(s[1..], sub, j) ensures OccursAt(s, sub, j + 1) {
        OccursShift(s, sub, j + 1);
      }
      Contains(s[1..], sub)
  }

  predicate IsDigit(c: char) {
    '0' <= c <= '9'
  }

  function DigitChar(d: nat): (c: char)
    requires d < 10
    ensures IsDigit(c)
  {
    "0123456789"[d]
  }

  function DigitValue(c: char): nat
    requires IsDigit(c)
  {
    c as int - '0' as int
  }

  /** Decimal digits of a natural number, most significant first, with no leading zero. */
  function NatToString(n: nat): (s: string)
    decreases n
    ensures |s| > 0
    ensures forall i :: 0 <= i < |s| ==> IsDigit(s[i])
    ensures s[0] == '0' <==> n == 0
  {
    if n < 10 then [DigitChar(n)] else NatToString(n / 10) + [DigitChar(n % 10)]
  }

  /**
   * The form of Python's `str(n)`: an optional minus sign, then at least one decimal
   * digit, with no leading zero unless the number is zero, and no "-0".
   */
  predicate CanonicalDecimal(s: string) {
    var digits := if |s| > 0 && s[0] == '-' then s[1..] else s;
    && |digits| > 0
    && (forall i :: 0 <= i < |digits| ==> IsDigit(digits[i]))
    && (|digits| > 1 || |digits| < |s| ==> digits[0] != '0')
  }

  /** Python's `str(n)` for an `int`: a minus sign before the digits of a negative number. */
  function IntToString(n: int): (s: string)
    ensures |s| > 0
    ensures n < 0 <==> s[0] == '-'
    ensures CanonicalDecimal(s)
  {
    if n < 0 then
      var t := NatToString(-n);
      assert ("-" + t)[1..] == t;
      "-" + t
    else NatToString(n)
  }

  /** The value of a string of decimal digits, read left to right. */
  function DigitsValue(s: string): nat
    requires forall i :: 0 <= i < |s| ==> IsDigit(s[i])
  {
    if |s| == 0 then 0 else DigitsValue(s[..|s| - 1]) * 10 + DigitValue(s[|s| - 1])
  }

  /** Reads an optionally signed decimal integer; `None` for anything else. */
  function ParseInt(s: string): Option<int> {
    if |s| > 0 && s[0] == '-' then
      if |s| > 1 && forall i :: 1 <= i < |s| ==> IsDigit(s[i]) then Some(-(DigitsValue(s[1..]) as int)) else None
    else if |s| > 0 && forall i :: 0 <= i < |s| ==> IsDigit(s[i]) then Some(DigitsValue(s))
    else None
  }

  lemma {:induction false} NatToStringValue(n: nat)
    decreases n
    ensures DigitsValue(NatToString(n)) == n
  {
    if n >= 10 {
      var s := NatToString(n);
      assert s[..|s| - 1] == NatToString(n / 10);
      NatToStringValue(n / 10);
    }
  }

  lemma ParseSignedDigits(t: string)
    requires |t| > 0 && forall i :: 0 <= i < |t| ==> IsDigit(t[i])
    ensures ParseInt(t) == Some(DigitsValue(t) as int)
    ensures ParseInt("-" + t) == Some(-(DigitsValue(t) as int))
  {
    var s := "-" + t;
    assert s[1..] == t;
    assert forall i :: 1 <= i < |s| ==> s[i] == t[i - 1];
  }

  /** `str(n)` loses nothing: reading it back yields `n`. */
  lemma IntToStringRoundTrip(n: int)
    ensures ParseInt(IntToString(n)) == Some(n)
  {
    var m: nat := if n < 0 then -n else n;
    var t := NatToString(m);
    NatToStringValue(m);
    ParseSignedDigits(t);
    assert IntToString(n) == if n < 0 then "-" + t else t;
  }

  /** Two different integers never render to the same text. */
  lemma IntToStringInjective(m: int, n: int)
    ensures IntToString(m) == IntToString(n) ==> m == n
  {
    IntToStringRoundTrip(m);
    IntToStringRoundTrip(n);
  }
}
