/**
 * The two text operations the Gravatar class relies on: ASCII lower-casing
 * (PHP's strtolower) and the decimal rendering of an integer that vsprintf's
 * %s conversion produces, together with the decimal parser that inverts it.
 */
module Ascii {
  import opened Base

  /** strtolower on one character: 'A'..'Z' become 'a'..'z', every other character is kept. */
  function LowerChar(c: char): char {
    if 'A' <= c <= 'Z' then (c as int + ('a' as int - 'A' as int)) as char else c
  }

  /** strtolower on a whole string, character by character. */
  function Lower(s: string): (r: string)
    ensures |r| == |s|
    ensures forall i :: 0 <= i < |s| ==> r[i] == LowerChar(s[i])
  {
    if s == [] then [] else [LowerChar(s[0])] + Lower(s[1..])
  }

  /** Two characters that are equal, or are the upper- and lower-case forms of one ASCII letter. */
  predicate SameLetterIgnoringCase(x: char, y: char) {
    || x == y
    || ('A' <= x <= 'Z' && y as int == x as int + 32)
    || ('A' <= y <= 'Z' && x as int == y as int + 32)
  }

  /** Two strings that differ at most in the case of ASCII letters. */
  predicate EqualIgnoringCase(a: string, b: string) {
    |a| == |b| && forall i :: 0 <= i < |a| ==> SameLetterIgnoringCase(a[i], b[i])
  }

  /** Two characters lower-case alike exactly when they differ at most in letter case. */
  lemma LowerCharMatches(x: char, y: char)
    ensures LowerChar(x) == LowerChar(y) <==> SameLetterIgnoringCase(x, y)
  {
    if 'A' <= x <= 'Z' {
      if 'A' <= y <= 'Z' {
      }
    }
  }

  /** Lower-casing identifies exactly the strings that differ only in letter case. */
  lemma LowerMatchesIgnoringCase(a: string, b: string)
    ensures Lower(a) == Lower(b) <==> EqualIgnoringCase(a, b)
  {
    if |a| == |b| {
      forall i | 0 <= i < |a| {
        LowerCharMatches(a[i], b[i]);
      }
      if EqualIgnoringCase(a, b) {
        assert forall i :: 0 <= i < |a| ==> Lower(a)[i] == Lower(b)[i];
      }
    }
  }

  /** Lower-casing a lower-cased string changes nothing. */
  lemma LowerIdempotent(s: string)
    ensures Lower(Lower(s)) == Lower(s)
  {
  }

  predicate IsDigit(c: char) {
    '0' <= c <= '9'
  }

  predicate AllDigits(s: string) {
    forall i :: 0 <= i < |s| ==> IsDigit(s[i])
  }

  function DigitChar(d: nat): char
    requires d < 10
  {
    ('0' as int + d) as char
  }

  function DigitValue(c: char): nat
    requires IsDigit(c)
  {
    c as int - '0' as int
  }

  /** The decimal text of a non-negative integer, as PHP's %s conversion renders it. */
  function Decimal(n: nat): (r: string)
    ensures |r| > 0 && AllDigits(r)
    decreases n
  {
    if n < 10 then [DigitChar(n)] else Decimal(n / 10) + [DigitChar(n % 10)]
  }

  /** The value of a string of decimal digits, most significant first. */
  function DigitsValue(s: string): nat
    requires AllDigits(s)
  {
    if s == [] then 0 else 10 * DigitsValue(s[..|s| - 1]) + DigitValue(s[|s| - 1])
  }

  /** Reads a non-empty string of decimal digits; anything else has no value. */
  function ParseDecimal(s: string): (r: Option<nat>)
    ensures r.Some? <==> |s| > 0 && AllDigits(s)
  {
    if |s| > 0 && AllDigits(s) then Some(DigitsValue(s)) else None
  }

  /** Reading back the decimal text of n gives n. */
  lemma {:induction false} DecimalRoundTrip(n: nat)
    ensures ParseDecimal(Decimal(n)) == Some(n)
    decreases n
  {
    var d := n % 10;
    assert DigitValue(DigitChar(d)) == d;
    if n >= 10 {
      var q := n / 10;
      var init := Decimal(q);
      var s := init + [DigitChar(d)];
      assert Decimal(n) == s;
      assert s[..|s| - 1] == init;
      DecimalRoundTrip(q);
      assert DigitsValue(init) == q;
      assert DigitsValue(s) == 10 * q + d;
      assert n == 10 * q + d;
    } else {
      var s := [DigitChar(n)];
      assert Decimal(n) == s;
      assert s[..|s| - 1] == [];
      assert DigitsValue(s) == 10 * DigitsValue([]) + DigitValue(s[0]);
    }
  }
}
