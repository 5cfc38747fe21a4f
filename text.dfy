/**
 * Character and string helpers used by the scoring transform: the `\d`
 * class of the column pattern and the upper-casing applied to answers,
 * both restricted to ASCII.
 */
module Text {

  /** An ASCII decimal digit, the class `\d` in the column pattern. */
  predicate IsDigit(c: char) {
    '0' <= c <= '9'
  }

  predicate IsLower(c: char) {
    'a' <= c <= 'z'
  }

  /** ASCII upper-casing of one character; every other character is kept. */
  function UpperChar(c: char): (r: char)
    ensures IsLower(c) ==> r != c && 'A' <= r <= 'Z' && r as int == c as int - 32
    ensures !IsLower(c) ==> r == c
    ensures !IsLower(r)
  {
    if IsLower(c) then (c as int - 'a' as int + 'A' as int) as char else c
  }

  /**
   * Two characters upper-case alike exactly when they are equal or one is
   * the lower-case form of the other.
   */
  lemma UpperCharEqual(a: char, b: char)
    ensures UpperChar(a) == UpperChar(b) <==>
            a == b || (IsLower(a) && b as int == a as int - 32) || (IsLower(b) && a as int == b as int - 32)
  {
  }

  /** ASCII upper-casing of a string, character by character. */
  function Upper(s: string): (r: string)
    ensures |r| == |s|
    ensures forall i :: 0 <= i < |s| ==> r[i] == UpperChar(s[i])
  {
    if s == [] then [] else [UpperChar(s[0])] + Upper(s[1..])
  }

  /** Upper-casing twice is upper-casing once. */
  lemma {:induction false} UpperIdempotent(s: string)
    ensures Upper(Upper(s)) == Upper(s)
  {
    if s != [] {
      UpperIdempotent(s[1..]);
    }
  }

  /**
   * Case-insensitive equality: two strings have the same upper-casing
   * exactly when they agree position by position up to letter case.
   */
  lemma {:induction false} UpperEqual(a: string, b: string)
    ensures Upper(a) == Upper(b) <==>
            |a| == |b| && forall i :: 0 <= i < |a| ==> UpperChar(a[i]) == UpperChar(b[i])
  {
    if |a| == |b| {
      if forall i :: 0 <= i < |a| ==> UpperChar(a[i]) == UpperChar(b[i]) {
        var n := |a|;
        assert forall i :: 0 <= i < n ==> Upper(a)[i] == Upper(b)[i];
      } else {
        var i :| 0 <= i < |a| && UpperChar(a[i]) != UpperChar(b[i]);
        assert Upper(a)[i] != Upper(b)[i];
      }
    }
  }

  /**
   * The maximal run of digits at the start of `s`: what `\d+` consumes,
   * since the quantifier is greedy.
   */
  function LeadingDigits(s: string): (r: string)
    ensures r <= s
    ensures forall i :: 0 <= i < |r| ==> IsDigit(r[i])
    ensures |r| < |s| ==> !IsDigit(s[|r|])
  {
    if s != [] && IsDigit(s[0]) then [s[0]] + LeadingDigits(s[1..]) else []
  }

  /** A digit run that cannot be extended is the maximal one. */
  lemma {:induction false} LeadingDigitsUnique(s: string, r: string)
    requires r <= s
    requires forall i :: 0 <= i < |r| ==> IsDigit(r[i])
    requires |r| < |s| ==> !IsDigit(s[|r|])
    ensures r == LeadingDigits(s)
  {
    if r != [] {
      assert r[1..] <= s[1..];
      assert forall i :: 0 <= i < |r[1..]| ==> IsDigit(r[1..][i]) by {
        forall i | 0 <= i < |r[1..]| ensures IsDigit(r[1..][i]) {
          assert r[1..][i] == r[i + 1];
        }
      }
      LeadingDigitsUnique(s[1..], r[1..]);
      assert r == [r[0]] + r[1..];
    }
  }
}
