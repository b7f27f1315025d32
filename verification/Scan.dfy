/** Scanners over bytes, written here as characters (lib/utils.c, lib/utils.h). Every charset counts
    NUL as a member, because the search for a member runs up to and including the terminator. */
module Scan {

  predicate Member(c: char, charset: string) {
    c in charset || c == '\0'
  }

  predicate IsSpace(c: char) {
    c == ' ' || '\t' <= c <= '\r'
  }

  /** Length of the longest prefix of members. */
  function SkipIn(s: string, charset: string): (n: nat)
    ensures n <= |s|
    ensures forall i :: 0 <= i < n ==> Member(s[i], charset)
    ensures n < |s| ==> !Member(s[n], charset)
  {
    if s != [] && Member(s[0], charset) then 1 + SkipIn(s[1..], charset) else 0
  }

  /** Length of the longest prefix of non-members. */
  function SkipOut(s: string, charset: string): (n: nat)
    ensures n <= |s|
    ensures forall i :: 0 <= i < n ==> !Member(s[i], charset)
    ensures n < |s| ==> Member(s[n], charset)
  {
    if s != [] && !Member(s[0], charset) then 1 + SkipOut(s[1..], charset) else 0
  }

  function SkipSpace(s: string): (n: nat)
    ensures n <= |s|
    ensures forall i :: 0 <= i < n ==> IsSpace(s[i])
    ensures n < |s| ==> !IsSpace(s[n])
  {
    if s != [] && IsSpace(s[0]) then 1 + SkipSpace(s[1..]) else 0
  }

  /** Past the next run of members. */
  function SkipPast(s: string, charset: string): (n: nat)
    ensures n <= |s|
    ensures s != [] ==> n > 0
  {
    SkipOut(s, charset) + SkipIn(s[SkipOut(s, charset)..], charset)
  }

  lemma SkipInIs(s: string, charset: string, n: nat)
    requires n <= |s| && (forall i :: 0 <= i < n ==> Member(s[i], charset))
    requires n < |s| ==> !Member(s[n], charset)
    ensures SkipIn(s, charset) == n
  {
  }

  lemma SkipOutIs(s: string, charset: string, n: nat)
    requires n <= |s| && (forall i :: 0 <= i < n ==> !Member(s[i], charset))
    requires n < |s| ==> Member(s[n], charset)
    ensures SkipOut(s, charset) == n
  {
  }

  lemma SkipSpaceIs(s: string, n: nat)
    requires n <= |s| && (forall i :: 0 <= i < n ==> IsSpace(s[i]))
    requires n < |s| ==> !IsSpace(s[n])
    ensures SkipSpace(s) == n
  {
  }

  /** The inner loop of both charset scanners: it stops at a member or at the terminator, and then
      compares. */
  method FindInCharset(c: char, charset: string) returns (found: bool)
    ensures found == Member(c, charset)
  {
    var i := 0;
    while i < |charset| && charset[i] != c
      invariant 0 <= i <= |charset| && c !in charset[..i]
    {
      i := i + 1;
    }
    assert charset[..|charset|] == charset;
    found := (if i < |charset| then charset[i] else '\0') == c;
  }

  method ScanCharsetNSkip(s: string, charset: string) returns (n: nat)
    ensures n == SkipIn(s, charset)
  {
    n := 0;
    while n < |s|
      invariant n <= |s| && forall i :: 0 <= i < n ==> Member(s[i], charset)
    {
      var found := FindInCharset(s[n], charset);
      if !found {
        break;
      }
      n := n + 1;
    }
    SkipInIs(s, charset, n);
  }

  method ScanNonCharsetNSkip(s: string, charset: string) returns (n: nat)
    ensures n == SkipOut(s, charset)
  {
    n := 0;
    while n < |s|
      invariant n <= |s| && forall i :: 0 <= i < n ==> !Member(s[i], charset)
    {
      var found := FindInCharset(s[n], charset);
      if found {
        break;
      }
      n := n + 1;
    }
    SkipOutIs(s, charset, n);
  }

  method ScanWhiteNSkip(s: string) returns (n: nat)
    ensures n == SkipSpace(s)
  {
    n := 0;
    while n < |s| && IsSpace(s[n])
      invariant n <= |s| && forall i :: 0 <= i < n ==> IsSpace(s[i])
    {
      n := n + 1;
    }
    SkipSpaceIs(s, n);
  }

  method ScanPast(s: string, charset: string) returns (n: nat)
    ensures n == SkipPast(s, charset)
  {
    n := ScanNonCharsetNSkip(s, charset);
    if n < |s| {
      var more := ScanCharsetNSkip(s[n..], charset);
      n := n + more;
    }
  }

  function Lower(c: char): char {
    if 'A' <= c <= 'Z' then c + ('a' - 'A') else c
  }

  /** Equal but for letter case. */
  predicate SameText(a: string, b: string) {
    |a| == |b| && forall i :: 0 <= i < |a| ==> Lower(a[i]) == Lower(b[i])
  }

  const UPPER := "ABCDEFGHIJKLMNOPQRSTUVWXYZ"
  const LOWER := "abcdefghijklmnopqrstuvwxyz"

  /** The same character, or the same letter of the alphabet in the other case. */
  predicate SameLetter(c: char, d: char) {
    c == d || exists k: nat :: k < 26 && ((c == UPPER[k] && d == LOWER[k]) || (c == LOWER[k] && d == UPPER[k]))
  }

  predicate SameLetters(a: string, b: string) {
    |a| == |b| && forall i :: 0 <= i < |a| ==> SameLetter(a[i], b[i])
  }

  lemma Alphabet(k: nat)
    requires k < 26
    ensures UPPER[k] == 'A' + (k as char) && LOWER[k] == 'a' + (k as char)
  {
  }

  lemma SameLetterIs(c: char, d: char)
    ensures Lower(c) == Lower(d) <==> SameLetter(c, d)
  {
    if Lower(c) == Lower(d) && c != d {
      var k := (Lower(c) - 'a') as int;
      Alphabet(k);
      assert (c == UPPER[k] && d == LOWER[k]) || (c == LOWER[k] && d == UPPER[k]);
    } else if c != d && SameLetter(c, d) {
      var k: nat :| k < 26 && ((c == UPPER[k] && d == LOWER[k]) || (c == LOWER[k] && d == UPPER[k]));
      Alphabet(k);
    }
  }

  /** Two texts compare equal exactly if they have the same length and differ only in the case of letters. */
  lemma SameTextExactlyIf(a: string, b: string)
    ensures SameText(a, b) <==> SameLetters(a, b)
  {
    hide Lower;
    hide SameLetter;
    if |a| == |b| {
      forall i | 0 <= i < |a|
        ensures Lower(a[i]) == Lower(b[i]) <==> SameLetter(a[i], b[i])
      {
        SameLetterIs(a[i], b[i]);
      }
    }
  }

  method StrNCaseCmp(a: string, b: string) returns (same: bool)
    requires |a| == |b|
    ensures same == SameText(a, b)
  {
    for i := 0 to |a|
      invariant forall k :: 0 <= k < i ==> Lower(a[k]) == Lower(b[k])
    {
      if Lower(a[i]) != Lower(b[i]) {
        return false;
      }
    }
    same := true;
  }
}
