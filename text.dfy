/** Character classes and string operations that the report relies on, restricted
    to the Latin-1 range (U+0000 to U+00FF): whitespace as Python's `str.strip`
    sees it, word characters as the regular-expression class `\w` sees them, case
    mapping as `str.upper` / `str.lower` do it, and substring containment as
    Python's `in` operator on strings. */
module Text {

  /** Python's `str.isspace`, restricted to Latin-1. */
  predicate IsWhitespace(c: char) {
    c == ' ' || ('\t' <= c <= '\r') || ('\U{1C}' <= c <= '\U{1F}') || c == '\U{85}' || c == '\U{A0}'
  }

  /** A character of the class `\w`: letters, digits and numerals, and the underscore. */
  predicate IsWordChar(c: char) {
    || ('a' <= c <= 'z') || ('A' <= c <= 'Z') || ('0' <= c <= '9') || c == '_'
    || c == '\U{AA}' || c == '\U{B2}' || c == '\U{B3}' || c == '\U{B5}' || c == '\U{B9}' || c == '\U{BA}'
    || ('\U{BC}' <= c <= '\U{BE}')
    || ('\U{C0}' <= c <= '\U{D6}') || ('\U{D8}' <= c <= '\U{F6}') || ('\U{F8}' <= c <= '\U{FF}')
  }

  predicate IsLowerLetter(c: char) {
    ('a' <= c <= 'z') || ('\U{E0}' <= c <= '\U{FE}' && c != '\U{F7}')
  }

  predicate IsUpperLetter(c: char) {
    ('A' <= c <= 'Z') || ('\U{C0}' <= c <= '\U{DE}' && c != '\U{D7}')
  }

  /** Upper-case form of one character: a lower-case letter becomes the upper-case
      letter whose lower-case form it is, and nothing else changes. */
  function UpperChar(c: char): (u: char)
    ensures !IsLowerLetter(u)
    ensures IsLowerLetter(c) ==> IsUpperLetter(u) && LowerChar(u) == c
    ensures !IsLowerLetter(c) ==> u == c
  {
    if IsLowerLetter(c) then (c as int - 0x20) as char else c
  }

  /** Lower-case form of one character: an upper-case letter becomes a lower-case
      letter, and nothing else changes. */
  function LowerChar(c: char): (l: char)
    ensures !IsUpperLetter(l)
    ensures IsUpperLetter(c) ==> IsLowerLetter(l)
    ensures !IsUpperLetter(c) ==> l == c
  {
    if IsUpperLetter(c) then (c as int + 0x20) as char else c
  }

  /** `str.upper` */
  function Upper(s: string): (u: string) {
    seq(|s|, i requires 0 <= i < |s| => UpperChar(s[i]))
  }

  /** `str.lower` */
  function Lower(s: string): (l: string) {
    seq(|s|, i requires 0 <= i < |s| => LowerChar(s[i]))
  }

  /** Case mapping changes letters only: it keeps whitespace and word characters where they are. */
  lemma CaseMappingKeepsClasses(c: char)
    ensures IsUpperLetter(c) ==> UpperChar(LowerChar(c)) == c
    ensures IsWordChar(UpperChar(c)) == IsWordChar(c) && IsWordChar(LowerChar(c)) == IsWordChar(c)
    ensures IsWhitespace(UpperChar(c)) == IsWhitespace(c) && IsWhitespace(LowerChar(c)) == IsWhitespace(c)
  {
  }

  /** Upper-casing twice is upper-casing once, and upper-casing ignores a prior lower-casing. */
  lemma UpperAbsorbs(s: string)
    ensures Upper(Upper(s)) == Upper(s)
    ensures Upper(Lower(s)) == Upper(s)
  {
  }

  ghost predicate AllWhitespace(s: string) {
    forall i :: 0 <= i < |s| ==> IsWhitespace(s[i])
  }

  /** `str.lstrip()`: `s` after dropping its leading whitespace. */
  function DropLeading(s: string): string {
    if |s| > 0 && IsWhitespace(s[0]) then DropLeading(s[1..]) else s
  }

  /** `str.rstrip()`: `s` after dropping its trailing whitespace. */
  function DropTrailing(s: string): string {
    if |s| > 0 && IsWhitespace(s[|s| - 1]) then DropTrailing(s[..|s| - 1]) else s
  }

  /** `lstrip` keeps a suffix and drops whitespace only, up to a non-whitespace character. */
  lemma {:induction false} DropLeadingIsSuffix(s: string)
    ensures |DropLeading(s)| <= |s| && DropLeading(s) == s[|s| - |DropLeading(s)|..]
    ensures AllWhitespace(s[..|s| - |DropLeading(s)|])
    ensures DropLeading(s) == [] || !IsWhitespace(DropLeading(s)[0])
  {
    if |s| > 0 && IsWhitespace(s[0]) {
      DropLeadingIsSuffix(s[1..]);
      var r := DropLeading(s);
      assert s[|s| - |r|..] == s[1..][|s| - 1 - |r|..];
    }
  }

  /** `rstrip` keeps a prefix and drops whitespace only, back to a non-whitespace character. */
  lemma {:induction false} DropTrailingIsPrefix(s: string)
    ensures |DropTrailing(s)| <= |s| && DropTrailing(s) == s[..|DropTrailing(s)|]
    ensures AllWhitespace(s[|DropTrailing(s)|..])
    ensures DropTrailing(s) == [] || !IsWhitespace(DropTrailing(s)[|DropTrailing(s)| - 1])
  {
    if |s| > 0 && IsWhitespace(s[|s| - 1]) {
      var p := s[..|s| - 1];
      DropTrailingIsPrefix(p);
      var r := DropTrailing(s);
      assert r == DropTrailing(p);
      assert s[..|r|] == p[..|r|];
      assert s[|r|..] == p[|r|..] + [s[|s| - 1]];
    }
  }

  /** `s[a..a+|r|]` is `r`, with only whitespace around it. */
  ghost predicate PaddedAt(s: string, a: nat, r: string) {
    a + |r| <= |s| && s[a..a + |r|] == r && AllWhitespace(s[..a]) && AllWhitespace(s[a + |r|..])
  }

  /** `str.strip()`: `s` without its leading and trailing whitespace. */
  function Trim(s: string): string {
    DropTrailing(DropLeading(s))
  }

  /** What `strip` returns: an infix of `s` with only whitespace around it, and
      empty or starting and ending with a non-whitespace character. */
  lemma TrimIsPaddedInfix(s: string)
    ensures exists a: nat :: PaddedAt(s, a, Trim(s))
    ensures Trim(s) == [] || (!IsWhitespace(Trim(s)[0]) && !IsWhitespace(Trim(s)[|Trim(s)| - 1]))
  {
    var left := DropLeading(s);
    var r := DropTrailing(left);
    var a := |s| - |left|;
    DropLeadingIsSuffix(s);
    DropTrailingIsPrefix(left);
    assert s[a..] == left;
    assert s[a..a + |r|] == left[..|r|];
    assert s[a + |r|..] == left[|r|..];
    assert r == Trim(s);
    assert PaddedAt(s, a, r);
    assert r != [] ==> r[0] == left[0];
  }

  /** Leading whitespace in front of `x` is all dropped by `lstrip`. */
  lemma {:induction false} DropLeadingPrefix(w: string, x: string)
    requires AllWhitespace(w)
    ensures DropLeading(w + x) == DropLeading(x)
  {
    if w == [] {
      assert w + x == x;
    } else {
      assert (w + x)[0] == w[0];
      assert (w + x)[1..] == w[1..] + x;
      DropLeadingPrefix(w[1..], x);
    }
  }

  /** Trailing whitespace after `x` is all dropped by `rstrip`. */
  lemma {:induction false} DropTrailingSuffix(x: string, w: string)
    requires AllWhitespace(w)
    ensures DropTrailing(x + w) == DropTrailing(x)
  {
    if w == [] {
      assert x + w == x;
    } else {
      assert (x + w)[|x + w| - 1] == w[|w| - 1];
      assert (x + w)[..|x + w| - 1] == x + w[..|w| - 1];
      DropTrailingSuffix(x, w[..|w| - 1]);
    }
  }

  /** `lstrip` stops at the first non-whitespace character, so what follows it is kept. */
  lemma {:induction false} DropLeadingAppend(x: string, y: string)
    requires DropLeading(x) != []
    ensures DropLeading(x + y) == DropLeading(x) + y
  {
    if x != [] && IsWhitespace(x[0]) {
      assert (x + y)[1..] == x[1..] + y;
      DropLeadingAppend(x[1..], y);
    }
  }

  /** A string that `lstrip` empties is whitespace only. */
  lemma DropLeadingEmpty(s: string)
    requires DropLeading(s) == []
    ensures AllWhitespace(s)
  {
    assert s[..|s|] == s;
  }

  /** Whitespace added around a value does not change what `strip` returns. */
  lemma TrimIgnoresPadding(w1: string, s: string, w2: string)
    requires AllWhitespace(w1) && AllWhitespace(w2)
    ensures Trim(w1 + s + w2) == Trim(s)
  {
    assert w1 + s + w2 == w1 + (s + w2);
    DropLeadingPrefix(w1, s + w2);
    var left := DropLeading(s);
    if left == [] {
      DropLeadingEmpty(s);
      assert AllWhitespace(s + w2) by {
        forall i | 0 <= i < |s + w2| ensures IsWhitespace((s + w2)[i]) {
          if i < |s| { assert (s + w2)[i] == s[i]; } else { assert (s + w2)[i] == w2[i - |s|]; }
        }
      }
      assert s + w2 == (s + w2) + [];
      DropLeadingPrefix(s + w2, []);
      assert DropLeading(s + w2) == [];
    } else {
      DropLeadingAppend(s, w2);
      DropTrailingSuffix(left, w2);
    }
  }

  /** `t` occurs in `s` starting at index `j`. */
  ghost predicate OccursAt(s: string, t: string, j: int) {
    0 <= j && j + |t| <= |s| && s[j..j + |t|] == t
  }

  /** Python's `t in s` restricted to occurrences at index `i` or later. */
  function ContainsFrom(s: string, t: string, i: nat): (b: bool)
    requires i <= |s|
    ensures b <==> exists j :: i <= j && OccursAt(s, t, j)
    decreases |s| - i
  {
    if i + |t| > |s| then false
    else if s[i..i + |t|] == t then assert OccursAt(s, t, i); true
    else ContainsFrom(s, t, i + 1)
  }

  /** Python's `t in s`: `t` is a substring of `s`. */
  function Contains(s: string, t: string): (b: bool)
    ensures b <==> exists j :: OccursAt(s, t, j)
  {
    ContainsFrom(s, t, 0)
  }
}
