/**
 The character domain of the model. Python's `str.isupper`, `str.islower`,
 `str.isdigit`, `str.lower` and `str.strip` are Unicode-aware; this model
 restricts them to ASCII: upper case is 'A'..'Z', lower case is 'a'..'z',
 digits are '0'..'9', lower-casing maps only 'A'..'Z', and whitespace is the
 ASCII part of `str.isspace` (code points 9..13, 28..31 and the space).
 */
module Ascii {

  predicate IsUpper(c: char) { 'A' <= c <= 'Z' }

  predicate IsLower(c: char) { 'a' <= c <= 'z' }

  predicate IsDigit(c: char) { '0' <= c <= '9' }

  /** The fixed special-character set of the special-character rule. */
  const SpecialChars: string := "!@#$%^&*()_+-=[]{}|;:,.<>?/~`"

  predicate IsSpecial(c: char) { c in SpecialChars }

  /** The four character classes are pairwise disjoint: no special
      character is a letter or a digit. */
  lemma ClassesDisjoint(c: char)
    ensures IsSpecial(c) ==> !IsUpper(c) && !IsLower(c) && !IsDigit(c)
    ensures IsUpper(c) ==> !IsLower(c) && !IsDigit(c)
    ensures IsLower(c) ==> !IsDigit(c)
  {
    if IsSpecial(c) {
      var i :| 0 <= i < |SpecialChars| && SpecialChars[i] == c;
    }
  }

  /** Whitespace as `str.strip()` sees it, restricted to ASCII. */
  predicate IsSpace(c: char) {
    c == ' ' || 9 <= c as int <= 13 || 28 <= c as int <= 31
  }

  /** Lower-cases one character: an upper-case letter moves 32 code points up
      the table to its lower-case partner, every other character is kept. */
  function LowerChar(c: char): (r: char)
    ensures IsUpper(c) ==> IsLower(r) && r as int == c as int + 32
    ensures !IsUpper(c) ==> r == c
    ensures !IsUpper(r)
  {
    if IsUpper(c) then (c as int + 32) as char else c
  }

  /** True when no character of `s` is upper case. */
  predicate NoUpper(s: string) {
    forall i :: 0 <= i < |s| ==> !IsUpper(s[i])
  }

  /** `str.lower()` on the ASCII domain: length-preserving, and each
      character lower-cased in place. */
  function Lower(s: string): (r: string)
    ensures |r| == |s|
    ensures forall i :: 0 <= i < |s| ==> r[i] == LowerChar(s[i])
  {
    seq(|s|, i requires 0 <= i < |s| => LowerChar(s[i]))
  }

  /** The lower-cased string has no upper-case letter left; an upper-case
      letter moves 32 code points to its lower-case partner and every other
      character stays as it was. */
  lemma LowerMapsOnlyUpper(s: string)
    ensures NoUpper(Lower(s))
    ensures forall i :: 0 <= i < |s| && IsUpper(s[i]) ==> IsLower(Lower(s)[i]) && Lower(s)[i] as int == s[i] as int + 32
    ensures forall i :: 0 <= i < |s| && !IsUpper(s[i]) ==> Lower(s)[i] == s[i]
  {
  }

  /** Lower-casing is idempotent, and a string without upper-case letters is
      its own lower-case form. */
  lemma LowerIdempotent(s: string)
    ensures NoUpper(s) ==> Lower(s) == s
    ensures Lower(Lower(s)) == Lower(s)
  {
  }

  /** True when every character of `s` is whitespace. */
  predicate AllSpace(s: string) {
    forall i :: 0 <= i < |s| ==> IsSpace(s[i])
  }

  /** True when `s[lo..hi]` is all whitespace, stated on positions. */
  predicate SpaceBetween(s: string, lo: nat, hi: nat)
    requires lo <= hi <= |s|
  {
    forall j :: lo <= j < hi ==> IsSpace(s[j])
  }

  /** The first position at or after `i` that does not hold whitespace, or
      `|s|` when there is none. */
  function SkipSpace(s: string, i: nat): (k: nat)
    requires i <= |s|
    ensures i <= k <= |s|
    ensures SpaceBetween(s, i, k)
    ensures k < |s| ==> !IsSpace(s[k])
    decreases |s| - i
  {
    if i == |s| || !IsSpace(s[i]) then i else SkipSpace(s, i + 1)
  }

  /** The end of `s[lo..j]` once its trailing whitespace is dropped. */
  function TrimEnd(s: string, lo: nat, j: nat): (k: nat)
    requires lo <= j <= |s|
    ensures lo <= k <= j
    ensures SpaceBetween(s, k, j)
    ensures k > lo ==> !IsSpace(s[k - 1])
    decreases j
  {
    if j == lo || !IsSpace(s[j - 1]) then j else TrimEnd(s, lo, j - 1)
  }

  /** True when `s` neither starts nor ends with whitespace. */
  predicate IsStripped(s: string) {
    |s| == 0 || (!IsSpace(s[0]) && !IsSpace(s[|s| - 1]))
  }

  /** `str.strip()`: `s` with its leading and trailing whitespace removed. */
  function Strip(s: string): (r: string)
    ensures IsStripped(r) && |r| <= |s|
  {
    var a := SkipSpace(s, 0);
    var e := TrimEnd(s, a, |s|);
    assert a < |s| ==> a < e;
    s[a..e]
  }

  /** A whitespace run stated on positions is a whitespace slice. */
  lemma SpaceSlice(s: string, lo: nat, hi: nat)
    requires lo <= hi <= |s| && SpaceBetween(s, lo, hi)
    ensures AllSpace(s[lo..hi])
  {
  }

  /** The stripped string is the infix of `s` that starts after the leading
      whitespace and is followed only by whitespace. */
  lemma StripIsInfix(s: string)
    ensures var r, i := Strip(s), SkipSpace(s, 0);
      && i + |r| <= |s|
      && s[i..i + |r|] == r
      && AllSpace(s[..i])
      && AllSpace(s[i + |r|..])
  {
    var a := SkipSpace(s, 0);
    var e := TrimEnd(s, a, |s|);
    SpaceSlice(s, 0, a);
    SpaceSlice(s, e, |s|);
    assert s[..a] == s[0..a];
    assert s[e..] == s[e..|s|];
  }

  /** Stripping leaves nothing exactly when `s` is all whitespace. */
  lemma StripEmptyIffSpace(s: string)
    ensures |Strip(s)| == 0 <==> AllSpace(s)
  {
    var a := SkipSpace(s, 0);
    if a == |s| {
      SpaceSlice(s, 0, |s|);
      assert s[0..|s|] == s;
    }
  }

  /** A string that neither starts nor ends with whitespace is its own
      stripped form. */
  lemma StrippedIsFixed(s: string)
    requires IsStripped(s)
    ensures Strip(s) == s
  {
    if |s| > 0 {
      assert SkipSpace(s, 0) == 0;
      assert TrimEnd(s, 0, |s|) == |s|;
      assert s[0..|s|] == s;
    }
  }

  /** One whitespace character after a stripped, non-empty string, such as
      the line break a line is read with, is removed by stripping. */
  lemma StripTrailingSpace(s: string, c: char)
    requires |s| > 0 && IsStripped(s) && IsSpace(c)
    ensures Strip(s + [c]) == s
  {
    var t := s + [c];
    assert t[0] == s[0] && t[|s| - 1] == s[|s| - 1] && t[|s|] == c;
    assert SkipSpace(t, 0) == 0;
    assert TrimEnd(t, 0, |s|) == |s|;
    assert TrimEnd(t, 0, |t|) == |s|;
    assert t[0..|s|] == s;
  }

  /** Stripping is idempotent. */
  lemma StripIdempotent(s: string)
    ensures Strip(Strip(s)) == Strip(s)
  {
    StrippedIsFixed(Strip(s));
  }
}
