/**
 * String helpers shared by the crawlers: ASCII case mapping (the model of
 * Python's `str.lower` / `str.upper` restricted to ASCII), substring
 * containment (Python's `needle in haystack`) and `rstrip('/')`.
 */
module Text {

  predicate IsUpperAscii(c: char) { 'A' <= c <= 'Z' }

  predicate IsLowerAscii(c: char) { 'a' <= c <= 'z' }

  function LowerChar(c: char): char
  {
    if IsUpperAscii(c) then (c as int + 32) as char else c
  }

  function UpperChar(c: char): char
  {
    if IsLowerAscii(c) then (c as int - 32) as char else c
  }

  /** No upper-case ASCII letter occurs in `s`. */
  predicate IsLowerCase(s: string)
  {
    forall i :: 0 <= i < |s| ==> !IsUpperAscii(s[i])
  }

  /** `s.lower()`, ASCII letters only. */
  function Lower(s: string): (r: string)
    ensures |r| == |s| && IsLowerCase(r)
    ensures forall i :: 0 <= i < |s| ==> r[i] == LowerChar(s[i])
  {
    seq(|s|, i requires 0 <= i < |s| => LowerChar(s[i]))
  }

  /** `s.upper()`, ASCII letters only. */
  function Upper(s: string): (r: string)
    ensures |r| == |s|
    ensures forall i :: 0 <= i < |s| ==> !IsLowerAscii(r[i])
    ensures forall i :: 0 <= i < |s| ==> r[i] == UpperChar(s[i])
  {
    seq(|s|, i requires 0 <= i < |s| => UpperChar(s[i]))
  }

  /** Lowering text that is already lower case changes nothing. */
  lemma LowerOfLowerCase(s: string)
    requires IsLowerCase(s)
    ensures Lower(s) == s
  {
  }

  /** `pat` occurs as a contiguous piece of `text` (the meaning of `pat in text`). */
  ghost predicate Occurs(pat: string, text: string)
  {
    exists i :: 0 <= i <= |text| && pat <= text[i..]
  }

  /** One step of the search: `pat` occurs in a non-empty `text` when it is a prefix or occurs in the tail. */
  lemma OccursStep(pat: string, text: string)
    requires |text| > 0
    ensures Occurs(pat, text) <==> pat <= text || Occurs(pat, text[1..])
  {
    if pat <= text {
      assert pat <= text[0..];
    }
    if Occurs(pat, text[1..]) {
      var i :| 0 <= i <= |text[1..]| && pat <= text[1..][i..];
      assert text[1..][i..] == text[i + 1..];
    }
    if Occurs(pat, text) {
      var i :| 0 <= i <= |text| && pat <= text[i..];
      if i > 0 {
        assert text[1..][i - 1..] == text[i..];
      }
    }
  }

  /** The empty pattern occurs everywhere; a non-empty one never occurs in "". */
  lemma OccursInEmpty(pat: string)
    ensures Occurs(pat, "") <==> pat == ""
  {
    if pat == "" {
      assert pat <= ""[0..];
    }
  }

  /** Python's `pat in text` for strings, computed by trying every start position. */
  function Contains(text: string, pat: string): (r: bool)
    ensures r <==> Occurs(pat, text)
    decreases |text|
  {
    if pat <= text then
      assert pat <= text[0..];
      true
    else if |text| == 0 then
      OccursInEmpty(pat);
      false
    else
      OccursStep(pat, text);
      Contains(text[1..], pat)
  }

  /** `s.rstrip('/')`: the longest prefix of `s` that does not end in '/'. */
  function RStripSlash(s: string): (r: string)
    ensures r <= s
    ensures r == "" || r[|r| - 1] != '/'
    ensures forall i :: |r| <= i < |s| ==> s[i] == '/'
  {
    if s == [] || s[|s| - 1] != '/' then s else RStripSlash(s[..|s| - 1])
  }

  /** A string whose last character is not '/' is left alone by `rstrip('/')`. */
  lemma RStripSlashIdentity(s: string)
    requires s == "" || s[|s| - 1] != '/'
    ensures RStripSlash(s) == s
  {
  }

  /**
   * Stripping trailing slashes from `x + p` depends on `p` only through its
   * own stripped form: either `p` is all slashes and `x` gets stripped, or
   * `x` survives untouched in front of the stripped `p`.
   */
  lemma {:induction false} RStripSlashAppend(x: string, p: string)
    ensures RStripSlash(x + p) == if RStripSlash(p) == "" then RStripSlash(x) else x + RStripSlash(p)
    decreases |p|
  {
    if p == [] {
      assert x + p == x;
    } else if p[|p| - 1] != '/' {
      assert (x + p)[|x + p| - 1] == p[|p| - 1];
    } else {
      assert (x + p)[..|x + p| - 1] == x + p[..|p| - 1];
      RStripSlashAppend(x, p[..|p| - 1]);
    }
  }

  /** `rstrip('/')` is idempotent. */
  lemma RStripSlashIdempotent(s: string)
    ensures RStripSlash(RStripSlash(s)) == RStripSlash(s)
  {
    RStripSlashIdentity(RStripSlash(s));
  }
}
