/**
 * `extract_links_from_text`: the set of all matches of the fixed pattern
 * `https?://[^\s"'<>]+` found by a left-to-right, non-overlapping scan of
 * the page text (Python's `re.findall` followed by `set`).
 */
module TextLinks {
  import opened Text

  /** What `\s` matches in a `str` pattern: the characters for which `str.isspace()` holds. */
  predicate IsSpace(c: char)
  {
    var n := c as int;
    || (9 <= n <= 13) || (28 <= n <= 32)
    || n == 0x85 || n == 0xA0 || n == 0x1680
    || (0x2000 <= n <= 0x200A)
    || n == 0x2028 || n == 0x2029 || n == 0x202F || n == 0x205F || n == 0x3000
  }

  /** The character class `[^\s"'<>]`. */
  predicate IsUrlChar(c: char)
  {
    !IsSpace(c) && c != '"' && c != '\'' && c != '<' && c != '>'
  }

  /** A whole match of the pattern: the scheme prefix, then at least one allowed character. */
  predicate UrlShaped(s: string)
  {
    && ((|s| > 7 && "http://" <= s) || (|s| > 8 && "https://" <= s))
    && forall i :: 0 <= i < |s| ==> IsUrlChar(s[i])
  }

  /** `s` occurs in `text` starting at `i` and cannot be extended to the right by the class. */
  ghost predicate MaximalAt(s: string, text: string, i: int)
  {
    0 <= i && i + |s| <= |text| && text[i..i + |s|] == s
    && (i + |s| == |text| || !IsUrlChar(text[i + |s|]))
  }

  /** The greedy run `[^\s"'<>]+` starting at `i`: the number of allowed characters there. */
  function RunLength(text: string, i: nat): (n: nat)
    requires i <= |text|
    ensures i + n <= |text|
    ensures forall j :: i <= j < i + n ==> IsUrlChar(text[j])
    ensures i + n == |text| || !IsUrlChar(text[i + n])
    decreases |text| - i
  {
    if i == |text| || !IsUrlChar(text[i]) then 0 else 1 + RunLength(text, i + 1)
  }

  /**
   * The length of the match of the pattern at position `i`, 0 when there is
   * none. `s?` is greedy: with "https://" at `i` the optional 's' is taken,
   * and when no allowed character follows, backtracking to "http" fails on
   * the 's', so there is no match at all. There is a match exactly when some
   * URL-shaped string starts at `i`, and it is the longest one.
   */
  function MatchAt(text: string, i: nat): (n: nat)
    requires i <= |text|
    ensures n > 0 <==> exists m :: ShapedAt(text, i, m)
    ensures n == 0 || (i + n <= |text| && UrlShaped(text[i..i + n]) && MaximalAt(text[i..i + n], text, i))
  {
    ShapedStartMatches(text, i);
    var prefix := SchemePrefixLength(text[i..]);
    if prefix == 0 then 0
    else
      var run := RunLength(text, i + prefix);
      if run == 0 then 0
      else
        var n := prefix + run;
        SchemePrefixAllowed(text[i..i + n], prefix);
        assert text[i..i + n][..prefix] == text[i..][..prefix];
        assert ShapedAt(text, i, n);
        n
  }

  /** The `m` characters of `text` from `i` on are a URL-shaped string. */
  ghost predicate ShapedAt(text: string, i: int, m: int)
  {
    0 <= i && 0 < m && i + m <= |text| && UrlShaped(text[i..i + m])
  }

  /** When a URL-shaped string starts at `i`, the scheme prefix is there and an allowed character follows it. */
  lemma ShapedStartMatches(text: string, i: nat)
    requires i <= |text|
    ensures (exists m :: ShapedAt(text, i, m)) ==>
      var prefix := SchemePrefixLength(text[i..]);
      prefix > 0 && i + prefix < |text| && IsUrlChar(text[i + prefix])
  {
    if exists m :: ShapedAt(text, i, m) {
      var m :| ShapedAt(text, i, m);
      var s := text[i..i + m];
      var rest := text[i..];
      if "https://" <= s {
        assert s[4] == 's';
        assert m > 8;
        assert "https://" <= rest;
        assert text[i + 8] == s[8];
      } else {
        assert m > 7 && "http://" <= s;
        assert "http://" <= rest && rest[4] == ':';
        assert !("https://" <= rest);
        assert text[i + 7] == s[7];
      }
    }
  }

  /** The length of the `https?://` part of the pattern at the start of `rest`, 0 when absent. */
  function SchemePrefixLength(rest: string): (n: nat)
    ensures n == 8 <==> "https://" <= rest
    ensures n == 7 <==> !("https://" <= rest) && "http://" <= rest
    ensures n == 0 || n == 7 || n == 8
  {
    if "https://" <= rest then 8 else if "http://" <= rest then 7 else 0
  }

  /** The characters of "http://" and "https://" are all in the class, so a match is allowed throughout. */
  lemma SchemePrefixAllowed(s: string, prefix: nat)
    requires (prefix == 8 && "https://" <= s) || (prefix == 7 && "http://" <= s)
    requires forall j :: prefix <= j < |s| ==> IsUrlChar(s[j])
    ensures forall j :: 0 <= j < |s| ==> IsUrlChar(s[j])
  {
    forall j | 0 <= j < prefix
      ensures IsUrlChar(s[j])
    {
      assert s[j] == "https://"[j] || s[j] == "http://"[j];
    }
  }

  /** `re.findall` from position `i` on, as a set: after a match the scan resumes where it ended. */
  function ScanFrom(text: string, i: nat): set<string>
    requires i <= |text|
    decreases |text| - i
  {
    if i == |text| then {}
    else
      var n := MatchAt(text, i);
      if n > 0 then {text[i..i + n]} + ScanFrom(text, i + n)
      else ScanFrom(text, i + 1)
  }

  /** Everything the scan finds from `i` on is a whole match standing in the text at or after `i`. */
  lemma {:induction false} ScanFromSound(text: string, i: nat)
    requires i <= |text|
    ensures forall s :: s in ScanFrom(text, i) ==> UrlShaped(s) && exists j :: i <= j && MaximalAt(s, text, j)
    decreases |text| - i
  {
    if i < |text| {
      var n := MatchAt(text, i);
      if n > 0 {
        ScanFromSound(text, i + n);
      } else {
        ScanFromSound(text, i + 1);
      }
    }
  }

  /**
   * `extract_links_from_text(text)`: every string it returns is a whole,
   * maximal match of `https?://[^\s"'<>]+` that occurs in `text`.
   */
  function ExtractLinksFromText(text: string): (r: set<string>)
    ensures forall s :: s in r ==> UrlShaped(s) && Occurs(s, text)
  {
    var r := ScanFrom(text, 0);
    ScanFromSound(text, 0);
    forall s | s in r ensures Occurs(s, text) {
      var j :| 0 <= j && MaximalAt(s, text, j);
      assert s <= text[j..];
    }
    r
  }

  /**
   * A link found in the text starts with 'h' and holds no tab, carriage
   * return or line feed, so the characters `urlsplit` strips from the front
   * of a URL or removes from inside it never occur in one.
   */
  lemma LinksNeedNoStripping(text: string)
    ensures forall s :: s in ExtractLinksFromText(text) ==>
      s[0] == 'h' && forall i :: 0 <= i < |s| ==> s[i] != '\t' && s[i] != '\r' && s[i] != '\n'
  {
  }

  /** Where the scan resumes after looking at position `i`. */
  function Next(text: string, i: nat): (j: nat)
    requires i < |text|
    ensures i < j <= |text|
  {
    var n := MatchAt(text, i);
    if n > 0 then i + n else i + 1
  }

  /** What the scan finds from where it resumes, it finds from `i`. */
  lemma ScanNext(text: string, i: nat)
    requires i < |text|
    ensures ScanFrom(text, Next(text, i)) <= ScanFrom(text, i)
  {
  }

  /** The scan does not resume past a position that follows a character outside the class. */
  lemma NextStops(text: string, i: nat, k: nat)
    requires i < k <= |text|
    requires !IsUrlChar(text[k - 1])
    ensures Next(text, i) <= k
  {
    var n := MatchAt(text, i);
    if n > 0 {
      MatchStopsBefore(text, i, n, k);
    }
  }

  /** A match starting before a character outside the class ends before it. */
  lemma MatchStopsBefore(text: string, i: nat, n: nat, k: nat)
    requires i < k <= |text| && i + n <= |text|
    requires UrlShaped(text[i..i + n])
    requires !IsUrlChar(text[k - 1])
    ensures i + n <= k
  {
    forall j | i <= j < i + n
      ensures IsUrlChar(text[j])
    {
      assert text[j] == text[i..i + n][j - i];
    }
  }

  /**
   * The scan never jumps over a position that follows a character the
   * pattern cannot match: whatever is found from there is found from any
   * earlier position.
   */
  lemma {:induction false} ScanReaches(text: string, i: nat, k: nat)
    requires i <= k <= |text|
    requires k == 0 || !IsUrlChar(text[k - 1])
    ensures ScanFrom(text, k) <= ScanFrom(text, i)
    decreases k - i
  {
    if i < k {
      NextStops(text, i, k);
      ScanNext(text, i);
      ScanReaches(text, Next(text, i), k);
    }
  }

  /**
   * A URL-shaped string that stands in the text between characters the
   * pattern cannot match (or the ends of the text) is found.
   */
  lemma DelimitedLinkFound(pre: string, s: string, post: string)
    requires UrlShaped(s)
    requires pre == "" || !IsUrlChar(pre[|pre| - 1])
    requires post == "" || !IsUrlChar(post[0])
    ensures s in ExtractLinksFromText(pre + s + post)
  {
    var text := pre + s + post;
    var k := |pre|;
    assert k > 0 ==> text[k - 1] == pre[k - 1];
    assert text[k..k + |s|] == s;
    assert ShapedAt(text, k, |s|);
    var n := MatchAt(text, k);
    assert n == |s|;
    ScanReaches(text, 0, k);
  }

  /** A text that is one URL-shaped string yields exactly that string. */
  lemma WholeTextIsOneLink(text: string)
    requires UrlShaped(text)
    ensures ExtractLinksFromText(text) == {text}
  {
    assert text[0..] == text;
    var prefix := SchemePrefixLength(text[0..]);
    assert prefix != 0;
    assert "https://" <= text ==> text[4] == 's' && !("http://" <= text);
    assert RunLength(text, 0 + prefix) == |text| - prefix;
    assert MatchAt(text, 0) == |text|;
    assert text[0..|text|] == text;
    assert ScanFrom(text, 0) == {text} + ScanFrom(text, |text|);
  }

  /** Text with no allowed character after any "http://" or "https://" yields nothing. */
  lemma {:induction false} NoSchemeNoLinks(text: string, i: nat)
    requires i <= |text|
    requires forall j :: i <= j <= |text| ==> !("http://" <= text[j..]) && !("https://" <= text[j..])
    ensures ScanFrom(text, i) == {}
    decreases |text| - i
  {
    if i < |text| {
      assert MatchAt(text, i) == 0;
      NoSchemeNoLinks(text, i + 1);
    }
  }
}
