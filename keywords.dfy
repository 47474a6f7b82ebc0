/**
 * The keyword matcher: `any(keyword in text for keyword in keywords)`,
 * together with the crawl configuration both crawlers hard-code.
 */
module Keywords {
  import opened Text

  /** The configured keyword list (identical in both crawlers, misspelling included). */
  const Configured: seq<string> := ["converstations", "o4", "claude", "gemini"]

  /** The configured recursion bound. */
  const MaxDepth: nat := 2

  /** The seed pages of the recursive crawlers. */
  const Seeds: seq<string> := [
    "https://typingmind.com/",
    "https://mygpt.ai/",
    "https://halist.ai/",
    "https://chatpad.ai/",
    "https://github.com/aws-samples/bedrock-claude-chat",
    "https://jan.ai/",
    "https://github.com/sindresorhus/awesome-chatgpt",
    "https://www.reddit.com/r/gptwrappers/"
  ]

  /** Some keyword of the list occurs in `text`. */
  ghost predicate SomeKeywordOccurs(keywords: seq<string>, text: string)
  {
    exists k :: k in keywords && Occurs(k, text)
  }

  /**
   * `any(keyword in text for keyword in keywords)`: true exactly when some
   * keyword of the list is a substring of `text` (ANY-match, not ALL-match).
   */
  function AnyKeyword(keywords: seq<string>, text: string): (r: bool)
    ensures r <==> SomeKeywordOccurs(keywords, text)
  {
    if keywords == [] then
      false
    else
      var r := Contains(text, keywords[0]) || AnyKeyword(keywords[1..], text);
      assert forall k :: k in keywords <==> k == keywords[0] || k in keywords[1..];
      r
  }

  /** `is_keyword_match(u)`: the same test against the configured list. */
  function IsKeywordMatch(u: string): (r: bool)
    ensures r <==> exists k :: k in Configured && Occurs(k, u)
  {
    AnyKeyword(Configured, u)
  }

  /** Every configured keyword is already lower case, so matching lowered text is case-insensitive. */
  lemma ConfiguredAreLowerCase()
    ensures forall k :: k in Configured ==> IsLowerCase(k) && Lower(k) == k
  {
    forall k | k in Configured
      ensures IsLowerCase(k)
    {
      assert k == "converstations" || k == "o4" || k == "claude" || k == "gemini";
    }
  }

  /** No configured keyword is empty, so none of them matches the empty string. */
  lemma ConfiguredMissEmpty()
    ensures !AnyKeyword(Configured, "")
  {
    forall k | k in Configured
      ensures !Occurs(k, "")
    {
      OccursInEmpty(k);
    }
  }

  /** Text that contains a keyword still matches after more text is put around it. */
  lemma {:induction false} AnyKeywordExtends(keywords: seq<string>, pre: string, text: string, post: string)
    requires AnyKeyword(keywords, text)
    ensures AnyKeyword(keywords, pre + text + post)
  {
    var k :| k in keywords && Occurs(k, text);
    var i :| 0 <= i <= |text| && k <= text[i..];
    var whole := pre + text + post;
    assert whole[|pre| + i..] == text[i..] + post;
    assert k <= whole[|pre| + i..];
  }
}
