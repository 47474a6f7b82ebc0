/**
 * `extract_links` of the two recursive crawlers: which anchors and which
 * plain-text URLs of a loaded page become crawl targets, and in what form.
 */
module LinkExtraction {
  import opened Text
  import opened Keywords
  import opened Urls
  import opened TextLinks
  import opened Wrappers

  /**
   * `parsed_link.scheme.startswith("http")`: every "http:" and "https:"
   * link passes, and only links whose first four characters spell "http" in
   * any case can pass ("mailto:", "javascript:" and relative links do not).
   */
  predicate HttpScheme(link: string): (b: bool)
    ensures "http:" <= link || "https:" <= link ==> b
    ensures b ==> |link| > 4 && Lower(link[..4]) == "http"
  {
    HttpSchemeOfLink(link);
    "http" <= Split(link).scheme
  }

  /** How the scheme test reads on the link itself. */
  lemma HttpSchemeOfLink(link: string)
    ensures "http:" <= link || "https:" <= link ==> "http" <= Split(link).scheme
    ensures "http" <= Split(link).scheme ==> |link| > 4 && Lower(link[..4]) == "http"
  {
    SplitKeepsScheme(link);
    HttpSchemePrefix(link);
  }

  /** The same, for the scheme as `SplitScheme` finds it. */
  lemma HttpSchemePrefix(link: string)
    ensures "http:" <= link || "https:" <= link ==> "http" <= SplitScheme(link).0
    ensures "http" <= SplitScheme(link).0 ==> |link| > 4 && Lower(link[..4]) == "http"
  {
    var colon := IndexOfAny(link, {':'});
    if "http:" <= link {
      IndexOfAnyAt(link, {':'}, 4);
      assert link[..4] == "http";
    } else if "https:" <= link {
      IndexOfAnyAt(link, {':'}, 5);
      assert link[..5] == "https";
    }
    var scheme := SplitScheme(link).0;
    if "http" <= scheme {
      assert colon < |link| && scheme == Lower(link[..colon]);
      forall j | 0 <= j < 4
        ensures Lower(link[..4])[j] == "http"[j]
      {
        assert scheme[j] == LowerChar(link[..colon][j]) == LowerChar(link[j]);
      }
    }
  }

  /**
   * The anchor test of http_scraper.py: an anchor is kept exactly when its
   * scheme begins with "http" and it is on the page's own authority or some
   * keyword occurs in its lowered text.
   */
  predicate KeepAnchor(keywords: seq<string>, base: string, link: string): (b: bool)
    ensures b <==> HttpScheme(link) && (Split(link).netloc == Split(base).netloc || SomeKeywordOccurs(keywords, Lower(link)))
  {
    HttpScheme(link) && (Split(link).netloc == Split(base).netloc || AnyKeyword(keywords, Lower(link)))
  }

  /**
   * With the configured keywords, the keyword tests of both loops are
   * `is_keyword_match(link.lower())`.
   */
  lemma ConfiguredTestsUseIsKeywordMatch(base: string, link: string)
    ensures KeepAnchor(Configured, base, link) <==>
      HttpScheme(link) && (Split(link).netloc == Split(base).netloc || IsKeywordMatch(Lower(link)))
    ensures Mentions(Configured)(link) <==> IsKeywordMatch(Lower(link))
  {
  }

  /** The cleaned forms of the candidates that pass `keep`. */
  function Kept(candidates: seq<string>, keep: string -> bool, clean: string -> string): set<string>
  {
    set a | a in candidates && keep(a) :: clean(a)
  }

  /** Looking at one more candidate adds its cleaned form exactly when it passes. */
  lemma KeptSnoc(candidates: seq<string>, keep: string -> bool, clean: string -> string, a: string)
    ensures Kept(candidates + [a], keep, clean) == Kept(candidates, keep, clean) + (if keep(a) then {clean(a)} else {})
  {
    assert forall x :: x in candidates + [a] <==> x in candidates || x == a;
  }

  /** A candidate that passes contributes its cleaned form. */
  lemma KeptMember(candidates: seq<string>, keep: string -> bool, clean: string -> string, a: string)
    requires a in candidates && keep(a)
    ensures clean(a) in Kept(candidates, keep, clean)
  {
  }

  /** The same as `Kept`, for candidates that come as a set. */
  function KeptOf(candidates: set<string>, keep: string -> bool, clean: string -> string): set<string>
  {
    set a | a in candidates && keep(a) :: clean(a)
  }

  /** Looking at one more candidate adds its cleaned form exactly when it passes. */
  lemma KeptOfAdd(candidates: set<string>, keep: string -> bool, clean: string -> string, a: string)
    ensures KeptOf(candidates + {a}, keep, clean) == KeptOf(candidates, keep, clean) + (if keep(a) then {clean(a)} else {})
  {
  }

  /** The anchor test as a value, for `Kept`. */
  function KeepFor(keywords: seq<string>, base: string): string -> bool
  {
    a => KeepAnchor(keywords, base, a)
  }

  /** Cleaning against the page URL as a value, for `Kept`. */
  function CleanAgainst(base: string): string -> string
  {
    a => CleanLink(base, a)
  }

  /** The plain-text test of http_scraper.py as a value: a keyword in the lowered URL. */
  function Mentions(keywords: seq<string>): string -> bool
  {
    t => AnyKeyword(keywords, Lower(t))
  }

  /** The anchors http_scraper.py keeps, each cleaned against the page URL. */
  function AnchorLinks(keywords: seq<string>, anchors: seq<string>, base: string): set<string>
  {
    Kept(anchors, KeepFor(keywords, base), CleanAgainst(base))
  }

  /** The plain-text URLs http_scraper.py keeps: those with a keyword, trailing '/' stripped. */
  function KeptTextLinks(keywords: seq<string>, found: set<string>): set<string>
  {
    KeptOf(found, Mentions(keywords), RStripSlash)
  }

  /** All links http_scraper.py extracts from a page: kept anchors and kept plain-text URLs. */
  function BroadLinks(keywords: seq<string>, anchors: seq<string>, content: string, base: string): set<string>
  {
    AnchorLinks(keywords, anchors, base) + KeptTextLinks(keywords, ExtractLinksFromText(content))
  }

  /** When nothing raises, http_scraper.py extracts its links, the kept anchors among them. */
  lemma BroadExtractionSucceeds(keywords: seq<string>, anchors: seq<string>, content: string, base: string)
    requires !ExtractionFails(anchors, base)
    ensures BroadExtraction(keywords, anchors, content, base) == Some(BroadLinks(keywords, anchors, content, base))
    ensures AnchorLinks(keywords, anchors, base) <= BroadLinks(keywords, anchors, content, base)
  {
  }

  /**
   * All links http_keyword_scraper_only_body.py extracts: every http-like
   * anchor, whatever its host, cleaned onto the page's scheme and authority.
   */
  function AnyHostLinks(anchors: seq<string>, base: string): set<string>
  {
    Kept(anchors, HttpScheme, CleanAgainst(base))
  }

  /**
   * `urlparse(link)` raises for this anchor, or the `urljoin` that cleans it
   * does, when it parses the anchor's path (an empty path is not parsed).
   */
  predicate AnchorFails(link: string)
  {
    SplitFails(link) || SplitFails(Split(link).path)
  }

  /** Some candidate makes the loop raise. */
  predicate AnyFails(candidates: seq<string>, fails: string -> bool)
  {
    exists a :: a in candidates && fails(a)
  }

  /** `extract_links` raises: the page URL or one of the anchors does not parse. */
  predicate ExtractionFails(anchors: seq<string>, base: string)
  {
    SplitFails(base) || AnyFails(anchors, AnchorFails)
  }

  /** What `extract_links` of http_scraper.py yields: its links, or `None` when it raises. */
  function BroadExtraction(keywords: seq<string>, anchors: seq<string>, content: string, base: string): Option<set<string>>
  {
    if ExtractionFails(anchors, base) then None else Some(BroadLinks(keywords, anchors, content, base))
  }

  /** What `extract_links` of http_keyword_scraper_only_body.py yields: its links, or `None` when it raises. */
  function AnyHostExtraction(anchors: seq<string>, base: string): Option<set<string>>
  {
    if ExtractionFails(anchors, base) then None else Some(AnyHostLinks(anchors, base))
  }

  /**
   * The loop over the anchors: each one that passes `keep` is added in its
   * cleaned form; the first anchor for which `fails` holds raises, and
   * nothing is returned.
   */
  method CollectAnchors(anchors: seq<string>, keep: string -> bool, clean: string -> string, fails: string -> bool)
    returns (extracted: Option<set<string>>)
    ensures extracted == if AnyFails(anchors, fails) then None else Some(Kept(anchors, keep, clean))
  {
    var kept := {};
    for i := 0 to |anchors|
      invariant forall j :: 0 <= j < i ==> !fails(anchors[j])
      invariant kept == Kept(anchors[..i], keep, clean)
    {
      var link := anchors[i];
      if fails(link) {
        assert link in anchors;
        return None;
      }
      var cleanLink := clean(link);
      if keep(link) {
        kept := kept + {cleanLink};
      }
      assert anchors[..i + 1] == anchors[..i] + [link];
      KeptSnoc(anchors[..i], keep, clean, link);
    }
    assert anchors[..|anchors|] == anchors;
    extracted := Some(kept);
  }

  /** The loop over the plain-text URLs, in whatever order the set yields them. */
  method CollectTextLinks(extracted0: set<string>, found: set<string>, keep: string -> bool, clean: string -> string)
    returns (extracted: set<string>)
    ensures extracted == extracted0 + KeptOf(found, keep, clean)
  {
    extracted := extracted0;
    var pending := found;
    while pending != {}
      invariant pending <= found
      invariant extracted == extracted0 + KeptOf(found - pending, keep, clean)
      decreases pending
    {
      var link :| link in pending;
      KeptOfAdd(found - pending, keep, clean, link);
      pending := pending - {link};
      if keep(link) {
        extracted := extracted + {clean(link)};
      }
      assert found - pending == (found - (pending + {link})) + {link};
    }
    assert found - pending == found;
  }

  /**
   * `extract_links` of http_scraper.py: the page URL is parsed, then the
   * anchor loop, then the plain-text loop; `None` stands for the
   * `ValueError` a URL that does not parse raises.
   */
  method ExtractLinks(keywords: seq<string>, anchors: seq<string>, content: string, base: string)
    returns (extracted: Option<set<string>>)
    ensures extracted == BroadExtraction(keywords, anchors, content, base)
  {
    if SplitFails(base) {
      return None;
    }
    var fromAnchors := CollectAnchors(anchors, KeepFor(keywords, base), CleanAgainst(base), AnchorFails);
    match fromAnchors
    case None =>
      extracted := None;
    case Some(kept) =>
      var textLinks := ExtractLinksFromText(content);
      var all := CollectTextLinks(kept, textLinks, Mentions(keywords), RStripSlash);
      extracted := Some(all);
  }

  /**
   * `extract_links` of http_keyword_scraper_only_body.py: the page URL is
   * parsed, then one loop over the anchors; the page text is not used.
   */
  method ExtractAnchorLinks(anchors: seq<string>, base: string) returns (extracted: Option<set<string>>)
    ensures extracted == AnyHostExtraction(anchors, base)
  {
    if SplitFails(base) {
      return None;
    }
    extracted := CollectAnchors(anchors, HttpScheme, CleanAgainst(base), AnchorFails);
  }

  /** `l` does not end in '/'. */
  predicate Trimmed(l: string)
  {
    l == "" || l[|l| - 1] != '/'
  }

  /** When every cleaned form is trimmed, so is everything kept. */
  lemma KeptTrimmed(candidates: seq<string>, keep: string -> bool, clean: string -> string)
    requires forall a :: Trimmed(clean(a))
    ensures forall l :: l in Kept(candidates, keep, clean) ==> Trimmed(l)
  {
    forall l | l in Kept(candidates, keep, clean)
      ensures Trimmed(l)
    {
      var a :| a in candidates && keep(a) && clean(a) == l;
    }
  }

  /** When every cleaned form is trimmed, so is everything kept. */
  lemma KeptOfTrimmed(candidates: set<string>, keep: string -> bool, clean: string -> string)
    requires forall a :: Trimmed(clean(a))
    ensures forall l :: l in KeptOf(candidates, keep, clean) ==> Trimmed(l)
  {
    forall l | l in KeptOf(candidates, keep, clean)
      ensures Trimmed(l)
    {
      var a :| a in candidates && keep(a) && clean(a) == l;
    }
  }

  /** Cleaning against a page URL always yields a trimmed link. */
  lemma CleanAgainstTrimmed(base: string)
    ensures forall a :: Trimmed(CleanAgainst(base)(a))
  {
    forall a
      ensures Trimmed(CleanAgainst(base)(a))
    {
      var l := CleanLink(base, a);
      assert CleanAgainst(base)(a) == l;
    }
  }

  /** Every link http_scraper.py extracts has its trailing '/' removed. */
  lemma BroadLinksTrimmed(keywords: seq<string>, anchors: seq<string>, content: string, base: string)
    ensures forall l :: l in BroadLinks(keywords, anchors, content, base) ==> Trimmed(l)
  {
    CleanAgainstTrimmed(base);
    KeptTrimmed(anchors, KeepFor(keywords, base), CleanAgainst(base));
    StrippedTrimmed(ExtractLinksFromText(content), Mentions(keywords));
  }

  /** Stripping trailing '/' from whatever passes `keep` yields trimmed links only. */
  lemma StrippedTrimmed(found: set<string>, keep: string -> bool)
    ensures forall l :: l in KeptOf(found, keep, RStripSlash) ==> Trimmed(l)
  {
    KeptOfTrimmed(found, keep, RStripSlash);
  }

  /** Every link http_keyword_scraper_only_body.py extracts has its trailing '/' removed. */
  lemma AnyHostLinksTrimmed(anchors: seq<string>, base: string)
    ensures forall l :: l in AnyHostLinks(anchors, base) ==> Trimmed(l)
  {
    CleanAgainstTrimmed(base);
    KeptTrimmed(anchors, HttpScheme, CleanAgainst(base));
  }

  /** Every anchor link of the broad crawler is also extracted by the body-only crawler. */
  lemma AnchorLinksWithinAnyHost(keywords: seq<string>, anchors: seq<string>, base: string)
    ensures AnchorLinks(keywords, anchors, base) <= AnyHostLinks(anchors, base)
  {
  }

  /**
   * As written, an off-site anchor kept for its keyword is NOT followed to
   * its own host: only its path is kept, on the page's host, so the link
   * that is crawled has the page's authority and not the anchor's.
   */
  lemma OffSiteKeywordAnchorRehosted(keywords: seq<string>, anchors: seq<string>, content: string, base: string, a: string)
    requires Split(base).scheme != "" && Split(base).netloc != ""
    requires a in anchors && HttpScheme(a) && AnyKeyword(keywords, Lower(a))
    requires Split(a).netloc != "" && Split(a).netloc != Split(base).netloc
    requires Split(a).path != "" && !("//" <= Split(a).path)
    ensures CleanLink(base, a) in BroadLinks(keywords, anchors, content, base)
    ensures Split(CleanLink(base, a)).netloc == Split(base).netloc != Split(a).netloc
  {
    KeptMember(anchors, KeepFor(keywords, base), CleanAgainst(base), a);
    CleanLinkParts(base, a);
    assert PathTarget(Split(base).netloc, Split(a).path).0 == Split(base).netloc;
  }

  /**
   * As written, the body-only crawler puts every http-like anchor on the
   * page's host: whatever authority the anchor names, the link that is
   * crawled carries the page's, so the crawl leaves the host only through
   * anchor paths that start with "//".
   */
  lemma EveryAnchorRehosted(anchors: seq<string>, base: string, a: string)
    requires Split(base).scheme != "" && Split(base).netloc != ""
    requires a in anchors && HttpScheme(a)
    requires Split(a).netloc != "" && Split(a).path != "" && !("//" <= Split(a).path)
    ensures CleanLink(base, a) in AnyHostLinks(anchors, base)
    ensures Split(CleanLink(base, a)) == UrlParts(Split(base).scheme, Split(base).netloc, RStripSlash(Split(a).path), "", "")
  {
    KeptMember(anchors, HttpScheme, CleanAgainst(base), a);
    CleanLinkParts(base, a);
    assert PathTarget(Split(base).netloc, Split(a).path).0 == Split(base).netloc;
  }
}
