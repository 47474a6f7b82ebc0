# http_scraper_prototype, modelled in Dafny

The repository holds three Playwright crawlers that watch the network
traffic of web pages and log requests that look like calls to a
large-language-model API:

- `http_scraper.py` crawls from eight seed pages, depth first, up to
  `max_depth = 2`. It never loads a URL twice. For every `xhr`/`fetch`
  request whose lowered URL, lowered body or lowered headers contain one of
  the keywords `converstations`, `o4`, `claude`, `gemini`, it appends a
  record to a newline-delimited JSON file. It follows same-host anchors,
  keyword anchors and keyword URLs found in the page text.
- `http_keyword_scraper_only_body.py` is the same crawler with two changes.
  It logs only POST/PUT/PATCH requests whose lowered body contains a
  keyword. It follows the path of every http(s) anchor on the page's own
  scheme and authority, and ignores the page text.
- `llm_specific_parser/llm_http_crawler.py` opens twelve chat front-ends
  one after another and follows no links. It logs every POST request whose
  JSON body is an object with a `messages`, `prompt` or `inputs` key.

The model covers the deterministic part of all three:

- the request policies, as pure functions from a request to an optional
  record and a "continued" flag;
- keyword matching;
- `urlparse`/`urljoin` as far as link cleaning uses them, following
  sections 3, 5.2 and 5.3 of RFC 3986, including the `ValueError` that
  `urlsplit` raises for an authority with an unbalanced '[' or ']';
- the plain-text URL scanner, with what it finds and what it cannot miss;
- the link-extraction loops, as methods proved against set-valued
  specification functions; a URL that does not parse makes extraction
  yield nothing, as the exception caught in `crawl_page` does;
- the append-only output file, as a class;
- the recursive crawl, as a class with the shared visited set;
- the sequential loop of the prompt crawler, as a class.

The browser is a parameter. For each URL it gives what loading the page
yields (anchors and page text, or a failure) and the requests the page
issues while it is open, each with the timestamp the clock gives it.

Two behaviours of the code are stated as lemmas:

- A seed of the form "https://host/" whose page links to itself yields
  "https://host" (the '/' stripped). That string differs from the seed, so
  the visited set does not stop it, and the same page is loaded a second
  time one level deeper (`Crawl.TrailingSlashSeedReloaded`). Five of the
  eight seeds have that form; `Crawl.FirstSeedIsRoot` shows it for the
  first one.
- Anchor cleaning keeps only the link's path and puts it on the page's own
  scheme and authority. In `http_scraper.py` an off-site anchor kept for
  its keyword is therefore followed on the page's host. In
  `http_keyword_scraper_only_body.py` every off-site anchor is, so that
  crawl leaves a page's host only through anchor paths that start with
  "//" (see "## Findings").

Files:

| file | contents |
|---|---|
| `wrappers.dfy` | `Option` |
| `text.dfy` | ASCII `lower`/`upper`, substring test, `rstrip('/')` |
| `keywords.dfy` | `any(keyword in text …)` and the hard-coded configuration |
| `urls.dfy` | URL splitting, recomposition, `urljoin`, link cleaning |
| `text_links.dfy` | `re.findall(r'https?://[^\s"\'<>]+', text)` as a set |
| `json.dfy` | the value `json.loads` returns |
| `interception.dfy` | requests, records and the three request policies |
| `match_log.dfy` | the output file and the records a stream of requests adds to it |
| `link_extraction.dfy` | `extract_links` of both recursive crawlers |
| `crawler.dfy` | `crawl_page` and `main` of both recursive crawlers |
| `prompt_crawler.dfy` | `log_llm_requests` and `main` of the prompt crawler |

## Model

| member | source | states |
|---|---|---|
| Keywords.AnyKeyword | http_scraper.py:28-29 | the test is true exactly when SOME keyword of the list is a substring of the text (any-match, not all-match) |
| Keywords.IsKeywordMatch | http_scraper.py:28-29 | `is_keyword_match(u)` holds exactly when one of the four configured keywords occurs in `u` |
| Keywords.ConfiguredAreLowerCase | http_scraper.py:19 | every configured keyword is lower case and unchanged by lowering, so testing lowered text is case-insensitive |
| Keywords.ConfiguredMissEmpty | http_scraper.py:19 | no configured keyword matches the empty string, so an empty body never matches |
| Keywords.AnyKeywordExtends | http_scraper.py:56 | a keyword found in a piece of text is still found in any text that contains that piece, such as the printed header map containing a header name or value |
| Text.Contains | http_scraper.py:29 | Python's `pat in text` holds exactly when `pat` occurs as a contiguous piece of `text` |
| Text.Lower | http_scraper.py:37 | `lower()` keeps the length, maps each character by itself and leaves no upper-case letter |
| Text.Upper | http_scraper.py:38 | `upper()` keeps the length, maps each character by itself and leaves no lower-case letter |
| Text.RStripSlash | http_scraper.py:94 | `rstrip('/')` returns a prefix that does not end in '/', and everything it removed was '/' |
| Text.RStripSlashIdempotent | http_scraper.py:86 | stripping twice is stripping once |
| Text.RStripSlashAppend | http_scraper.py:86 | stripping `x + p` strips only `p`, unless `p` is all slashes |
| TextLinks.MatchAt | http_scraper.py:32 | there is a match at a position exactly when some URL-shaped string starts there; the match is URL-shaped and maximal (the next character cannot extend it) |
| TextLinks.ScanFromSound | http_scraper.py:32 | everything `findall` returns from a position on is URL-shaped and a maximal match at or after that position |
| TextLinks.ExtractLinksFromText | http_scraper.py:31-32 | every returned string starts with `http://` or `https://`, has at least one character after it, contains no whitespace, `"`, `'`, `<` or `>`, and occurs in the text |
| TextLinks.ScanReaches | http_scraper.py:32 | the scan never jumps over a position that follows a character the pattern cannot match, so what is found from there is found from the start |
| TextLinks.NextStops | http_scraper.py:32 | a match never runs past a character outside `[^\s"'<>]` |
| TextLinks.DelimitedLinkFound | http_scraper.py:31-32 | completeness: a URL-shaped string standing between characters the pattern cannot match (or the ends of the text) is among the links found |
| TextLinks.WholeTextIsOneLink | http_scraper.py:32 | a text that is one URL-shaped string yields exactly that string |
| TextLinks.NoSchemeNoLinks | http_scraper.py:32 | a text with no `http://` or `https://` anywhere yields no link |
| TextLinks.LinksNeedNoStripping | http_scraper.py:91-93 | a link found in the text starts with 'h' and holds no tab, carriage return or line feed, so the characters `urlsplit` strips or removes never occur in one |
| Urls.SplitTail | http_scraper.py:85 | the path is a prefix of what follows the authority and holds no '?' or '#'; the query holds no '#' |
| Urls.Split | http_scraper.py:85 | `urlparse` gives a lower-case well-formed scheme or none; the authority holds no '/', '?' or '#'; the path holds no '?' or '#'; with an authority the path is empty or starts with '/' |
| Urls.SplitRecompose | http_scraper.py:85-86 | splitting a recomposed URL gives back its components (round trip) |
| Urls.Recompose | http_scraper.py:86 | a recomposed URL begins with its scheme; `Urls.SplitRecompose` shows that it splits back into its components |
| Urls.RecomposeOrigin | http_scraper.py:86 | without query and fragment a recomposed URL is the origin followed by the path |
| Urls.Merge | http_scraper.py:86 | merging a relative path keeps the reference as the tail of the result, and onto an absolute or empty base path gives an absolute path |
| Urls.Join | http_scraper.py:86 | `urljoin(base, '')` is `base` itself, and an empty base gives the reference |
| Urls.JoinAbsolutePath | http_scraper.py:86 | joining an absolute path other than "//" keeps the base's scheme; a path starting with "//host" is a network-path reference that names its own authority, any other goes onto the base's authority; no query and no fragment |
| Urls.JoinBareSlashes | http_scraper.py:86 | `urljoin(base, "//")` is the base without its fragment |
| Urls.JoinOnOrigin | http_scraper.py:86 | an absolute path that does not start with "//" is put right after the base's scheme and authority |
| Urls.CleanLink | http_scraper.py:86 | the cleaned link never ends in '/' |
| Urls.CleanLinkParts | http_scraper.py:85-86 | a cleaned link has the BASE's scheme, the authority a leading "//host" of the link's path names or else the BASE's authority, the link's path without trailing '/', and no query and no fragment |
| Urls.StripSplit | http_scraper.py:86 | stripping '/' from an origin followed by an absolute path splits into the same origin and the stripped path |
| Urls.StripRecompose | http_scraper.py:86 | stripping '/' from an origin followed by an absolute path strips the path alone |
| Urls.CleanLinkCollapses | http_scraper.py:86 | links whose paths differ only in trailing '/' clean to the same string, whatever their host, query or fragment |
| Urls.CleanOnOwnHost | http_scraper.py:86 | the cleaning that keeps a link on its own host never yields a link ending in '/' |
| Urls.CleanOnOwnHostParts | http_scraper.py:86-88 | a link cleaned on its own host keeps its own scheme and authority, with its path stripped of trailing '/' and no query and no fragment |
| Interception.Emitted | http_scraper.py:67 | a decision adds at most one record to the file, none exactly when nothing matched, and otherwise exactly the record decided |
| Interception.LowerHeaders | http_scraper.py:40 | every key and value of the lowered header map is lower case |
| Interception.LowerHeadersKeys | http_scraper.py:40 | the keys of the lowered header map are exactly the lowered header names |
| Interception.LowerHeadersLastWins | http_scraper.py:40 | each key holds the lowered value of the LAST header with that lowered name |
| Interception.PostText | http_scraper.py:43-48 | the body text is the lowered body for an upper-cased POST/PUT/PATCH whose body was read, and "" otherwise |
| Interception.HeadersMatch | http_scraper.py:56 | the header test holds exactly when some keyword occurs in a key or in a value of the lowered header map |
| Interception.BroadDecision | http_scraper.py:35-72 | always continued; a record exactly when the request is `xhr`/`fetch` and a keyword occurs in the lowered URL, the body text or a lowered header name or value; the record's fields are the lowered URL, upper-cased method, resource type, lowered headers and body text |
| Interception.BodyOnlyDecision | http_keyword_scraper_only_body.py:28-58 | always continued; a record exactly when the upper-cased method is POST/PUT/PATCH and a keyword occurs in the body text; URL, headers and resource type play no part; the record has no resource type |
| Interception.BodyOnlyNeedsReadBody | http_keyword_scraper_only_body.py:38-44 | with non-empty keywords, a request whose body is missing or could not be read is never recorded |
| Interception.BodyOnlyWithinBroad | http_keyword_scraper_only_body.py:36-53 | for `xhr`/`fetch`, whatever the body-only crawler records the broad one records too, with the same fields plus the resource type |
| Interception.PromptShaped | llm_specific_parser/llm_http_crawler.py:20 | a parsed body qualifies exactly when it is an object with one of the keys `messages`, `prompt`, `inputs` |
| Interception.PromptBody | llm_specific_parser/llm_http_crawler.py:15-31 | a record exactly when the body was read, is non-empty, parses, and is an object with a `messages`, `prompt` or `inputs` key; a failed read or parse writes nothing; the record is the timestamp plus "Z", the URL and method as they are, the page and the parsed object |
| Interception.PromptDecision | llm_specific_parser/llm_http_crawler.py:40 | only a method of exactly "POST" can give a record, and then the record `log_prompt_body` builds |
| Interception.ReadAsWritten | http_scraper.py:46 | the request as the handlers see it when `await request.post_data()` raises: the body read failed, everything else is unchanged |
| Interception.AsWrittenBodiesNeverMatch | http_scraper.py:43-56 | with every body read failing, the body text is "", neither body policy ever records anything, and the broad policy decides on the URL and headers alone |
| Interception.BodyReadLost | http_keyword_scraper_only_body.py:38-53 | a POST whose body names "claude" is recorded when its body is read, and is not when the read fails |
| Log.Listened | http_scraper.py:74 | the records written for a page's requests are never more than the requests |
| Log.ListenedFromTraffic | http_scraper.py:74 | for a page's requests, the file gains at most one record per request, and exactly the records the handler decided on |
| Log.MatchLog.constructor | http_scraper.py:24-26 | the file opened in append mode keeps what it already holds |
| Log.MatchLog.Append | http_scraper.py:24-26 | one write adds exactly one record at the end and changes nothing else |
| LinkExtraction.HttpScheme | http_scraper.py:87 | `scheme.startswith("http")` passes every "http:" and "https:" link and only links whose first four characters spell "http" in any case |
| LinkExtraction.KeepAnchor | http_scraper.py:87 | an anchor is kept exactly when its scheme begins with "http" and it has the page's authority or some keyword occurs in its lowered text |
| LinkExtraction.ConfiguredTestsUseIsKeywordMatch | http_scraper.py:87-93 | with the configured keywords, the keyword tests of both loops are `is_keyword_match(link.lower())` |
| LinkExtraction.CollectAnchors | http_scraper.py:84-88 | the anchor loop yields exactly the cleaned forms of the anchors that pass the test, or nothing when an anchor does not parse |
| LinkExtraction.CollectTextLinks | http_scraper.py:91-94 | the plain-text loop, in any set order, adds exactly the stripped forms of the URLs that pass the test |
| LinkExtraction.ExtractLinks | http_scraper.py:76-96 | nothing when the page URL or an anchor does not parse; otherwise the kept anchors (http scheme and same authority or a keyword), cleaned, plus the keyword URLs of the page text, stripped |
| LinkExtraction.ExtractAnchorLinks | http_keyword_scraper_only_body.py:62-76 | nothing when the page URL or an anchor does not parse; otherwise every anchor with an http-like scheme, whatever its host, cleaned onto the page's scheme and authority; the page text contributes nothing |
| LinkExtraction.BroadExtractionSucceeds | http_scraper.py:76-96 | when nothing raises, extraction yields its links, the kept anchors among them |
| LinkExtraction.BroadLinksTrimmed | http_scraper.py:86-94 | no link `http_scraper.py` extracts ends in '/' |
| LinkExtraction.AnyHostLinksTrimmed | http_keyword_scraper_only_body.py:72-74 | no link the body-only crawler extracts ends in '/' |
| LinkExtraction.AnchorLinksWithinAnyHost | http_keyword_scraper_only_body.py:73 | every anchor link of the broad crawler is also extracted by the body-only crawler |
| LinkExtraction.OffSiteKeywordAnchorRehosted | http_scraper.py:86-88 | an off-site anchor kept for its keyword is extracted with the page's authority, not its own |
| LinkExtraction.EveryAnchorRehosted | http_keyword_scraper_only_body.py:71-74 | every http-like anchor with an authority, whatever that authority, is extracted as the page's scheme and authority followed by the anchor's path without trailing '/' |
| Crawl.Decide | http_scraper.py:50-72 | whichever crawler, every request is continued, and a record carries the request's timestamp |
| Crawl.LinksOf | http_scraper.py:109-116 | no links when loading fails or extraction raises; every link followed has no trailing '/' |
| Crawl.Extract | http_keyword_scraper_only_body.py:93 | `extract_links` of the chosen crawler yields that crawler's extraction |
| Crawl.PageRecordsFromTraffic | http_scraper.py:74 | a page's records are exactly those its handler decided on, at most one per request |
| Crawl.VisitSnoc | http_scraper.py:101 | visiting a URL not yet visited keeps visits distinct and adds exactly that URL |
| Crawl.DistinctUrlsCount | http_scraper.py:99-101 | distinct visits have as many URLs as visits |
| Crawl.AfterChildCrawl | http_scraper.py:120-121 | what a recursive call established survives in the caller: its first visit is a link of the caller's page, one level deeper |
| Crawl.AfterSeedCrawl | http_scraper.py:125-126 | what one seed's crawl established survives the crawls of the later seeds |
| Crawl.SeedsDistinctHttps | http_scraper.py:9-18 | the eight seeds are distinct "https://" URLs that pass the anchor scheme test |
| Crawl.RootSplit | http_scraper.py:85 | "https://host/" splits into "https", the host and the path "/" |
| Crawl.RootCleaned | http_scraper.py:86 | "https://host/" cleaned against itself is "https://host" |
| Crawl.RootExtraction | http_scraper.py:76-96 | a page "https://host/" that links to itself yields "https://host" in either crawler, whatever the keywords |
| Crawl.TrailingSlashSeedReloaded | http_scraper.py:99-121 | such a page yields a link that differs from its URL as a string, so the visited set does not stop the page from being loaded again |
| Crawl.FirstSeedIsRoot | http_scraper.py:10 | the first seed is "https://host/" for a plain host |
| Crawl.Crawler.constructor | http_scraper.py:21 | a fresh crawler has visited nothing and satisfies the invariant: distinct visits, `visited_urls` equal to the loaded URLs, depths within `max_depth`, and the file holding its prior contents plus each loaded page's records in load order |
| Crawl.Crawler.EachPageOnce | http_scraper.py:99-101 | no URL is loaded twice: there are as many visits as visited URLs |
| Crawl.Crawler.HandleRequest | http_scraper.py:54-69 | the file gains exactly the record the handler decides on, if any |
| Crawl.Crawler.InterceptAll | http_scraper.py:74 | every request of an open page passes through the handler in order; the file gains the page's records |
| Crawl.Crawler.VisitOne | http_scraper.py:101-107 | the URL is marked visited before the page is loaded; the visit is appended to the trace; the invariant is kept |
| Crawl.Crawler.PageLinks | http_scraper.py:109-116 | the links followed are this crawler's `extract_links` of the loaded page, or none when loading or extraction failed |
| Crawl.Crawler.CrawlPage | http_scraper.py:98-121 | a visited URL or a depth beyond `max_depth` changes nothing; otherwise the URL is visited first and, once its links are crawled, every link of a page below `max_depth` is visited; each later visit is deeper and reached through a link of an earlier one; the invariant is kept; the recursion terminates on `max_depth + 1 - depth` |
| Crawl.Crawler.FollowLinks | http_scraper.py:120-121 | after the loop over the links, in any set order, every link of the page is visited when the page is below `max_depth` |
| Crawl.Crawler.FollowOne | http_scraper.py:121 | one `crawl_page(link, depth + 1)`: the link is visited when the page is below `max_depth` |
| Crawl.Crawler.Run | http_scraper.py:123-126 | every seed ends up visited, even when loads fail; each new visit is a seed at depth 0 or a link of an earlier visit one level up; every visit below `max_depth` has all its links visited |
| Crawl.CrawlSeeds | http_keyword_scraper_only_body.py:103-106 | `main` with the configured keywords, `max_depth = 2` and the seed list visits every seed and keeps the invariant; every visit is a seed at depth 0 or a link of an earlier visit one level up |
| PromptCrawl.TargetsDistinct | llm_specific_parser/llm_http_crawler.py:51-65 | the twelve targets are distinct "https://" URLs |
| PromptCrawl.ListenerOnLike | llm_specific_parser/llm_http_crawler.py:21-27 | whatever the listener records is a POST record with a timestamp ending in "Z", tagged with its page, holding a prompt-shaped object |
| PromptCrawl.PromptRecordsFromTraffic | llm_specific_parser/llm_http_crawler.py:40 | a page's records are exactly the listener's decisions for its requests, at most one per request, each a prompt-shaped POST record tagged with that page |
| PromptCrawl.RunRecordsFromPages | llm_specific_parser/llm_http_crawler.py:67-70 | every record of a run comes from one of the pages opened and has the prompt record's shape |
| PromptCrawl.ConcatAppend | llm_specific_parser/llm_http_crawler.py:68-70 | the log of a run over `first + rest` is the log over `first` followed by the log over `rest` |
| PromptCrawl.RunRecordsAppend | llm_specific_parser/llm_http_crawler.py:68-70 | running over `first` and then over `rest` writes what one run over both writes |
| PromptCrawl.PromptCrawler.constructor | llm_specific_parser/llm_http_crawler.py:34-40 | a prompt crawler starts with no page opened |
| PromptCrawl.PromptCrawler.LogPromptBody | llm_specific_parser/llm_http_crawler.py:15-31 | the file gains exactly the record `log_prompt_body` decides on, if any |
| PromptCrawl.PromptCrawler.OnRequest | llm_specific_parser/llm_http_crawler.py:40 | non-POST requests are ignored; a POST request goes to `log_prompt_body` |
| PromptCrawl.PromptCrawler.LogLlmRequests | llm_specific_parser/llm_http_crawler.py:34-48 | the page is opened once and the file gains exactly the page's records, in request order |
| PromptCrawl.PromptCrawler.Run | llm_specific_parser/llm_http_crawler.py:67-70 | each URL is opened once, in list order, with no link following; the file gains each page's records in that order |
| PromptCrawl.CrawlTargets | llm_specific_parser/llm_http_crawler.py:51-70 | `main` opens the twelve targets in list order and the file gains their records in that order |

## Findings

| source | as written | input that shows it | evidently intended | confidence | as-written member | corrected member |
|---|---|---|---|---|---|---|
| http_scraper.py:46, http_keyword_scraper_only_body.py:40, llm_specific_parser/llm_http_crawler.py:17 | `await request.post_data()` calls `post_data`, which in Playwright's Python API is a property holding the body text (or `None`), not a method; the call raises `TypeError`, which each handler catches | a `fetch` POST to `https://api.example/chat` with body `claude`: the body-only crawler writes no record | the body is read (`request.post_data`), so a keyword in the body is seen | not executed; rests on `post_data` being a property in Playwright's Python API | Interception.BodyReadLost, Interception.AsWrittenBodiesNeverMatch | Interception.BodyOnlyDecision, Interception.PromptBody |
| http_scraper.py:86-88, http_keyword_scraper_only_body.py:71-74 | an anchor is cleaned as `urljoin(base_url, path)`, which keeps only its path and puts it on the page's scheme and authority: in `http_scraper.py` also for an off-site anchor kept because it names a keyword, in `http_keyword_scraper_only_body.py` for every off-site anchor | on page `https://www.reddit.com/r/x`, the anchor `https://github.com/a/claude-chat` is followed as `https://www.reddit.com/a/claude-chat` by either crawler | an anchor on another host pulls the crawl onto that host, as the same-host-or-keyword test suggests | not executed | LinkExtraction.OffSiteKeywordAnchorRehosted, LinkExtraction.EveryAnchorRehosted | Urls.CleanOnOwnHostParts |

The request policies of the model read the body, which is the intended
behaviour; `Interception.ReadAsWritten` gives the request as the code
sees it, so both readings can be stated. The crawl itself follows the
code as written, including the rehosting of off-site anchors;
`Urls.CleanOnOwnHost` is the cleaning that keeps the anchor's own host.

## Left out

- Browser I/O is not modelled: launching and closing, `page.goto` and its timeout, scrolling, waiting, `eval_on_selector_all`, `page.content`. The browser is a parameter (`Crawl.Web`, `PromptCrawler.traffic`). Which requests a page issues, and whether it loads, is whatever that parameter says.
- The web is a function of the URL. This describes any run of the recursive crawlers, which load each URL at most once. The prompt crawler has no visited set: a URL listed twice would be opened twice and would get the same requests both times.
- Concurrency is not modelled. Route handlers run one after another, each before the next request. The prompt crawler's `asyncio.create_task` tasks are taken to run in request order and to finish before the page closes. A task still pending at `browser.close()` would fail to read the body and write nothing; the model does not capture that loss.
- The event-loop bootstrapping (`nest_asyncio`, `run_until_complete`, the `RuntimeError` fallback) and `print` output are left out.
- Exceptions in `handle_request` are not modelled, for example a failing file write. Their handler only continues the request, which the model does on every path anyway.
- Inside the policies, only a failed body read (`ReadFailed`) is modelled as an error. Inside `extract_links`, only the `ValueError` of an authority with an unbalanced '[' or ']' is modelled (`Urls.SplitFails`); it makes the page yield no links.
- The JSON text written to the file is not modelled; a line of the file is a `Record` value. Parsing with `json.loads` is a parameter that returns `None` where it raises. Whether a file write can fail is not modelled.
- The clock is an input: each intercepted request comes with the timestamp `datetime.utcnow().isoformat()` would give. Only the "Z" suffix of the prompt records is stated.
- Text.Lower: ASCII letters only; Python's `str.lower()` also maps non-ASCII letters, and these are left unchanged here.
- Text.Upper: ASCII letters only, for the same reason.
- Urls.Split: models the scheme, authority, path, query and fragment, and the bracket check that raises `ValueError`. It leaves out:
  - the `;params` component of `urlparse`;
  - ports and user information, which stay inside the authority;
  - the removal of tab, carriage return and line feed, and the stripping of leading control characters and spaces. Anchors come from the browser's `href`, which its own URL parser has already cleaned of these, and text links cannot hold them (`TextLinks.LinksNeedNoStripping`);
  - the check of newer Python versions that a bracketed host is a valid IPv6 or IPvFuture address;
  - the scheme rules `urlparse` applies beyond section 3.1 of RFC 3986.
- Urls.Join: covers every kind of reference: empty, with a scheme, with an authority, an absolute path and a relative path. Left out:
  - dot segments and empty segments, which are kept as written;
  - bases whose scheme `urljoin` does not treat as hierarchical;
  - bases without a scheme or without an authority, where `urlunparse` writes the result differently; the seeds, and the anchors cleaned against a page that has both, have both;
  - the `;params` component.
- Urls.CleanLinkParts: is stated for link paths other than "//" alone; `Urls.JoinBareSlashes` states that case (the base without its fragment).
- Urls.CleanLinkCollapses: is stated for paths that do not start with "//". Such a path names an authority of its own, which takes the place of the base's (`Urls.CleanLinkParts`).
- LinkExtraction.OffSiteKeywordAnchorRehosted: is stated for anchor paths that do not start with "//". For those that do, the authority the path names is used (`Urls.CleanLinkParts`).
- LinkExtraction.EveryAnchorRehosted: is stated for anchors with an authority and a non-empty path that does not start with "//". A path that does names its own authority (`Urls.CleanLinkParts`); an empty path yields the page URL itself without trailing '/'.
- Urls.Merge: keeps empty segments ("a//b") and dot segments ("." and "..") as written. Python's `urljoin` drops the empty middle segments and resolves the dot segments, so for such paths the merge states something `urljoin` does not do. An anchor's `href` is an absolute URL whose path is empty or starts with '/', so the merge is not reached for the anchors of an http page.
- Urls.JoinAbsolutePath: keeps dot segments and empty segments as written; `urljoin(base, "/a/../b")` gives the base's origin followed by "/b", where the lemma states "/a/../b". The browser's `href` has no dot segments, so no anchor the crawlers see is affected.
- Urls.JoinOnOrigin: keeps dot segments and empty segments as written, for the same reason and with the same effect as `Urls.JoinAbsolutePath`.
- Urls.CleanLinkParts: also keeps dot segments and empty segments in the path as written, as `Urls.JoinAbsolutePath` does.
- Interception.HeadersMatch: the source tests `keyword in str(headers)`, the printed form of the whole header map. The model tests each lowered header name and value instead. The configured keywords hold no quote, colon, comma, brace, space or backslash, so a keyword in a name or value is always found in the printed map. The printed map can also match where the model does not. `repr` writes a control character as an escape such as `\x0c`, and a value holding `\x0c` followed by `laude` prints as `\x0claude`, which contains `claude`.
- Crawl.FirstSeedIsRoot: five seeds have the form "https://host/", but the form is shown only for the first. `Crawl.TrailingSlashSeedReloaded` applies to any of them.
