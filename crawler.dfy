/**
 * `crawl_page` and `main` of the two recursive crawlers (http_scraper.py and
 * http_keyword_scraper_only_body.py): a depth-bounded, depth-first crawl
 * that loads each URL at most once, logs the matching requests of every
 * page it loads and then follows the links extracted from that page.
 *
 * The browser is a parameter: for each URL, what loading it yields (the
 * anchors and the page text, or a failure) and the requests the page issues
 * while it is open. Since a URL is loaded at most once, a function of the URL
 * is enough to describe any run.
 */
module Crawl {
  import opened Wrappers
  import opened Keywords
  import opened Interception
  import opened LinkExtraction
  import opened Log
  import opened Text
  import opened Urls

  /** What `page.goto` followed by `extract_links` yields: the anchors' hrefs and `page.content()`, or an exception. */
  datatype PageLoad = LoadFailed | Loaded(anchors: seq<string>, content: string)

  /** The browser: how each URL loads, and the requests its page issues while it is open. */
  datatype Web = Web(load: string -> PageLoad, traffic: string -> seq<Intercepted>)

  /** Which of the two recursive crawlers: the broad one or the body-only one. */
  datatype Variant = Broad | BodyOnly

  /** One call of `crawl_page` that got past the guard: the URL loaded and its depth. */
  datatype Visit = Visit(url: string, depth: nat)

  /** The route handler of the chosen crawler applied to one request. */
  function Decide(variant: Variant, keywords: seq<string>, i: Intercepted): (d: Decision)
    ensures d.continued
    ensures d.record.Some? ==> d.record.value.timestamp == i.timestamp
  {
    match variant
    case Broad => BroadDecision(keywords, i.request, i.timestamp)
    case BodyOnly => BodyOnlyDecision(keywords, i.request, i.timestamp)
  }

  /** The route handler of the chosen crawler, as a value. */
  function HandlerOf(variant: Variant, keywords: seq<string>): Intercepted -> Decision
  {
    i => Decide(variant, keywords, i)
  }

  /** What the chosen crawler's `extract_links` yields on a loaded page: its links, or `None` when it raises. */
  function ExtractionOf(variant: Variant, keywords: seq<string>, anchors: seq<string>, content: string, url: string): Option<set<string>>
  {
    match variant
    case Broad => BroadExtraction(keywords, anchors, content, url)
    case BodyOnly => AnyHostExtraction(anchors, url)
  }

  /**
   * The links `crawl_page` follows from `url` after loading it: none when
   * loading failed or `extract_links` raised (one anchor that does not
   * parse is enough); each of them has its trailing '/' removed.
   */
  function LinksOf(variant: Variant, keywords: seq<string>, load: PageLoad, url: string): (links: set<string>)
    ensures load.LoadFailed? ==> links == {}
    ensures load.Loaded? && ExtractionFails(load.anchors, url) ==> links == {}
    ensures forall l :: l in links ==> Trimmed(l)
  {
    match load
    case LoadFailed => {}
    case Loaded(anchors, content) =>
      BroadLinksTrimmed(keywords, anchors, content, url);
      AnyHostLinksTrimmed(anchors, url);
      LinksFrom(ExtractionOf(variant, keywords, anchors, content, url))
  }

  /** `extract_links` of the chosen crawler. */
  method Extract(variant: Variant, keywords: seq<string>, anchors: seq<string>, content: string, url: string)
    returns (extracted: Option<set<string>>)
    ensures extracted == ExtractionOf(variant, keywords, anchors, content, url)
  {
    match variant
    case Broad =>
      extracted := ExtractLinks(keywords, anchors, content, url);
    case BodyOnly =>
      extracted := ExtractAnchorLinks(anchors, url);
  }

  /** The links of an extraction: none when it raised. */
  function LinksFrom(extracted: Option<set<string>>): set<string>
  {
    match extracted
    case None => {}
    case Some(links) => links
  }

  /** The record a handler decides on, as a listener. */
  function RecordsOf(decide: Intercepted -> Decision): Intercepted -> Option<Record>
  {
    i => decide(i).record
  }

  /** The records a handler writes for a page's requests, in the order the requests arrive. */
  function PageRecords(decide: Intercepted -> Decision, traffic: seq<Intercepted>): seq<Record>
  {
    Listened(RecordsOf(decide), traffic)
  }

  /**
   * A page's records are exactly the records its handler decided to write:
   * each comes from one of the page's requests, and every request the
   * handler records contributes its record; there are never more records
   * than requests.
   */
  lemma PageRecordsFromTraffic(decide: Intercepted -> Decision, traffic: seq<Intercepted>)
    ensures |PageRecords(decide, traffic)| <= |traffic|
    ensures forall r :: r in PageRecords(decide, traffic) <==>
      exists i :: 0 <= i < |traffic| && decide(traffic[i]).record == Some(r)
  {
    ListenedFromTraffic(RecordsOf(decide), traffic);
  }

  /** The log written over a whole crawl: the records of each visited page, in visit order. */
  function TraceRecords(decide: Intercepted -> Decision, traffic: string -> seq<Intercepted>, trace: seq<Visit>): seq<Record>
  {
    if trace == [] then []
    else
      var n := |trace| - 1;
      TraceRecords(decide, traffic, trace[..n]) + PageRecords(decide, traffic(trace[n].url))
  }

  /** No URL occurs twice among the visits. */
  ghost predicate Distinct(trace: seq<Visit>)
  {
    forall i, j :: 0 <= i < j < |trace| ==> trace[i].url != trace[j].url
  }

  /** The URLs of the visits. */
  ghost function VisitedUrls(trace: seq<Visit>): set<string>
  {
    set v | v in trace :: v.url
  }

  /** One more visit, to a URL not visited yet, keeps the visits distinct and adds its URL. */
  lemma VisitSnoc(trace: seq<Visit>, v: Visit)
    requires Distinct(trace) && v.url !in VisitedUrls(trace)
    ensures Distinct(trace + [v])
    ensures VisitedUrls(trace + [v]) == VisitedUrls(trace) + {v.url}
  {
    var t := trace + [v];
    forall i, j | 0 <= i < j < |t|
      ensures t[i].url != t[j].url
    {
      assert t[i] == trace[i] && t[i] in trace;
    }
  }

  /** Distinct visits have exactly as many URLs as visits. */
  lemma {:induction false} DistinctUrlsCount(trace: seq<Visit>)
    requires Distinct(trace)
    ensures |VisitedUrls(trace)| == |trace|
  {
    if trace != [] {
      var n := |trace| - 1;
      var init := trace[..n];
      assert trace == init + [trace[n]];
      assert Distinct(init);
      DistinctUrlsCount(init);
      assert trace[n].url !in VisitedUrls(init) by {
        forall v | v in init
          ensures v.url != trace[n].url
        {
          var i :| 0 <= i < |init| && init[i] == v;
          assert trace[i] == v;
        }
      }
      VisitSnoc(init, trace[n]);
    }
  }

  /** Visit `k` was reached from an earlier visit at or after `lo`: one level deeper, through one of its links. */
  ghost predicate HasParent(links: string -> set<string>, trace: seq<Visit>, lo: int, k: int)
    requires 0 <= lo <= k < |trace|
  {
    exists j :: lo <= j < k && trace[k].depth == trace[j].depth + 1 && trace[k].url in links(trace[j].url)
  }

  /** Visit `k` is not at the depth bound, so all its links have been visited. */
  ghost predicate Closed(links: string -> set<string>, maxDepth: nat, trace: seq<Visit>, visited: set<string>, k: int)
    requires 0 <= k < |trace|
  {
    trace[k].depth < maxDepth ==> links(trace[k].url) <= visited
  }

  /**
   * Visit `k` comes from the crawl started at visit `start`, at depth
   * `depth`: it is deeper, reached through a link of an earlier visit from
   * `start` on, and closed.
   */
  ghost predicate Descendant(links: string -> set<string>, maxDepth: nat, trace: seq<Visit>, visited: set<string>,
                             depth: nat, start: int, k: int)
  {
    0 <= start < k < |trace| && trace[k].depth > depth
    && HasParent(links, trace, start, k) && Closed(links, maxDepth, trace, visited, k)
  }

  /**
   * What a recursive call left behind survives in the caller: the visits
   * before it keep their parents and stay closed (the visited set only
   * grew), its first visit has the caller's visit `start` as parent, and its
   * later visits have parents within the call.
   */
  lemma AfterChildCrawl(links: string -> set<string>, maxDepth: nat, depth: nat, childDepth: nat, start: int, before: seq<Visit>,
                        visitedBefore: set<string>, trace: seq<Visit>, visited: set<string>, link: string)
    requires childDepth == depth + 1
    requires 0 <= start < |before| && before <= trace && visitedBefore <= visited
    requires before[start].depth == depth && link in links(before[start].url)
    requires forall k :: start < k < |before| ==> Descendant(links, maxDepth, before, visitedBefore, depth, start, k)
    requires |trace| > |before| ==> trace[|before|] == Visit(link, childDepth) && Closed(links, maxDepth, trace, visited, |before|)
    requires forall k :: |before| < k < |trace| ==> Descendant(links, maxDepth, trace, visited, childDepth, |before|, k)
    ensures forall k :: start < k < |trace| ==> Descendant(links, maxDepth, trace, visited, depth, start, k)
  {
    forall k | start < k < |trace|
      ensures Descendant(links, maxDepth, trace, visited, depth, start, k)
    {
      if k < |before| {
        assert Descendant(links, maxDepth, before, visitedBefore, depth, start, k);
        assert trace[k] == before[k];
        var j :| start <= j < k && before[k].depth == before[j].depth + 1 && before[k].url in links(before[j].url);
        assert trace[j] == before[j];
        assert Closed(links, maxDepth, before, visitedBefore, k);
      } else if k == |before| {
        assert trace[start] == before[start];
      } else {
        assert Descendant(links, maxDepth, trace, visited, childDepth, |before|, k);
        var j :| |before| <= j < k && trace[k].depth == trace[j].depth + 1 && trace[k].url in links(trace[j].url);
      }
    }
  }

  /**
   * Visit `k`, made after visit `lo`, is a seed crawled at depth 0 or was
   * reached through a link of an earlier visit from `lo` on, one level up;
   * and it is closed.
   */
  ghost predicate Reached(links: string -> set<string>, maxDepth: nat, seeds: seq<string>, trace: seq<Visit>, visited: set<string>,
                          lo: int, k: int)
  {
    0 <= lo <= k < |trace|
    && ((trace[k].depth == 0 && trace[k].url in seeds) || HasParent(links, trace, lo, k))
    && Closed(links, maxDepth, trace, visited, k)
  }

  /** What one seed's crawl left behind survives in `main`. */
  lemma AfterSeedCrawl(links: string -> set<string>, maxDepth: nat, seeds: seq<string>, lo: int, before: seq<Visit>,
                       visitedBefore: set<string>, trace: seq<Visit>, visited: set<string>, seed: string)
    requires 0 <= lo <= |before| && before <= trace && visitedBefore <= visited && seed in seeds
    requires forall k :: lo <= k < |before| ==> Reached(links, maxDepth, seeds, before, visitedBefore, lo, k)
    requires |trace| > |before| ==> trace[|before|] == Visit(seed, 0) && Closed(links, maxDepth, trace, visited, |before|)
    requires forall k :: |before| < k < |trace| ==> Descendant(links, maxDepth, trace, visited, 0, |before|, k)
    ensures forall k :: lo <= k < |trace| ==> Reached(links, maxDepth, seeds, trace, visited, lo, k)
  {
    forall k | lo <= k < |trace|
      ensures Reached(links, maxDepth, seeds, trace, visited, lo, k)
    {
      if k < |before| {
        assert Reached(links, maxDepth, seeds, before, visitedBefore, lo, k);
        assert trace[k] == before[k];
        assert Closed(links, maxDepth, before, visitedBefore, k);
        if !(before[k].depth == 0 && before[k].url in seeds) {
          assert HasParent(links, before, lo, k);
          var j :| lo <= j < k && before[k].depth == before[j].depth + 1 && before[k].url in links(before[j].url);
          assert trace[j] == before[j];
        }
      } else if k > |before| {
        assert Descendant(links, maxDepth, trace, visited, 0, |before|, k);
        var j :| |before| <= j < k && trace[k].depth == trace[j].depth + 1 && trace[k].url in links(trace[j].url);
      }
    }
  }

  class Crawler {
    /** Which handler and which link extraction this crawler uses. */
    const variant: Variant
    /** The keyword list. */
    const keywords: seq<string>
    /** `max_depth`. */
    const maxDepth: nat
    /** The browser. */
    const web: Web
    /** The output file. */
    const log: MatchLog
    /** The route handler installed on every page: `handle_request` of the chosen crawler. */
    const handler: Intercepted -> Decision
    /** What the output file held before the crawl. */
    ghost const prior: seq<Record>

    /** `visited_urls`. */
    var visited: set<string>
    /** The visits made so far, in order. */
    ghost var trace: seq<Visit>

    /** The links this crawler follows from each URL. */
    ghost const follow: string -> set<string>

    /** `follow` is this crawler's `extract_links` on each loaded page. */
    ghost predicate Wired()
    {
      forall u {:trigger LinksOf(variant, keywords, web.load(u), u)} :: follow(u) == LinksOf(variant, keywords, web.load(u), u)
    }

    /**
     * Every URL is loaded at most once, `visited_urls` is exactly the set of
     * URLs loaded, no page deeper than `max_depth` is loaded, and the output
     * file holds what it held before followed by the records of each loaded
     * page, in the order the pages were loaded.
     */
    ghost predicate Valid()
      reads this, log
    {
      && Wired()
      && Distinct(trace)
      && visited == VisitedUrls(trace)
      && (forall k :: 0 <= k < |trace| ==> trace[k].depth <= maxDepth)
      && log.records == prior + TraceRecords(handler, web.traffic, trace)
    }

    /** A crawler that has visited nothing, writing after what `log` already holds. */
    constructor (variant: Variant, keywords: seq<string>, maxDepth: nat, web: Web, log: MatchLog)
      ensures Valid()
      ensures this.variant == variant && this.keywords == keywords && this.maxDepth == maxDepth
      ensures this.web == web && this.log == log && prior == log.records
      ensures handler == HandlerOf(variant, keywords)
      ensures visited == {} && trace == []
    {
      this.variant := variant;
      this.keywords := keywords;
      this.maxDepth := maxDepth;
      this.web := web;
      this.log := log;
      handler := HandlerOf(variant, keywords);
      follow := u => LinksOf(variant, keywords, web.load(u), u);
      prior := log.records;
      visited := {};
      trace := [];
    }

    /** No URL is loaded twice: there are exactly as many visits as visited URLs. */
    lemma EachPageOnce()
      requires Valid()
      ensures |trace| == |visited|
    {
      DistinctUrlsCount(trace);
    }

    /** `handle_request` on one request: the log gains the record the handler decides on, if any. */
    method HandleRequest(i: Intercepted)
      modifies log
      ensures log.records == old(log.records) + Emitted(handler(i).record)
    {
      var d := handler(i);
      match d.record {
        case Some(r) => log.Append(r);
        case None =>
      }
    }

    /** Every request of an open page passes through the handler, in order. */
    method InterceptAll(traffic: seq<Intercepted>)
      modifies log
      ensures log.records == old(log.records) + PageRecords(handler, traffic)
    {
      for n := 0 to |traffic|
        invariant log.records == old(log.records) + PageRecords(handler, traffic[..n])
      {
        HandleRequest(traffic[n]);
        assert traffic[..n + 1][..n] == traffic[..n];
      }
      assert traffic[..|traffic|] == traffic;
    }

    /** The guard passed: record the visit, then load the page with every request intercepted. */
    method VisitOne(url: string, depth: nat)
      requires Valid()
      requires url !in visited && depth <= maxDepth
      modifies this, log
      ensures Valid()
      ensures trace == old(trace) + [Visit(url, depth)] && visited == old(visited) + {url}
    {
      ghost var t := trace + [Visit(url, depth)];
      assert t[..|trace|] == trace;
      VisitSnoc(trace, Visit(url, depth));
      visited := visited + {url};
      trace := t;
      InterceptAll(web.traffic(url));
    }

    /** `extract_links` of this crawler on the loaded page, or no links when loading failed. */
    method PageLinks(url: string) returns (links: set<string>)
      requires Wired()
      ensures links == follow(url)
    {
      assert follow(url) == LinksOf(variant, keywords, web.load(url), url);
      match web.load(url)
      case LoadFailed =>
        links := {};
      case Loaded(anchors, content) =>
        var extracted := Extract(variant, keywords, anchors, content, url);
        links := LinksFrom(extracted);
    }

    /**
     * `crawl_page(url, depth)`. A URL already visited, or a depth beyond
     * `max_depth`, changes nothing. Otherwise the URL is visited first, and
     * once all its links are followed it is closed; every visit that follows
     * within this call is deeper, reached through a link of an earlier visit
     * of this call one level up, and closed.
     */
    method CrawlPage(url: string, depth: nat)
      requires Valid()
      modifies this, log
      ensures Valid()
      ensures old(trace) <= trace && old(visited) <= visited
      ensures url in old(visited) || depth > maxDepth ==> trace == old(trace) && visited == old(visited)
      ensures url !in old(visited) && depth <= maxDepth ==>
        |trace| > |old(trace)| && trace[|old(trace)|] == Visit(url, depth) && Closed(follow, maxDepth, trace, visited, |old(trace)|)
      ensures depth <= maxDepth ==> url in visited
      ensures forall k :: |old(trace)| < k < |trace| ==> Descendant(follow, maxDepth, trace, visited, depth, |old(trace)|, k)
      decreases maxDepth + 1 - depth, 2
    {
      if url in visited || depth > maxDepth {
        return;
      }
      ghost var start := |trace|;
      VisitOne(url, depth);
      var links := PageLinks(url);
      FollowLinks(url, depth, start, links);
    }

    /**
     * The loop `for link in links: crawl_page(link, depth + 1)` after the
     * visit `start` of `url`, the last visit so far. Afterwards every visit
     * the loop made is deeper, reached through a link of an earlier visit
     * from `start` on, and closed; when `url` is not at the depth bound, all
     * its links have been visited.
     */
    method FollowLinks(url: string, depth: nat, ghost start: nat, links: set<string>)
      requires Valid()
      requires depth <= maxDepth && links == follow(url)
      requires start + 1 == |trace| && trace[start] == Visit(url, depth)
      modifies this, log
      ensures Valid()
      ensures old(trace) <= trace && old(visited) <= visited
      ensures forall k :: start < k < |trace| ==> Descendant(follow, maxDepth, trace, visited, depth, start, k)
      ensures Closed(follow, maxDepth, trace, visited, start)
      decreases maxDepth + 1 - depth, 1
    {
      var pending := links;
      while pending != {}
        invariant Valid()
        invariant pending <= links
        invariant old(trace) <= trace && old(visited) <= visited
        invariant forall k :: start < k < |trace| ==> Descendant(follow, maxDepth, trace, visited, depth, start, k)
        invariant depth < maxDepth ==> links - pending <= visited
        decreases pending
      {
        var link :| link in pending;
        pending := pending - {link};
        FollowOne(url, depth, start, link);
      }
      assert trace[start] == old(trace)[start];
    }

    /** One iteration of the loop: `crawl_page(link, depth + 1)` for a link of `url`. */
    method FollowOne(url: string, depth: nat, ghost start: int, link: string)
      requires Valid()
      requires depth <= maxDepth && link in follow(url)
      requires 0 <= start < |trace| && trace[start] == Visit(url, depth)
      requires forall k :: start < k < |trace| ==> Descendant(follow, maxDepth, trace, visited, depth, start, k)
      modifies this, log
      ensures Valid()
      ensures old(trace) <= trace && old(visited) <= visited
      ensures forall k :: start < k < |trace| ==> Descendant(follow, maxDepth, trace, visited, depth, start, k)
      ensures depth < maxDepth ==> link in visited
      decreases maxDepth + 1 - depth, 0
    {
      ghost var before := trace;
      ghost var visitedBefore := visited;
      CrawlPage(link, depth + 1);
      AfterChildCrawl(follow, maxDepth, depth, depth + 1, start, before, visitedBefore, trace, visited, link);
    }

    /**
     * `main`: `crawl_page(url, 0)` for each seed in order. Every seed ends
     * up visited; each new visit is a seed at depth 0 or was reached through
     * a link of an earlier new visit one level up; and every new visit not
     * at the depth bound has all its links visited.
     */
    method Run(seeds: seq<string>)
      requires Valid()
      modifies this, log
      ensures Valid()
      ensures old(trace) <= trace && old(visited) <= visited
      ensures forall s :: s in seeds ==> s in visited
      ensures forall k :: |old(trace)| <= k < |trace| ==> Reached(follow, maxDepth, seeds, trace, visited, |old(trace)|, k)
    {
      for i := 0 to |seeds|
        invariant Valid()
        invariant old(trace) <= trace && old(visited) <= visited
        invariant forall s :: s in seeds[..i] ==> s in visited
        invariant forall k :: |old(trace)| <= k < |trace| ==> Reached(follow, maxDepth, seeds, trace, visited, |old(trace)|, k)
      {
        ghost var before := trace;
        ghost var visitedBefore := visited;
        CrawlPage(seeds[i], 0);
        AfterSeedCrawl(follow, maxDepth, seeds, |old(trace)|, before, visitedBefore, trace, visited, seeds[i]);
        assert seeds[..i + 1] == seeds[..i] + [seeds[i]];
      }
      assert seeds[..|seeds|] == seeds;
    }
  }

  /** The seeds are distinct "https://" URLs, each of which passes the anchor scheme test. */
  lemma SeedsDistinctHttps()
    ensures forall i, j :: 0 <= i < j < |Seeds| ==> Seeds[i] != Seeds[j]
    ensures forall s :: s in Seeds ==> "https://" <= s && HttpScheme(s)
  {
    forall s | s in Seeds
      ensures "https://" <= s && "https:" <= s
    {
    }
  }

  /** A host name: non-empty, with no character that ends an authority and no bracket. */
  predicate PlainHost(host: string)
  {
    host != "" && forall i :: 0 <= i < |host| ==> host[i] !in AuthorityEnd && host[i] != '[' && host[i] != ']'
  }

  /** "https://host/" splits into its scheme, its host and the path "/". */
  lemma RootSplit(host: string)
    requires PlainHost(host)
    ensures "https://" + host + "/" == Recompose(UrlParts("https", host, "/", "", ""))
    ensures Split("https://" + host + "/") == UrlParts("https", host, "/", "", "")
  {
    var p := UrlParts("https", host, "/", "", "");
    assert Recompose(p) == "https://" + host + "/";
    assert IsScheme("https");
    SplitRecompose(p);
  }

  /** Neither parsing "https://host/" nor joining its path raises. */
  lemma RootParses(host: string)
    requires PlainHost(host)
    ensures !SplitFails("https://" + host + "/") && !AnchorFails("https://" + host + "/")
  {
    RootSplit(host);
    SlashHasNoAuthority("/");
  }

  /** The path "/" names no authority. */
  lemma SlashHasNoAuthority(path: string)
    requires path == "/"
    ensures Split(path).netloc == ""
  {
    SplitAbsolutePath(path);
  }

  /** Cleaning "https://host/" against itself drops the trailing '/'. */
  lemma RootCleaned(host: string)
    requires PlainHost(host)
    ensures CleanLink("https://" + host + "/", "https://" + host + "/") == "https://" + host
  {
    var seed := "https://" + host + "/";
    RootJoined(host);
    assert seed == ("https://" + host) + "/";
    RStripSlashAppend("https://" + host, "/");
  }

  /** Joining the path of "https://host/" to itself gives it back. */
  lemma RootJoined(host: string)
    requires PlainHost(host)
    ensures var seed := "https://" + host + "/"; Join(seed, Split(seed).path) == seed
  {
    var seed := "https://" + host + "/";
    RootSplit(host);
    var slash := Split(seed).path;
    JoinAbsolutePath(seed, slash);
    assert PathTarget(host, slash) == (host, slash);
  }

  /** The page "https://host/" with itself as its only anchor: extraction does not raise. */
  lemma RootExtractionSucceeds(host: string)
    requires PlainHost(host)
    ensures !ExtractionFails(["https://" + host + "/"], "https://" + host + "/")
  {
    var seed := "https://" + host + "/";
    var anchors := [seed];
    RootParses(host);
    forall a | a in anchors
      ensures !AnchorFails(a)
    {
    }
  }

  /** The page "https://host/" with itself as its only anchor: the root is among the links of either crawler. */
  lemma RootExtraction(keywords: seq<string>, content: string, host: string)
    requires PlainHost(host)
    ensures var seed := "https://" + host + "/";
      && "https://" + host in LinksFrom(ExtractionOf(Broad, keywords, [seed], content, seed))
      && "https://" + host in LinksFrom(ExtractionOf(BodyOnly, keywords, [seed], content, seed))
  {
    var seed, root := "https://" + host + "/", "https://" + host;
    RootExtractionSucceeds(host);
    RootCleaned(host);
    RootKept(keywords, seed, root);
    ExtractionSucceeds(keywords, [seed], content, seed);
    FoundIn(ExtractionOf(Broad, keywords, [seed], content, seed), BroadLinks(keywords, [seed], content, seed), root);
    AnyHostExtractionSucceeds([seed], content, seed);
  }

  /** A link of a successful extraction is among the links it yields. */
  lemma FoundIn(extracted: Option<set<string>>, links: set<string>, link: string)
    requires extracted == Some(links) && link in links
    ensures link in LinksFrom(extracted)
  {
  }

  /** When nothing raises, the broad crawler's extraction yields its links, the kept anchors among them. */
  lemma ExtractionSucceeds(keywords: seq<string>, anchors: seq<string>, content: string, url: string)
    requires !ExtractionFails(anchors, url)
    ensures ExtractionOf(Broad, keywords, anchors, content, url) == Some(BroadLinks(keywords, anchors, content, url))
    ensures AnchorLinks(keywords, anchors, url) <= BroadLinks(keywords, anchors, content, url)
  {
    BroadExtractionSucceeds(keywords, anchors, content, url);
  }

  /** When nothing raises, the body-only crawler's extraction yields its links. */
  lemma AnyHostExtractionSucceeds(anchors: seq<string>, content: string, url: string)
    requires !ExtractionFails(anchors, url)
    ensures forall keywords :: LinksFrom(ExtractionOf(BodyOnly, keywords, anchors, content, url)) == AnyHostLinks(anchors, url)
  {
  }

  /** A page that is its own only anchor, with an "https:" URL, keeps its cleaned form in either crawler. */
  lemma RootKept(keywords: seq<string>, seed: string, root: string)
    requires "https:" <= seed && CleanLink(seed, seed) == root
    ensures root in AnchorLinks(keywords, [seed], seed) && root in AnyHostLinks([seed], seed)
  {
    KeptMember([seed], KeepFor(keywords, seed), CleanAgainst(seed), seed);
    KeptMember([seed], HttpScheme, CleanAgainst(seed), seed);
  }

  /**
   * A seed of the form "https://host/" whose page links to itself yields
   * its own root without the '/', whatever the keywords: a URL that differs
   * from the seed as a string, so `visited_urls` does not stop it and the
   * same page is loaded a second time, one level deeper. Either crawler
   * does this.
   */
  lemma TrailingSlashSeedReloaded(variant: Variant, keywords: seq<string>, content: string, host: string)
    requires PlainHost(host)
    ensures var seed := "https://" + host + "/";
      && "https://" + host != seed
      && "https://" + host in LinksOf(variant, keywords, Loaded([seed], content), seed)
  {
    var seed := "https://" + host + "/";
    var root := "https://" + host;
    assert |root| < |seed|;
    RootExtraction(keywords, content, host);
    LinksOfLoaded(variant, keywords, [seed], content, seed);
  }

  /** The links of a loaded page are those its extraction yields. */
  lemma LinksOfLoaded(variant: Variant, keywords: seq<string>, anchors: seq<string>, content: string, url: string)
    ensures LinksOf(variant, keywords, Loaded(anchors, content), url) == LinksFrom(ExtractionOf(variant, keywords, anchors, content, url))
  {
  }

  /** The first seed is "https://host/" for a plain host, so `TrailingSlashSeedReloaded` applies to it. */
  lemma FirstSeedIsRoot()
    ensures PlainHost("typingmind.com") && Seeds[0] == "https://" + "typingmind.com" + "/"
  {
  }

  /**
   * `main` with the hard-coded configuration: the configured keywords,
   * `max_depth = 2` and the seed list. Every seed ends up visited, and the
   * output file holds what it held before followed by the records of each
   * loaded page, in load order.
   */
  method CrawlSeeds(variant: Variant, web: Web, log: MatchLog) returns (crawler: Crawler)
    modifies log
    ensures fresh(crawler) && crawler.Valid()
    ensures crawler.variant == variant && crawler.keywords == Configured && crawler.maxDepth == MaxDepth
    ensures crawler.web == web && crawler.log == log && crawler.prior == old(log.records)
    ensures forall s :: s in Seeds ==> s in crawler.visited
    ensures forall k :: 0 <= k < |crawler.trace| ==> Reached(crawler.follow, MaxDepth, Seeds, crawler.trace, crawler.visited, 0, k)
  {
    crawler := new Crawler(variant, Configured, MaxDepth, web, log);
    crawler.Run(Seeds);
  }
}
