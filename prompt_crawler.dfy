/**
 * `main` and `log_llm_requests` of llm_specific_parser/llm_http_crawler.py:
 * each target page is opened in turn, no links are followed, and every POST
 * request the page issues while it is open goes through the prompt
 * listener. Records carry the page they were observed on.
 *
 * The browser is a parameter giving, for each page, the requests it issues
 * while it is open; whether `page.goto` succeeds does not matter, since the
 * listener sees the requests issued before a failure as well.
 */
module PromptCrawl {
  import opened Wrappers
  import opened Json
  import opened Interception
  import opened Log

  /** The pages the prompt crawler opens, in order. */
  const Targets: seq<string> := [
    "https://chat.openai.com",
    "https://platform.openai.com/playground",
    "https://chatbotui.com",
    "https://bettergpt.chat",
    "https://chatboxai.app",
    "https://typingmind.com",
    "https://librechat.ai",
    "https://chat.forefront.ai",
    "https://poe.com",
    "https://nat.dev",
    "https://agnai.chat",
    "https://ora.sh"
  ]

  /** Twelve distinct pages, each an "https:" URL, so the run opens each of them exactly once. */
  lemma TargetsDistinct()
    ensures |Targets| == 12
    ensures forall i, j :: 0 <= i < j < |Targets| ==> Targets[i] != Targets[j]
    ensures forall t :: t in Targets ==> "https://" <= t
  {
  }

  /** The `request` listener installed for `page`, as a value. */
  function ListenerOn(parse: string -> Option<Json>, page: string): Intercepted -> Option<Record>
  {
    (i: Intercepted) => PromptDecision(parse, i.request, i.timestamp, page)
  }

  /** The records the prompt listener writes while `page` is open. */
  function PromptRecords(parse: string -> Option<Json>, traffic: seq<Intercepted>, page: string): seq<Record>
  {
    Listened(ListenerOn(parse, page), traffic)
  }

  /** The records the prompt listener writes for each page, as a value. */
  function PageLog(parse: string -> Option<Json>, traffic: string -> seq<Intercepted>): string -> seq<Record>
  {
    p => PromptRecords(parse, traffic(p), p)
  }

  /** The records written over a run: those of each page, in the order the pages are opened. */
  function Concat(perPage: string -> seq<Record>, pages: seq<string>): seq<Record>
  {
    if pages == [] then []
    else
      var n := |pages| - 1;
      Concat(perPage, pages[..n]) + perPage(pages[n])
  }

  /** The records written over a whole run of the prompt crawler. */
  function RunRecords(parse: string -> Option<Json>, traffic: string -> seq<Intercepted>, pages: seq<string>): seq<Record>
  {
    Concat(PageLog(parse, traffic), pages)
  }

  /** A record the prompt crawler can write while `page` is open. */
  predicate PromptLike(r: Record, page: string)
  {
    && r.PromptRecord?
    && r.httpMethod == "POST"
    && r.page == page
    && PromptShaped(r.body)
    && r.timestamp != "" && r.timestamp[|r.timestamp| - 1] == 'Z'
  }

  /** Whatever the prompt listener decides to write is a prompt-shaped POST record tagged with its page. */
  lemma ListenerOnLike(parse: string -> Option<Json>, page: string, i: Intercepted)
    ensures ListenerOn(parse, page)(i).Some? ==> PromptLike(ListenerOn(parse, page)(i).value, page)
  {
    var d := PromptDecision(parse, i.request, i.timestamp, page);
    if d.Some? {
      assert PromptBody(parse, i.request, i.timestamp, page) == d;
    }
  }

  /**
   * A page's records are exactly the records the listener decides on for
   * its requests, at most one per request, and each of them is a
   * prompt-shaped POST record tagged with that page.
   */
  lemma PromptRecordsFromTraffic(parse: string -> Option<Json>, traffic: seq<Intercepted>, page: string)
    ensures |PromptRecords(parse, traffic, page)| <= |traffic|
    ensures forall r :: r in PromptRecords(parse, traffic, page) <==>
      exists i :: 0 <= i < |traffic| && PromptDecision(parse, traffic[i].request, traffic[i].timestamp, page) == Some(r)
    ensures forall r :: r in PromptRecords(parse, traffic, page) ==> PromptLike(r, page)
  {
    var listen := ListenerOn(parse, page);
    ListenedFromTraffic(listen, traffic);
    forall r | r in PromptRecords(parse, traffic, page)
      ensures PromptLike(r, page)
    {
      var i :| 0 <= i < |traffic| && listen(traffic[i]) == Some(r);
      ListenerOnLike(parse, page, traffic[i]);
    }
  }

  /** Every record of a run is a prompt-shaped POST record tagged with one of the pages opened. */
  lemma {:induction false} RunRecordsFromPages(parse: string -> Option<Json>, traffic: string -> seq<Intercepted>, pages: seq<string>)
    ensures forall r :: r in RunRecords(parse, traffic, pages) ==> r.PromptRecord? && r.page in pages && PromptLike(r, r.page)
  {
    if pages != [] {
      var n := |pages| - 1;
      RunRecordsFromPages(parse, traffic, pages[..n]);
      PromptRecordsFromTraffic(parse, traffic(pages[n]), pages[n]);
      forall r | r in RunRecords(parse, traffic, pages)
        ensures r.PromptRecord? && r.page in pages && PromptLike(r, r.page)
      {
        if r in RunRecords(parse, traffic, pages[..n]) {
          assert r.page in pages[..n];
        }
      }
    }
  }

  /** Opening pages one after another: the log of a longer run is the logs of its parts, in order. */
  lemma {:induction false} ConcatAppend(perPage: string -> seq<Record>, first: seq<string>, rest: seq<string>)
    ensures Concat(perPage, first + rest) == Concat(perPage, first) + Concat(perPage, rest)
    decreases |rest|
  {
    if rest == [] {
      assert first + rest == first;
    } else {
      var n := |rest| - 1;
      var all := first + rest;
      assert all[..|all| - 1] == first + rest[..n];
      assert all[|all| - 1] == rest[n];
      ConcatAppend(perPage, first, rest[..n]);
      var a, b, c := Concat(perPage, first), Concat(perPage, rest[..n]), perPage(rest[n]);
      assert Concat(perPage, all) == (a + b) + c;
      assert Concat(perPage, rest) == b + c;
      assert (a + b) + c == a + (b + c);
    }
  }

  /** Running over `first` and then over `rest` writes what one run over both writes. */
  lemma RunRecordsAppend(parse: string -> Option<Json>, traffic: string -> seq<Intercepted>, first: seq<string>, rest: seq<string>)
    ensures RunRecords(parse, traffic, first + rest) == RunRecords(parse, traffic, first) + RunRecords(parse, traffic, rest)
  {
    ConcatAppend(PageLog(parse, traffic), first, rest);
  }

  class PromptCrawler {
    /** The browser: the requests each page issues while it is open. */
    const traffic: string -> seq<Intercepted>
    /** `json.loads`, `None` where it raises. */
    const parse: string -> Option<Json>
    /** The output file. */
    const log: MatchLog
    /** The pages opened so far, in order. */
    ghost var pages: seq<string>

    /** A crawler that has opened nothing yet. */
    constructor (traffic: string -> seq<Intercepted>, parse: string -> Option<Json>, log: MatchLog)
      ensures this.traffic == traffic && this.parse == parse && this.log == log
      ensures pages == []
    {
      this.traffic := traffic;
      this.parse := parse;
      this.log := log;
      pages := [];
    }

    /**
     * `log_prompt_body(req, page_url)`: at most one record is appended, the
     * one the body decides on.
     */
    method LogPromptBody(i: Intercepted, page: string)
      modifies log
      ensures log.records == old(log.records) + Emitted(PromptBody(parse, i.request, i.timestamp, page))
    {
      var r := PromptBody(parse, i.request, i.timestamp, page);
      match r {
        case Some(record) => log.Append(record);
        case None =>
      }
    }

    /** The `request` listener: POST requests go to `log_prompt_body`, others are ignored. */
    method OnRequest(i: Intercepted, page: string)
      modifies log
      ensures log.records == old(log.records) + Emitted(PromptDecision(parse, i.request, i.timestamp, page))
    {
      if i.request.httpMethod == "POST" {
        LogPromptBody(i, page);
      }
    }

    /**
     * `log_llm_requests(url)`: the page is opened and every request it
     * issues reaches the listener in order; the log gains exactly the page's
     * records.
     */
    method LogLlmRequests(url: string)
      modifies this, log
      ensures pages == old(pages) + [url]
      ensures log.records == old(log.records) + PromptRecords(parse, traffic(url), url)
    {
      var requests := traffic(url);
      ghost var listen := ListenerOn(parse, url);
      for n := 0 to |requests|
        invariant pages == old(pages)
        invariant log.records == old(log.records) + Listened(listen, requests[..n])
      {
        OnRequest(requests[n], url);
        assert requests[..n + 1][..n] == requests[..n];
        assert Listened(listen, requests[..n + 1]) == Listened(listen, requests[..n]) + Emitted(listen(requests[n]));
      }
      assert requests[..|requests|] == requests;
      pages := pages + [url];
    }

    /**
     * `main`: `log_llm_requests(url)` for each URL in order. Every page is
     * opened once, in order, and the log gains the records of each page in
     * that order.
     */
    method Run(urls: seq<string>)
      modifies this, log
      ensures pages == old(pages) + urls
      ensures log.records == old(log.records) + RunRecords(parse, traffic, urls)
    {
      for i := 0 to |urls|
        invariant pages == old(pages) + urls[..i]
        invariant log.records == old(log.records) + RunRecords(parse, traffic, urls[..i])
      {
        LogLlmRequests(urls[i]);
        assert urls[..i + 1][..i] == urls[..i];
        assert RunRecords(parse, traffic, urls[..i + 1])
          == RunRecords(parse, traffic, urls[..i]) + PromptRecords(parse, traffic(urls[i]), urls[i]);
      }
      assert urls[..|urls|] == urls;
    }
  }

  /**
   * `main` with the hard-coded target list: each target is opened once, in
   * list order, and the output file gains the records of each target in
   * that order.
   */
  method CrawlTargets(traffic: string -> seq<Intercepted>, parse: string -> Option<Json>, log: MatchLog)
    returns (crawler: PromptCrawler)
    modifies log
    ensures fresh(crawler) && crawler.log == log && crawler.pages == Targets
    ensures log.records == old(log.records) + RunRecords(parse, traffic, Targets)
  {
    crawler := new PromptCrawler(traffic, parse, log);
    crawler.Run(Targets);
  }
}
