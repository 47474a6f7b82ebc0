/**
 * The request filter of each crawler: what one intercepted request turns
 * into (a record or nothing), and the guarantee that the request is always
 * let through.
 *
 *  - Broad policy (http_scraper.py): only `xhr`/`fetch` requests are
 *    inspected; a keyword in the lowered URL, the lowered body or the
 *    lowered header map is enough.
 *  - Body-only policy (http_keyword_scraper_only_body.py): only
 *    POST/PUT/PATCH bodies are inspected.
 *  - Prompt policy (llm_specific_parser/llm_http_crawler.py): only POST
 *    requests whose JSON body is an object with a `messages`, `prompt` or
 *    `inputs` key.
 */
module Interception {
  import opened Wrappers
  import opened Text
  import opened Keywords
  import opened Json

  /** The outcome of `await request.post_data()`: no body (`None`), a body, or an exception. */
  datatype PostData = NoBody | Body(text: string) | ReadFailed

  /** What the browser hands the route or request handler. */
  datatype Request = Request(
    httpMethod: string,
    url: string,
    resourceType: string,
    headers: seq<(string, string)>,
    body: PostData)

  /** A request together with the clock reading taken when it was intercepted. */
  datatype Intercepted = Intercepted(request: Request, timestamp: string)

  /** One line of a crawler's log, with exactly the fields that crawler writes. */
  datatype Record =
    | BroadRecord(timestamp: string, url: string, httpMethod: string, resourceType: string,
                  headers: map<string, string>, postData: string)
    | BodyRecord(timestamp: string, url: string, httpMethod: string,
                 headers: map<string, string>, postData: string)
    | PromptRecord(timestamp: string, url: string, httpMethod: string, page: string, body: Json)

  /** What a route handler does with one request: the record it logs, and whether it continued the request. */
  datatype Decision = Decision(record: Option<Record>, continued: bool)

  /** The records a decision adds to the log: none or one. */
  function Emitted(record: Option<Record>): (r: seq<Record>)
    ensures |r| <= 1 && (r == [] <==> record.None?)
    ensures record.Some? ==> r == [record.value]
  {
    match record
    case None => []
    case Some(rec) => [rec]
  }

  /** Header `i` has the lowered name `k`. */
  ghost predicate NamedAt(headers: seq<(string, string)>, i: int, k: string)
  {
    0 <= i < |headers| && Lower(headers[i].0) == k
  }

  /** Header `i` is the last one whose lowered name is `k`. */
  ghost predicate LastNamed(headers: seq<(string, string)>, i: int, k: string)
  {
    NamedAt(headers, i, k) && forall j :: i < j < |headers| ==> !NamedAt(headers, j, k)
  }

  /**
   * `{k.lower(): v.lower() for k, v in request.headers.items()}`, built
   * header by header so that a later header overwrites an earlier one with
   * the same lowered name. Keys and values are lower case.
   */
  function LowerHeaders(headers: seq<(string, string)>): (m: map<string, string>)
    ensures forall k :: k in m ==> IsLowerCase(k) && IsLowerCase(m[k])
  {
    if headers == [] then map[]
    else
      var last := headers[|headers| - 1];
      LowerHeaders(headers[..|headers| - 1])[Lower(last.0) := Lower(last.1)]
  }

  /** The keys of the lowered header map are exactly the lowered header names. */
  lemma {:induction false} LowerHeadersKeys(headers: seq<(string, string)>)
    ensures forall k :: k in LowerHeaders(headers) <==> exists i :: NamedAt(headers, i, k)
  {
    if headers != [] {
      var init := headers[..|headers| - 1];
      var n := |headers| - 1;
      LowerHeadersKeys(init);
      var m := LowerHeaders(headers);
      assert m.Keys == LowerHeaders(init).Keys + {Lower(headers[n].0)};
      assert NamedAt(headers, n, Lower(headers[n].0));
      forall k ensures k in m <==> exists i :: NamedAt(headers, i, k) {
        if k in LowerHeaders(init) {
          var i :| NamedAt(init, i, k);
          assert NamedAt(headers, i, k);
        }
        if exists i :: NamedAt(headers, i, k) {
          var i :| NamedAt(headers, i, k);
          if i < n {
            assert NamedAt(init, i, k);
          }
        }
      }
    }
  }

  /** Each key of the lowered header map holds the lowered value of the LAST header with that name. */
  lemma {:induction false} LowerHeadersLastWins(headers: seq<(string, string)>)
    ensures forall k :: k in LowerHeaders(headers) ==>
      exists i :: LastNamed(headers, i, k) && LowerHeaders(headers)[k] == Lower(headers[i].1)
  {
    if headers != [] {
      var init := headers[..|headers| - 1];
      var n := |headers| - 1;
      LowerHeadersLastWins(init);
      var m := LowerHeaders(headers);
      var last := Lower(headers[n].0);
      assert m == LowerHeaders(init)[last := Lower(headers[n].1)];
      assert LastNamed(headers, n, last);
      forall k | k in m
        ensures exists i :: LastNamed(headers, i, k) && m[k] == Lower(headers[i].1)
      {
        if k != last {
          var i :| LastNamed(init, i, k) && LowerHeaders(init)[k] == Lower(init[i].1);
          forall j | i < j < |headers|
            ensures !NamedAt(headers, j, k)
          {
            if j < n {
              assert headers[j] == init[j] && !NamedAt(init, j, k);
            }
          }
          assert headers[i] == init[i];
          assert LastNamed(headers, i, k);
        }
      }
    }
  }

  /** Methods whose body is read: `method in ['POST', 'PUT', 'PATCH']`. */
  predicate CarriesBody(verb: string)
  {
    verb == "POST" || verb == "PUT" || verb == "PATCH"
  }

  /**
   * `post_data` as both recursive crawlers compute it: the lowered body for
   * an upper-cased POST/PUT/PATCH, and "" for any other method, for a request
   * without a body and for a body that could not be read.
   */
  function PostText(req: Request): (s: string)
    ensures s != "" ==> CarriesBody(Upper(req.httpMethod)) && req.body.Body? && s == Lower(req.body.text)
    ensures CarriesBody(Upper(req.httpMethod)) && req.body.Body? ==> s == Lower(req.body.text)
  {
    if CarriesBody(Upper(req.httpMethod)) then
      match req.body
      case Body(text) => Lower(text)
      case NoBody => ""
      case ReadFailed => ""
    else ""
  }

  /** Some key or some value of the lowered header map contains a keyword (the test on `str(headers)`). */
  predicate HeadersMatch(keywords: seq<string>, headers: map<string, string>): (b: bool)
    ensures b <==> exists k :: k in headers && (SomeKeywordOccurs(keywords, k) || SomeKeywordOccurs(keywords, headers[k]))
  {
    exists k :: k in headers && (AnyKeyword(keywords, k) || AnyKeyword(keywords, headers[k]))
  }

  /**
   * `handle_request` of http_scraper.py. The request is always continued.
   * A record is written exactly when the request is an `xhr` or `fetch`
   * request and some keyword occurs in one of its lowered URL, its lowered
   * body text, or a lowered header name or value; the record carries the
   * lowered URL, the upper-cased method, the resource type, the lowered
   * headers and the body text.
   */
  function BroadDecision(keywords: seq<string>, req: Request, timestamp: string): (d: Decision)
    ensures d.continued
    ensures d.record.Some? <==>
      && (req.resourceType == "xhr" || req.resourceType == "fetch")
      && (|| SomeKeywordOccurs(keywords, Lower(req.url))
          || SomeKeywordOccurs(keywords, PostText(req))
          || exists k :: k in LowerHeaders(req.headers) &&
               (SomeKeywordOccurs(keywords, k) || SomeKeywordOccurs(keywords, LowerHeaders(req.headers)[k])))
    ensures d.record.Some? ==> d.record.value == BroadRecord(timestamp, Lower(req.url), Upper(req.httpMethod),
                                                              req.resourceType, LowerHeaders(req.headers), PostText(req))
  {
    var url := Lower(req.url);
    var verb := Upper(req.httpMethod);
    var headers := LowerHeaders(req.headers);
    var postData := PostText(req);
    if req.resourceType != "xhr" && req.resourceType != "fetch" then
      Decision(None, true)
    else if AnyKeyword(keywords, url) || AnyKeyword(keywords, postData) || HeadersMatch(keywords, headers) then
      Decision(Some(BroadRecord(timestamp, url, verb, req.resourceType, headers, postData)), true)
    else
      Decision(None, true)
  }

  /**
   * `handle_request` of http_keyword_scraper_only_body.py. The request is
   * always continued. A record is written exactly when the upper-cased
   * method is POST, PUT or PATCH and some keyword occurs in the body text
   * (the lowered body, or "" when there is none or it could not be read);
   * URL, headers and resource type play no part in the decision, and the
   * record has no resource type.
   */
  function BodyOnlyDecision(keywords: seq<string>, req: Request, timestamp: string): (d: Decision)
    ensures d.continued
    ensures d.record.Some? <==> CarriesBody(Upper(req.httpMethod)) && SomeKeywordOccurs(keywords, PostText(req))
    ensures d.record.Some? ==> d.record.value == BodyRecord(timestamp, Lower(req.url), Upper(req.httpMethod),
                                                            LowerHeaders(req.headers), PostText(req))
  {
    var verb := Upper(req.httpMethod);
    if CarriesBody(verb) then
      var postData := PostText(req);
      if AnyKeyword(keywords, postData) then
        Decision(Some(BodyRecord(timestamp, Lower(req.url), verb, LowerHeaders(req.headers), postData)), true)
      else
        Decision(None, true)
    else
      Decision(None, true)
  }

  /**
   * With no empty keyword, the body-only policy records only requests whose
   * body was read and contains a keyword: a missing body or a failed read
   * becomes "" and matches nothing.
   */
  lemma BodyOnlyNeedsReadBody(keywords: seq<string>, req: Request, timestamp: string)
    requires forall k :: k in keywords ==> k != ""
    ensures BodyOnlyDecision(keywords, req, timestamp).record.Some? ==>
      req.body.Body? && SomeKeywordOccurs(keywords, Lower(req.body.text))
  {
    if !req.body.Body? {
      assert PostText(req) == "";
      forall k | k in keywords
        ensures !Occurs(k, "")
      {
        OccursInEmpty(k);
      }
    }
  }

  /**
   * The two recursive crawlers read the body the same way, so whatever the
   * body-only policy records, the broad policy records as well for an
   * `xhr`/`fetch` request, with the same fields and the resource type added.
   */
  lemma BodyOnlyWithinBroad(keywords: seq<string>, req: Request, timestamp: string)
    requires req.resourceType == "xhr" || req.resourceType == "fetch"
    requires BodyOnlyDecision(keywords, req, timestamp).record.Some?
    ensures BroadDecision(keywords, req, timestamp).record.Some?
    ensures var b := BodyOnlyDecision(keywords, req, timestamp).record.value;
      BroadDecision(keywords, req, timestamp).record.value
        == BroadRecord(b.timestamp, b.url, b.httpMethod, req.resourceType, b.headers, b.postData)
  {
  }

  /** The keys that mark a JSON body as a prompt. */
  const PromptKeys: seq<string> := ["messages", "prompt", "inputs"]

  /**
   * `isinstance(data, dict) and any(k in data for k in ["messages", "prompt", "inputs"])`:
   * only an object qualifies, and it must have one of the three keys.
   */
  predicate PromptShaped(data: Json): (b: bool)
    ensures b <==> data.JObject? && exists key :: key in PromptKeys && HasKey(data.members, key)
  {
    data.JObject? && (HasKey(data.members, "messages") || HasKey(data.members, "prompt") || HasKey(data.members, "inputs"))
  }

  /**
   * `log_prompt_body(req, page_url)` of llm_http_crawler.py. A record is
   * written exactly when the body was read and is non-empty, it parses, and
   * the parsed value is an object with a `messages`, `prompt` or `inputs`
   * key; a failed read or parse writes nothing and raises nothing. The
   * record holds the timestamp with "Z" appended, the request's URL and
   * method as they are, the crawled page and the parsed object unchanged.
   */
  function PromptBody(parse: string -> Option<Json>, req: Request, timestamp: string, page: string): (r: Option<Record>)
    ensures r.Some? <==>
      && req.body.Body? && req.body.text != ""
      && parse(req.body.text).Some? && PromptShaped(parse(req.body.text).value)
    ensures r.Some? ==> r.value == PromptRecord(timestamp + "Z", req.url, req.httpMethod, page, parse(req.body.text).value)
    ensures r.Some? ==> r.value.timestamp != "" && r.value.timestamp[|r.value.timestamp| - 1] == 'Z'
  {
    match req.body
    case NoBody => None
    case ReadFailed => None
    case Body(text) =>
      if text == "" then None
      else
        match parse(text)
        case None => None
        case Some(data) =>
          if PromptShaped(data) then Some(PromptRecord(timestamp + "Z", req.url, req.httpMethod, page, data))
          else None
  }

  /**
   * The `request` listener of llm_http_crawler.py: only a request whose
   * method is exactly "POST" is handed to `log_prompt_body`; the listener
   * only observes, so nothing about the request itself changes.
   */
  function PromptDecision(parse: string -> Option<Json>, req: Request, timestamp: string, page: string): (r: Option<Record>)
    ensures r.Some? <==>
      && req.httpMethod == "POST"
      && req.body.Body? && req.body.text != ""
      && parse(req.body.text).Some? && PromptShaped(parse(req.body.text).value)
    ensures r.Some? ==> r.value == PromptRecord(timestamp + "Z", req.url, "POST", page, parse(req.body.text).value)
  {
    if req.httpMethod == "POST" then PromptBody(parse, req, timestamp, page) else None
  }

  /**
   * The request as the three handlers see it when they read the body:
   * `post_data` is a property of Playwright's request object, so
   * `await request.post_data()` calls the text (or `None`) it holds, and the
   * call raises `TypeError`, which each handler catches. Every read fails.
   */
  function ReadAsWritten(req: Request): (r: Request)
    ensures r.body.ReadFailed?
    ensures r.httpMethod == req.httpMethod && r.url == req.url
    ensures r.resourceType == req.resourceType && r.headers == req.headers
  {
    req.(body := ReadFailed)
  }

  /**
   * With every body read failing, neither body policy ever records
   * anything, and the broad policy decides on the URL and headers alone.
   */
  lemma AsWrittenBodiesNeverMatch(keywords: seq<string>, parse: string -> Option<Json>, req: Request,
                                  timestamp: string, page: string)
    requires forall k :: k in keywords ==> k != ""
    ensures PostText(ReadAsWritten(req)) == ""
    ensures BodyOnlyDecision(keywords, ReadAsWritten(req), timestamp).record.None?
    ensures PromptDecision(parse, ReadAsWritten(req), timestamp, page).None?
    ensures BroadDecision(keywords, ReadAsWritten(req), timestamp).record.Some? <==>
      && (req.resourceType == "xhr" || req.resourceType == "fetch")
      && (|| SomeKeywordOccurs(keywords, Lower(req.url))
          || exists k :: k in LowerHeaders(req.headers) &&
               (SomeKeywordOccurs(keywords, k) || SomeKeywordOccurs(keywords, LowerHeaders(req.headers)[k])))
  {
    var failed := ReadAsWritten(req);
    BodyOnlyNeedsReadBody(keywords, failed, timestamp);
    forall k | k in keywords
      ensures !Occurs(k, "")
    {
      OccursInEmpty(k);
    }
  }

  /**
   * A POST whose body names a configured keyword: recorded by the body-only
   * policy when the body is read, and not recorded when the read fails as
   * it does in the crawler as written.
   */
  lemma BodyReadLost(timestamp: string)
    ensures var req := Request("POST", "https://api.example/chat", "fetch", [], Body("claude"));
      && BodyOnlyDecision(Configured, req, timestamp).record.Some?
      && BodyOnlyDecision(Configured, ReadAsWritten(req), timestamp).record.None?
  {
    var req := Request("POST", "https://api.example/chat", "fetch", [], Body("claude"));
    assert PostText(req) == "claude";
    assert "claude" <= "claude"[0..];
    assert Occurs("claude", "claude");
    assert "claude" in Configured;
    ConfiguredMissEmpty();
    assert PostText(ReadAsWritten(req)) == "";
  }
}
