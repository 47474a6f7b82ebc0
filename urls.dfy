/**
 * URL splitting and joining as the link extractor uses them: `urlparse`
 * reduced to the five components of section 3 of RFC 3986 (scheme,
 * authority, path, query, fragment), the recomposition of section 5.3, and
 * `urljoin(base, path)` for the empty, absolute-path and relative-path
 * references of section 5.2.
 */
module Urls {
  import opened Text

  datatype UrlParts = UrlParts(scheme: string, netloc: string, path: string, query: string, fragment: string)

  /** Index of the first character of `s` that is in `stops`, or `|s|` when there is none. */
  function IndexOfAny(s: string, stops: set<char>): (i: nat)
    ensures i <= |s|
    ensures forall j :: 0 <= j < i ==> s[j] !in stops
    ensures i < |s| ==> s[i] in stops
  {
    if s == [] then 0
    else if s[0] in stops then 0
    else 1 + IndexOfAny(s[1..], stops)
  }

  /** The first stop character of `s` is the one at index `k`. */
  lemma IndexOfAnyAt(s: string, stops: set<char>, k: nat)
    requires k <= |s|
    requires forall j :: 0 <= j < k ==> s[j] !in stops
    requires k < |s| ==> s[k] in stops
    ensures IndexOfAny(s, stops) == k
  {
  }

  predicate IsAlpha(c: char) { 'a' <= c <= 'z' || 'A' <= c <= 'Z' }

  predicate IsSchemeChar(c: char) { IsAlpha(c) || '0' <= c <= '9' || c == '+' || c == '-' || c == '.' }

  /** `scheme = ALPHA *( ALPHA / DIGIT / "+" / "-" / "." )` (section 3.1 of RFC 3986). */
  predicate IsScheme(s: string)
  {
    |s| > 0 && IsAlpha(s[0]) && forall i :: 0 <= i < |s| ==> IsSchemeChar(s[i])
  }

  /** The characters that end an authority (section 3.2 of RFC 3986). */
  const AuthorityEnd: set<char> := {'/', '?', '#'}

  /** The components a split always produces: no component swallowed a delimiter that ends it. */
  predicate WellSplit(p: UrlParts)
  {
    && (p.scheme == "" || (IsScheme(p.scheme) && IsLowerCase(p.scheme)))
    && (forall i :: 0 <= i < |p.netloc| ==> p.netloc[i] !in AuthorityEnd)
    && (forall i :: 0 <= i < |p.path| ==> p.path[i] != '?' && p.path[i] != '#')
    && (forall i :: 0 <= i < |p.query| ==> p.query[i] != '#')
  }

  /** The scheme before the first ':', lowered, when it is well formed; otherwise none. */
  function SplitScheme(url: string): (r: (string, string))
    ensures r.0 == "" || (IsScheme(r.0) && IsLowerCase(r.0))
  {
    var colon := IndexOfAny(url, {':'});
    if colon < |url| && IsScheme(url[..colon]) then
      var scheme := Lower(url[..colon]);
      assert IsAlpha(scheme[0]);
      (scheme, url[colon + 1..])
    else
      ("", url)
  }

  /** The authority after "//", up to the first '/', '?' or '#'. */
  function SplitAuthority(rest: string): (r: (string, string))
    ensures forall i :: 0 <= i < |r.0| ==> r.0[i] !in AuthorityEnd
    ensures r.0 != "" ==> r.1 == "" || r.1[0] in AuthorityEnd
    ensures !("//" <= rest) ==> r == ("", rest)
  {
    if |rest| >= 2 && rest[..2] == "//" then
      var after := rest[2..];
      var e := IndexOfAny(after, AuthorityEnd);
      (after[..e], after[e..])
    else
      ("", rest)
  }

  /** `s` cut at its first `c`: what precedes it, and what follows it ("" when there is no `c`). */
  function SplitOff(s: string, c: char): (r: (string, string))
    ensures r.0 <= s
    ensures forall i :: 0 <= i < |r.0| ==> r.0[i] != c
    ensures |r.1| <= |s| && forall i :: 0 <= i < |r.1| ==> r.1[i] == s[|s| - |r.1| + i]
  {
    var k := IndexOfAny(s, {c});
    (s[..k], if k < |s| then s[k + 1..] else "")
  }

  /** Splitting of what follows the authority: `path [ "?" query ] [ "#" fragment ]`. */
  function SplitTail(rest: string): (r: (string, string, string))
    ensures r.0 <= rest
    ensures forall i :: 0 <= i < |r.0| ==> r.0[i] != '?' && r.0[i] != '#'
    ensures forall i :: 0 <= i < |r.1| ==> r.1[i] != '#'
  {
    var (beforeFragment, fragment) := SplitOff(rest, '#');
    var (path, query) := SplitOff(beforeFragment, '?');
    assert forall i :: 0 <= i < |query| ==> query[i] == beforeFragment[|beforeFragment| - |query| + i];
    (path, query, fragment)
  }

  /**
   * `urlparse(url)` restricted to its five RFC 3986 components: a scheme is
   * recognised before the first ':' only when it is well formed, and is
   * lowered; an authority follows only after "//" and runs to the first
   * '/', '?' or '#'; the fragment starts at the first '#', the query at the
   * first '?' before it.
   */
  function Split(url: string): (p: UrlParts)
    ensures WellSplit(p)
    ensures p.netloc != "" ==> p.path == "" || p.path[0] == '/'
  {
    var (scheme, rest) := SplitScheme(url);
    var (netloc, tail) := SplitAuthority(rest);
    var (path, query, fragment) := SplitTail(tail);
    assert path != "" ==> path[0] == tail[0];
    UrlParts(scheme, netloc, path, query, fragment)
  }

  /** The scheme of a split is the one `SplitScheme` finds. */
  lemma SplitKeepsScheme(url: string)
    ensures Split(url).scheme == SplitScheme(url).0
  {
  }

  /**
   * `urlsplit` raises `ValueError` ("Invalid IPv6 URL") when the authority
   * holds a '[' without a ']' or a ']' without a '['.
   */
  predicate SplitFails(url: string)
  {
    var netloc := Split(url).netloc;
    ('[' in netloc) != (']' in netloc)
  }

  /** No '?' and no '#' occurs in `s`, as in every path `urlparse` returns. */
  predicate IsPath(s: string)
  {
    forall i :: 0 <= i < |s| ==> s[i] != '?' && s[i] != '#'
  }

  /**
   * Recomposition (section 5.3 of RFC 3986): `scheme ":" "//" authority path
   * ["?" query] ["#" fragment]`, an empty query or fragment being omitted.
   */
  function Recompose(p: UrlParts): (u: string)
    ensures p.scheme <= u
  {
    p.scheme + ":" + "//" + p.netloc + p.path
      + (if p.query == "" then "" else "?" + p.query)
      + (if p.fragment == "" then "" else "#" + p.fragment)
  }

  /** The components that a recomposition keeps apart. */
  predicate Recomposable(p: UrlParts)
  {
    && WellSplit(p)
    && p.scheme != ""
    && (p.path == "" || p.path[0] == '/')
  }

  lemma SplitSchemeOf(scheme: string, rest: string)
    requires IsScheme(scheme) && IsLowerCase(scheme)
    ensures SplitScheme(scheme + ":" + rest) == (scheme, rest)
  {
    var url := scheme + ":" + rest;
    IndexOfAnyAt(url, {':'}, |scheme|);
    assert url[..|scheme|] == scheme;
    assert url[|scheme| + 1..] == rest;
    LowerOfLowerCase(scheme);
  }

  lemma SplitAuthorityOf(netloc: string, tail: string)
    requires forall i :: 0 <= i < |netloc| ==> netloc[i] !in AuthorityEnd
    requires tail == "" || tail[0] in AuthorityEnd
    ensures SplitAuthority("//" + netloc + tail) == (netloc, tail)
  {
    var rest := "//" + netloc + tail;
    assert rest[..2] == "//";
    assert rest[2..] == netloc + tail;
    IndexOfAnyAt(netloc + tail, AuthorityEnd, |netloc|);
    assert (netloc + tail)[..|netloc|] == netloc;
    assert (netloc + tail)[|netloc|..] == tail;
  }

  lemma SplitTailOf(path: string, query: string, fragment: string)
    requires forall i :: 0 <= i < |path| ==> path[i] != '?' && path[i] != '#'
    requires forall i :: 0 <= i < |query| ==> query[i] != '#'
    ensures SplitTail(path + (if query == "" then "" else "?" + query) + (if fragment == "" then "" else "#" + fragment))
      == (path, query, fragment)
  {
    var q := if query == "" then "" else "?" + query;
    var before := path + q;
    forall i | 0 <= i < |before|
      ensures before[i] != '#'
    {
      if i >= |path| {
        assert before[i] == q[i - |path|];
      }
    }
    SplitOffAt(before, fragment, '#');
    SplitOffAt(path, query, '?');
  }

  /** Cutting `before`, which holds no `c`, followed by `c` and `after` (or by nothing when `after` is empty). */
  lemma SplitOffAt(before: string, after: string, c: char)
    requires forall i :: 0 <= i < |before| ==> before[i] != c
    ensures SplitOff(before + (if after == "" then "" else [c] + after), c) == (before, after)
  {
    var s := before + (if after == "" then "" else [c] + after);
    IndexOfAnyAt(s, {c}, |before|);
    assert s[..|before|] == before;
    if after != "" {
      assert s[|before| + 1..] == after;
    }
  }

  /** Round trip: splitting a recomposed URL gives back its components. */
  lemma SplitRecompose(p: UrlParts)
    requires Recomposable(p)
    ensures Split(Recompose(p)) == p
  {
    var q := if p.query == "" then "" else "?" + p.query;
    var f := if p.fragment == "" then "" else "#" + p.fragment;
    var tail := p.path + q + f;
    assert Recompose(p) == p.scheme + ":" + ("//" + p.netloc + tail);
    SplitSchemeOf(p.scheme, "//" + p.netloc + tail);
    SplitAuthorityOf(p.netloc, tail);
    SplitTailOf(p.path, p.query, p.fragment);
  }

  /**
   * Merge of a relative path with the base path (section 5.2.3 of RFC
   * 3986): everything of the base path up to its last '/', then the
   * reference; "/" stands in for a base path without any '/'.
   */
  function Merge(basePath: string, ref: string): (r: string)
    ensures |r| >= |ref| && r[|r| - |ref|..] == ref
    ensures basePath == "" || basePath[0] == '/' ==> |r| > 0 && r[0] == '/'
  {
    var lastSlash := LastIndexOf(basePath, '/');
    if lastSlash < 0 then "/" + ref else basePath[..lastSlash + 1] + ref
  }

  /** Index of the last `c` in `s`, or -1. */
  function LastIndexOf(s: string, c: char): (i: int)
    ensures -1 <= i < |s|
    ensures i >= 0 ==> s[i] == c
    ensures forall j :: i < j < |s| ==> s[j] != c
  {
    if s == [] then -1
    else if s[|s| - 1] == c then |s| - 1
    else LastIndexOf(s[..|s| - 1], c)
  }

  /**
   * `urljoin(base, ref)` for a base with a hierarchical scheme. An empty base
   * gives the reference and an empty reference the base. A reference with a
   * scheme other than the base's is returned as it is. Otherwise the result
   * has the base's scheme and, when the reference names an authority, that
   * authority with the reference's path; without one, the base's authority
   * and either the base's path and query (for an empty path) or the
   * reference's absolute path, or its relative path merged with the base's.
   * Query and fragment are the reference's. Dot segments are kept as they are.
   */
  function Join(base: string, ref: string): (r: string)
    ensures base == "" ==> r == ref
    ensures base != "" && ref == "" ==> r == base
  {
    if base == "" then ref
    else if ref == "" then base
    else Resolve(base, ref, Split(base), Split(ref))
  }

  /** The resolution step of `urljoin`, on the components of the base `b` and of the reference `u`. */
  function Resolve(base: string, ref: string, b: UrlParts, u: UrlParts): string
  {
    if u.scheme != "" && u.scheme != b.scheme then ref
    else if u.netloc != "" then Recompose(UrlParts(b.scheme, u.netloc, u.path, u.query, u.fragment))
    else if u.path == "" then
      Recompose(UrlParts(b.scheme, b.netloc, b.path, if u.query == "" then b.query else u.query, u.fragment))
    else
      var path := if u.path[0] == '/' then u.path else Merge(b.path, u.path);
      Recompose(UrlParts(b.scheme, b.netloc, path, u.query, u.fragment))
  }

  /**
   * An absolute path without query or fragment: no scheme, the authority
   * named after a leading "//" (or none), and the path after it.
   */
  lemma SplitAbsolutePath(ref: string)
    requires ref != "" && ref[0] == '/' && IsPath(ref)
    ensures Split(ref) == UrlParts("", SplitAuthority(ref).0, SplitAuthority(ref).1, "", "")
  {
    var colon := IndexOfAny(ref, {':'});
    assert !IsAlpha(ref[0]);
    assert SplitScheme(ref) == ("", ref);
    var tail := SplitAuthority(ref).1;
    assert IsPath(tail) by {
      forall i | 0 <= i < |tail|
        ensures tail[i] != '?' && tail[i] != '#'
      {
        assert tail[i] == ref[|ref| - |tail| + i];
      }
    }
    SplitTailOf(tail, "", "");
    assert tail + "" + "" == tail;
  }

  /**
   * Where `urljoin` puts an absolute path: on the authority the path names
   * after a leading "//" when it names one, otherwise on the base's
   * authority; the first component is that authority, the second the path.
   */
  function PathTarget(baseNetloc: string, path: string): (string, string)
  {
    var (netloc, rest) := SplitAuthority(path);
    if netloc == "" then (baseNetloc, rest) else (netloc, rest)
  }

  /**
   * Joining an absolute path other than "//": the base's scheme, the
   * authority and path `PathTarget` gives, no query and no fragment.
   */
  lemma JoinAbsolutePath(base: string, ref: string)
    requires base != ""
    requires ref != "" && ref[0] == '/' && IsPath(ref) && ref != "//"
    ensures var t := PathTarget(Split(base).netloc, ref);
      Join(base, ref) == Recompose(UrlParts(Split(base).scheme, t.0, t.1, "", ""))
  {
    SplitAbsolutePath(ref);
    ResolveAbsolutePath(base, ref, Split(base));
  }

  lemma ResolveAbsolutePath(base: string, ref: string, b: UrlParts)
    requires ref != "" && ref[0] == '/' && IsPath(ref) && ref != "//"
    ensures var t := PathTarget(b.netloc, ref);
      Resolve(base, ref, b, UrlParts("", SplitAuthority(ref).0, SplitAuthority(ref).1, "", ""))
        == Recompose(UrlParts(b.scheme, t.0, t.1, "", ""))
  {
    var (netloc, rest) := SplitAuthority(ref);
    if netloc == "" {
      assert rest != "" && rest[0] == '/' by {
        if "//" <= ref {
          assert ref[..2] == "//" && |ref| > 2;
          var after := ref[2..];
          assert after != "" && after[0] in AuthorityEnd;
          assert rest == after;
          assert after[0] == ref[2];
        }
      }
    }
  }

  /** `urljoin(base, "//")` is the base without its fragment. */
  lemma JoinBareSlashes(base: string)
    requires base != ""
    ensures Join(base, "//") == Recompose(Split(base).(fragment := ""))
  {
    assert IsPath("//");
    SplitAbsolutePath("//");
    assert SplitAuthority("//") == ("", "") by {
      assert "//"[..2] == "//" && "//"[2..] == "";
    }
    ResolveBareSlashes(base, Split(base));
  }

  lemma ResolveBareSlashes(base: string, b: UrlParts)
    ensures Resolve(base, "//", b, UrlParts("", "", "", "", "")) == Recompose(b.(fragment := ""))
  {
  }

  /** Joining an absolute path that does not start with "//" puts it right after the base's origin. */
  lemma JoinOnOrigin(base: string, ref: string)
    requires base != ""
    requires ref != "" && ref[0] == '/' && IsPath(ref) && !("//" <= ref)
    ensures Join(base, ref) == Split(base).scheme + ":" + "//" + Split(base).netloc + ref
  {
    var b := Split(base);
    JoinAbsolutePath(base, ref);
    assert PathTarget(b.netloc, ref) == (b.netloc, ref);
    RecomposeOrigin(b.scheme, b.netloc, ref);
  }

  /** Without query and fragment, a recomposition is the origin followed by the path. */
  lemma RecomposeOrigin(scheme: string, netloc: string, path: string)
    ensures Recompose(UrlParts(scheme, netloc, path, "", "")) == scheme + ":" + "//" + netloc + path
  {
    var u := scheme + ":" + "//" + netloc + path;
    assert u + "" + "" == u;
  }

  /**
   * `urljoin(base, urlparse(link).path or '').rstrip('/')`: the link's path
   * joined to the base, with every trailing '/' removed.
   */
  function CleanLink(base: string, link: string): (r: string)
    ensures r == "" || r[|r| - 1] != '/'
  {
    RStripSlash(Join(base, Split(link).path))
  }

  /** The authority and path `PathTarget` gives for a link's absolute path are well formed. */
  lemma PathTargetShape(baseNetloc: string, path: string)
    requires baseNetloc != "" && forall i :: 0 <= i < |baseNetloc| ==> baseNetloc[i] !in AuthorityEnd
    requires path != "" && path[0] == '/' && IsPath(path) && path != "//"
    ensures var t := PathTarget(baseNetloc, path);
      && t.0 != "" && (forall i :: 0 <= i < |t.0| ==> t.0[i] !in AuthorityEnd)
      && IsPath(t.1) && (t.1 == "" || t.1[0] == '/')
  {
    var (netloc, rest) := SplitAuthority(path);
    forall i | 0 <= i < |rest|
      ensures rest[i] != '?' && rest[i] != '#'
    {
      assert rest[i] == path[|path| - |rest| + i];
    }
    if netloc == "" && "//" <= path {
      assert path[..2] == "//" && |path| > 2;
      assert rest == path[2..];
      assert rest[0] == path[2];
    }
  }

  /**
   * A recomposed URL with a non-empty authority, an absolute or empty path
   * and no query or fragment, stripped of trailing '/', splits into the
   * same scheme and authority and the stripped path.
   */
  lemma StripSplit(scheme: string, netloc: string, path: string)
    requires IsScheme(scheme) && IsLowerCase(scheme)
    requires netloc != "" && forall i :: 0 <= i < |netloc| ==> netloc[i] !in AuthorityEnd
    requires IsPath(path) && (path == "" || path[0] == '/')
    ensures Split(RStripSlash(Recompose(UrlParts(scheme, netloc, path, "", ""))))
      == UrlParts(scheme, netloc, RStripSlash(path), "", "")
  {
    var p := UrlParts(scheme, netloc, path, "", "");
    assert netloc[|netloc| - 1] !in AuthorityEnd;
    if path == "" {
      assert Recompose(p) == scheme + ":" + "//" + netloc;
      RStripSlashIdentity(Recompose(p));
    } else {
      StripRecompose(scheme, netloc, path);
    }
    StripRecomposable(p);
    SplitRecompose(p.(path := RStripSlash(path)));
  }

  /**
   * A link with an authority and a path other than "//", cleaned against a
   * base with a scheme and an authority, splits into the BASE's scheme, the
   * authority the path names after a leading "//" or else the BASE's
   * authority (whatever host, query or fragment the link itself had), the
   * path without trailing '/', and no query and no fragment.
   */
  lemma CleanLinkParts(base: string, link: string)
    requires Split(base).scheme != "" && Split(base).netloc != ""
    requires Split(link).netloc != "" && Split(link).path != "" && Split(link).path != "//"
    ensures var t := PathTarget(Split(base).netloc, Split(link).path);
      Split(CleanLink(base, link)) == UrlParts(Split(base).scheme, t.0, RStripSlash(t.1), "", "")
  {
    var b := Split(base);
    var path := Split(link).path;
    var t := PathTarget(b.netloc, path);
    JoinAbsolutePath(base, path);
    PathTargetShape(b.netloc, path);
    StripSplit(b.scheme, t.0, t.1);
  }

  /**
   * Cleaning that keeps the link on its own host: the link's scheme,
   * authority and path, without query and fragment, trailing '/' removed.
   */
  function CleanOnOwnHost(link: string): (r: string)
    ensures r == "" || r[|r| - 1] != '/'
  {
    var p := Split(link);
    RStripSlash(Recompose(UrlParts(p.scheme, p.netloc, p.path, "", "")))
  }

  /**
   * A link with a scheme and an authority, cleaned on its own host, splits
   * into its own scheme and authority, its path without trailing '/', and
   * no query and no fragment.
   */
  lemma CleanOnOwnHostParts(link: string)
    requires Split(link).scheme != "" && Split(link).netloc != ""
    ensures Split(CleanOnOwnHost(link)) == UrlParts(Split(link).scheme, Split(link).netloc, RStripSlash(Split(link).path), "", "")
  {
    var p := Split(link);
    StripSplit(p.scheme, p.netloc, p.path);
  }

  /**
   * Stripping trailing '/' from a recomposed URL with an absolute path and
   * no query or fragment strips them from its path alone.
   */
  lemma StripRecompose(scheme: string, netloc: string, path: string)
    requires netloc != "" && netloc[|netloc| - 1] != '/'
    requires path != "" && path[0] == '/'
    ensures RStripSlash(Recompose(UrlParts(scheme, netloc, path, "", "")))
      == Recompose(UrlParts(scheme, netloc, RStripSlash(path), "", ""))
  {
    var origin := scheme + ":" + "//" + netloc;
    assert Recompose(UrlParts(scheme, netloc, path, "", "")) == origin + path;
    assert origin[|origin| - 1] == netloc[|netloc| - 1];
    StripOnOrigin(origin, path);
  }

  /** Stripping trailing '/' from the path keeps the components recomposable. */
  lemma StripRecomposable(p: UrlParts)
    requires Recomposable(p)
    ensures Recomposable(p.(path := RStripSlash(p.path)))
  {
    var stripped := RStripSlash(p.path);
    assert forall i :: 0 <= i < |stripped| ==> stripped[i] == p.path[i];
    if stripped != "" {
      assert stripped[0] == p.path[0];
    }
  }

  /** Trailing slashes of an absolute path stripped after an origin come off the path alone. */
  lemma StripOnOrigin(origin: string, path: string)
    requires origin != "" && origin[|origin| - 1] != '/'
    requires path != "" && path[0] == '/'
    ensures RStripSlash(origin + path) == origin + RStripSlash(path)
    ensures RStripSlash(path) == "" || RStripSlash(path)[0] == '/'
  {
    RStripSlashAppend(origin, path);
    if RStripSlash(path) == "" {
      RStripSlashIdentity(origin);
    }
  }

  /**
   * Links whose paths do not start with "//" and differ only in trailing
   * slashes clean to the same string, whatever their host, query or
   * fragment, so the visited set holds them once.
   */
  lemma CleanLinkCollapses(base: string, link1: string, link2: string)
    requires base != ""
    requires Split(link1).path != "" && Split(link1).path[0] == '/' && !("//" <= Split(link1).path)
    requires Split(link2).path != "" && Split(link2).path[0] == '/' && !("//" <= Split(link2).path)
    requires RStripSlash(Split(link1).path) == RStripSlash(Split(link2).path)
    ensures CleanLink(base, link1) == CleanLink(base, link2)
  {
    JoinedPathsCollapse(base, Split(link1).path, Split(link2).path);
  }

  lemma JoinedPathsCollapse(base: string, p1: string, p2: string)
    requires base != ""
    requires p1 != "" && p1[0] == '/' && IsPath(p1) && !("//" <= p1)
    requires p2 != "" && p2[0] == '/' && IsPath(p2) && !("//" <= p2)
    requires RStripSlash(p1) == RStripSlash(p2)
    ensures RStripSlash(Join(base, p1)) == RStripSlash(Join(base, p2))
  {
    var origin := Split(base).scheme + ":" + "//" + Split(base).netloc;
    JoinOnOrigin(base, p1);
    JoinOnOrigin(base, p2);
    RStripSlashAppend(origin, p1);
    RStripSlashAppend(origin, p2);
  }
}
