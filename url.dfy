/**
 * The URL resolver of `src/url.rs`: an endpoint string split into scheme,
 * domain and path, and the ways a path or a server href is joined onto it.
 *
 * The endpoint is split into the maximal runs of characters other than '/',
 * empty runs dropped. That is how a Unix `PathBuf` iterates the normal
 * components of a relative path; the root component "/" that `PathBuf`
 * yields first for a text starting with '/' is not modelled, so a rooted
 * endpoint such as "/dav" is split as "dav" would be.
 */
module Url {
  import opened Wrappers

  /** One path component: non-empty and free of '/'. */
  predicate IsSegment(x: string) {
    x != [] && '/' !in x
  }

  /** Rust's `str::starts_with` with a string pattern. */
  predicate StartsWith(s: string, prefix: string) {
    |prefix| <= |s| && s[..|prefix|] == prefix
  }

  /** Number of leading characters of `s` before the first '/'. */
  function SegmentLength(s: string): (n: nat)
    ensures n <= |s|
    ensures forall i :: 0 <= i < n ==> s[i] != '/'
    ensures n < |s| ==> s[n] == '/'
    decreases |s|
  {
    if s == [] || s[0] == '/' then 0 else 1 + SegmentLength(s[1..])
  }

  /** The components a `PathBuf` built from `s` yields, in order. */
  function Segments(s: string): (segs: seq<string>)
    ensures forall i :: 0 <= i < |segs| ==> IsSegment(segs[i])
    decreases |s|
  {
    if s == [] then []
    else if s[0] == '/' then Segments(s[1..])
    else
      var n := SegmentLength(s);
      assert forall c :: c in s[..n] ==> c != '/';
      [s[..n]] + Segments(s[n..])
  }

  /** `PathBuf::push` of a relative component. */
  function Push(p: string, seg: string): string {
    if p != [] && p[|p| - 1] == '/' then p + seg else p + "/" + seg
  }

  /** `PathBuf::from("/")` extended by `segs`, one `push` per component. */
  function PathOf(segs: seq<string>): (p: string)
    ensures |p| > 0 && p[0] == '/'
    decreases |segs|
  {
    if segs == [] then "/" else Push(PathOf(segs[..|segs| - 1]), segs[|segs| - 1])
  }

  /** A parsed endpoint: `scheme` ends in "//", `path` starts with '/'. */
  datatype WebDavUrl = WebDavUrl(scheme: string, domain: string, path: string)

  /** The two panics of `parse_url`, as values. */
  datatype UrlError =
    | InvalidUrl(url: string)        // no component at all
    | MissingDomain(url: string)     // "http:" or "https:" with nothing after it

  /** What `WebDavUrl::new(url)` yields. */
  function Parse(url: string): Result<WebDavUrl, UrlError> {
    var segs := Segments(url);
    if segs == [] then Failure(InvalidUrl(url))
    else if segs[0] == "http:" || segs[0] == "https:" then
      if |segs| < 2 then Failure(MissingDomain(url))
      else Success(WebDavUrl(segs[0] + "//", segs[1], PathOf(segs[2..])))
    else Success(WebDavUrl("https://", segs[0], PathOf(segs[1..])))
  }

  /**
   * `parse_url` as the source runs it: take the first component, decide the
   * scheme, take the domain, then push every remaining component onto "/".
   */
  method ParseUrl(url: string) returns (r: Result<WebDavUrl, UrlError>)
    ensures r == Parse(url)
  {
    var segs := Segments(url);
    if |segs| == 0 {
      return Failure(InvalidUrl(url));
    }
    var first := segs[0];
    var next := 1;
    var scheme: string;
    var domain := "";
    if first == "http:" || first == "https:" {
      scheme := first + "//";
      if next >= |segs| {
        return Failure(MissingDomain(url));
      }
      domain := domain + segs[next];
      assert domain == segs[1];
      next := next + 1;
    } else {
      scheme := "https://";
      domain := domain + first;
      assert domain == segs[0];
    }
    var start := next;
    var path := "/";
    while next < |segs|
      invariant start <= next <= |segs|
      invariant path == PathOf(segs[start..next])
    {
      PathOfStep(segs, start, next);
      path := Push(path, segs[next]);
      next := next + 1;
    }
    assert segs[start..next] == segs[start..];
    r := Success(WebDavUrl(scheme, domain, path));
  }

  lemma PathOfStep(segs: seq<string>, start: nat, next: nat)
    requires start <= next < |segs|
    ensures PathOf(segs[start..next + 1]) == Push(PathOf(segs[start..next]), segs[next])
  {
    assert segs[start..next + 1][..next - start] == segs[start..next];
  }

  /** `impl Display for WebDavUrl`. */
  function Display(u: WebDavUrl): string {
    u.scheme + u.domain + u.path
  }

  /** `WebDavUrl::join`: a copy of `u` whose path has `p` appended, with a '/' between unless `p` is rooted. */
  function Join(u: WebDavUrl, p: string): WebDavUrl {
    if StartsWith(p, "/") then u.(path := u.path + p) else u.(path := u.path + "/" + p)
  }

  /** `WebDavUrl::smart_merge`. */
  function SmartMerge(u: WebDavUrl, path: string): string {
    if StartsWith(path, "/") then
      if StartsWith(path, u.path) then u.scheme + u.domain + path
      else u.scheme + u.domain + u.path + path
    else path
  }

  /** `WebDavUrl::url_join`: the three-way merge of a server href onto the endpoint. */
  function UrlJoin(u: WebDavUrl, url: string): string {
    if StartsWith(url, "/") then
      if StartsWith(url, u.path) then u.scheme + u.domain + url
      else u.scheme + u.domain + u.path + url
    else url
  }

  // ---------------------------------------------------------------------------
  // Segmentation lemmas

  lemma {:induction false} SegmentLengthAppend(a: string, x: string)
    requires x != [] && x[0] == '/'
    ensures SegmentLength(a + x) == SegmentLength(a)
    decreases |a|
  {
    if a == [] {
    } else if a[0] == '/' {
    } else {
      assert (a + x)[1..] == a[1..] + x;
      SegmentLengthAppend(a[1..], x);
    }
  }

  /** A '/' between two strings separates their components. */
  lemma {:induction false} SegmentsAppend(a: string, b: string)
    ensures Segments(a + "/" + b) == Segments(a) + Segments(b)
    decreases |a|
  {
    var s := a + "/" + b;
    if a == [] {
      assert s == "/" + b;
      assert s[1..] == b;
    } else if a[0] == '/' {
      assert s[1..] == a[1..] + "/" + b;
      SegmentsAppend(a[1..], b);
    } else {
      assert s == a + ("/" + b);
      SegmentLengthAppend(a, "/" + b);
      var n := SegmentLength(a);
      assert s[..n] == a[..n];
      assert s[n..] == a[n..] + "/" + b;
      assert Segments(s) == [a[..n]] + Segments(s[n..]);
      assert Segments(a) == [a[..n]] + Segments(a[n..]);
      SegmentsAppend(a[n..], b);
    }
  }

  lemma SegmentsOfSegment(x: string)
    requires IsSegment(x)
    ensures Segments(x) == [x]
  {
    var n := SegmentLength(x);
    assert forall i :: 0 <= i < |x| ==> x[i] != '/' by {
      forall i | 0 <= i < |x| ensures x[i] != '/' {
        assert x[i] in x;
      }
    }
    assert x[..n] == x;
    assert x[n..] == [];
  }

  lemma SegmentsRooted(p: string)
    requires p != [] && p[0] == '/'
    ensures Segments(p) == Segments(p[1..])
  {
  }

  /** A path with at least one component pushed ends with that component's last character, never '/'. */
  lemma PathOfEnd(segs: seq<string>)
    requires segs != [] && IsSegment(segs[|segs| - 1])
    ensures PathOf(segs)[|PathOf(segs)| - 1] != '/'
  {
    var last := segs[|segs| - 1];
    var p := PathOf(segs[..|segs| - 1]);
    assert PathOf(segs) == Push(p, last);
    assert last[|last| - 1] in last;
  }

  /** Pushing components onto "/" gives back exactly those components. */
  lemma {:induction false} SegmentsOfPath(segs: seq<string>)
    requires forall i :: 0 <= i < |segs| ==> IsSegment(segs[i])
    ensures Segments(PathOf(segs)) == segs
    decreases |segs|
  {
    if segs == [] {
      SegmentsRooted("/");
      assert "/"[1..] == [];
    } else {
      var init, last := segs[..|segs| - 1], segs[|segs| - 1];
      assert segs == init + [last];
      SegmentsOfPath(init);
      SegmentsOfSegment(last);
      if init == [] {
        PathOfPush(init, last);
        assert PathOf(segs) == "/" + last;
        SegmentsRooted("/" + last);
        assert ("/" + last)[1..] == last;
      } else {
        PathOfSnoc(init, last);
        SegmentsAppend(PathOf(init), last);
      }
    }
  }

  // ---------------------------------------------------------------------------
  // Properties of parsing

  /** A recognised scheme keeps its first component and takes the next as the domain. */
  lemma ParseWithScheme(url: string)
    requires var segs := Segments(url); |segs| >= 2 && (segs[0] == "http:" || segs[0] == "https:")
    ensures Parse(url).Success?
    ensures Parse(url).value.scheme == Segments(url)[0] + "//"
    ensures Parse(url).value.domain == Segments(url)[1]
    ensures Segments(Parse(url).value.path) == Segments(url)[2..]
  {
    SegmentsOfPath(Segments(url)[2..]);
  }

  /** Without a recognised scheme the scheme is "https://" and the first component is the domain. */
  lemma ParseWithoutScheme(url: string)
    requires var segs := Segments(url); |segs| >= 1 && segs[0] != "http:" && segs[0] != "https:"
    ensures Parse(url).Success?
    ensures Parse(url).value.scheme == "https://"
    ensures Parse(url).value.domain == Segments(url)[0]
    ensures Segments(Parse(url).value.path) == Segments(url)[1..]
  {
    SegmentsOfPath(Segments(url)[1..]);
  }

  /** Parsing fails exactly when there is no component, or a scheme has no domain after it. */
  lemma ParseFails(url: string)
    ensures Parse(url).Failure? <==>
      (Segments(url) == [] ||
       (|Segments(url)| == 1 && (Segments(url)[0] == "http:" || Segments(url)[0] == "https:")))
    ensures Segments(url) == [] ==> Parse(url) == Failure(InvalidUrl(url))
  {
  }

  /** Every parsed endpoint has a scheme ending in "://" and a rooted path. */
  lemma ParsedShape(url: string)
    requires Parse(url).Success?
    ensures var u := Parse(url).value;
      |u.scheme| >= 3 && u.scheme[|u.scheme| - 3..] == "://" &&
      |u.path| > 0 && u.path[0] == '/' && IsSegment(u.domain)
  {
  }

  /** A component followed by a rooted rest splits off as the first component. */
  lemma SegmentsLead(x: string, rest: string)
    requires IsSegment(x) && rest != [] && rest[0] == '/'
    ensures Segments(x + rest) == [x] + Segments(rest)
  {
    SegmentLengthAppend(x, rest);
    var n := SegmentLength(x);
    assert (x + rest)[..n] == x;
    assert (x + rest)[n..] == rest;
  }

  /** The text of a displayed endpoint, regrouped around its separators. */
  lemma DisplayedShape(first: string, domain: string, p: string)
    ensures first + "//" + domain + p == first + ("/" + ("/" + (domain + p)))
  {
  }

  /** The components of a displayed endpoint: the scheme's, the domain, then the path's. */
  lemma SegmentsOfDisplayed(first: string, domain: string, p: string)
    requires IsSegment(first) && IsSegment(domain) && p != [] && p[0] == '/'
    ensures Segments(first + "//" + domain + p) == [first, domain] + Segments(p)
  {
    var r3 := domain + p;
    var r2 := "/" + r3;
    var r1 := "/" + r2;
    DisplayedShape(first, domain, p);
    SegmentsLead(first, r1);
    SegmentsRooted(r1);
    assert r1[1..] == r2;
    SegmentsRooted(r2);
    assert r2[1..] == r3;
    SegmentsLead(domain, p);
  }

  /** Displaying a parsed endpoint and parsing the text again gives the same endpoint. */
  lemma ParseDisplay(url: string)
    requires Parse(url).Success?
    ensures Parse(Display(Parse(url).value)) == Parse(url)
  {
    var segs := Segments(url);
    var u := Parse(url).value;
    var rest := if segs[0] == "http:" || segs[0] == "https:" then segs[2..] else segs[1..];
    var first := if segs[0] == "http:" || segs[0] == "https:" then segs[0] else "https:";
    assert IsSegment("https:") by {
      assert forall i :: 0 <= i < |"https:"| ==> "https:"[i] != '/';
    }
    assert u == WebDavUrl(first + "//", u.domain, PathOf(rest));
    SegmentsOfPath(rest);
    SegmentsOfDisplayed(first, u.domain, u.path);
    assert Display(u) == first + "//" + u.domain + u.path;
    assert Segments(Display(u)) == [first, u.domain] + rest;
  }

  // ---------------------------------------------------------------------------
  // Properties of join and url_join

  /** `join` never fails, keeps scheme and domain, and appends the components of `p` to the path. */
  lemma JoinAppendsSegments(u: WebDavUrl, p: string)
    ensures Join(u, p).scheme == u.scheme && Join(u, p).domain == u.domain
    ensures StartsWith(u.path, "/") ==> StartsWith(Join(u, p).path, "/")
    ensures Segments(Join(u, p).path) == Segments(u.path) + Segments(p)
  {
    if StartsWith(p, "/") {
      assert p == "/" + p[1..];
      assert u.path + p == u.path + "/" + p[1..];
      SegmentsAppend(u.path, p[1..]);
      SegmentsRooted(p);
    } else {
      SegmentsAppend(u.path, p);
    }
  }

  /** A rooted and a relative suffix naming the same component join to the same endpoint. */
  lemma JoinRootedSameAsRelative(u: WebDavUrl, p: string)
    requires !StartsWith(p, "/")
    ensures Join(u, "/" + p) == Join(u, p)
  {
    assert StartsWith("/" + p, "/");
    assert u.path + ("/" + p) == u.path + "/" + p;
  }

  lemma PathOfPush(rest: seq<string>, seg: string)
    ensures PathOf(rest + [seg]) == Push(PathOf(rest), seg)
  {
    assert (rest + [seg])[..|rest|] == rest;
  }

  /** `PathOf` of one more component is the old path with "/" and the component appended. */
  lemma PathOfSnoc(rest: seq<string>, seg: string)
    requires rest != [] && IsSegment(rest[|rest| - 1])
    ensures PathOf(rest + [seg]) == PathOf(rest) + "/" + seg
  {
    PathOfPush(rest, seg);
    PathOfEnd(rest);
  }

  /** On an endpoint whose path is the bare root, `join` doubles the slash: "/" joined with "x" is "//x". */
  lemma JoinOntoRootPath(u: WebDavUrl, p: string)
    requires u.path == "/" && !StartsWith(p, "/")
    ensures Join(u, p).path == "//" + p
  {
  }

  /** Joining a component onto a parsed endpoint equals parsing the endpoint text with that component added. */
  lemma JoinMatchesParse(url: string, seg: string)
    requires Parse(url).Success? && IsSegment(seg) && Parse(url).value.path != "/"
    ensures Parse(url + "/" + seg).Success?
    ensures Join(Parse(url).value, seg) == Parse(url + "/" + seg).value
    ensures Join(Parse(url).value, "/" + seg) == Parse(url + "/" + seg).value
  {
    var segs := Segments(url);
    var segs' := Segments(url + "/" + seg);
    assert segs' == segs + [seg] by {
      SegmentsAppend(url, seg);
      SegmentsOfSegment(seg);
    }
    var u := Parse(url).value;
    var k := if segs[0] == "http:" || segs[0] == "https:" then 2 else 1;
    assert segs'[..k] == segs[..k];
    var rest := segs[k..];
    assert segs'[k..] == rest + [seg];
    assert u.path == PathOf(rest);
    PathOfSnoc(rest, seg);
    assert Parse(url + "/" + seg) == Success(u.(path := u.path + "/" + seg));
    assert !StartsWith(seg, "/") by {
      assert seg[0] in seg;
    }
    JoinRootedSameAsRelative(u, seg);
  }

  lemma DocSegments()
    ensures IsSegment("https:") && IsSegment("example.com") && IsSegment("dav")
  {
    assert forall i :: 0 <= i < |"https:"| ==> "https:"[i] != '/';
    assert forall i :: 0 <= i < |"example.com"| ==> "example.com"[i] != '/';
    assert forall i :: 0 <= i < |"dav"| ==> "dav"[i] != '/';
  }

  lemma DocEndpointSegments(a: string)
    requires a == "https:" + "//" + "example.com" + "/dav"
    ensures Segments(a) == ["https:", "example.com", "dav"]
  {
    DocSegments();
    assert PathOf(["dav"]) == "/dav";
    SegmentsOfPath(["dav"]);
    SegmentsOfDisplayed("https:", "example.com", "/dav");
  }

  /** The endpoint "https://example.com/dav" of the `join` documentation, written by its parts, parses into them. */
  lemma ParseDocEndpoint(a: string)
    requires a == "https:" + "//" + "example.com" + "/dav"
    ensures Parse(a) == Success(WebDavUrl("https://", "example.com", "/dav"))
  {
    DocEndpointSegments(a);
    var segs := Segments(a);
    assert segs[2..] == ["dav"];
    assert PathOf(["dav"]) == "/dav";
    assert "https:" + "//" == "https://";
  }

  /** The example of the `join` documentation: "https://example.com/dav" joined with "dav" or "/dav". */
  lemma JoinDocExample(a: string)
    requires a == "https:" + "//" + "example.com" + "/dav"
    ensures Parse(a).Success?
    ensures Join(Parse(a).value, "dav") == WebDavUrl("https://", "example.com", "/dav/dav")
    ensures Join(Parse(a).value, "/dav") == WebDavUrl("https://", "example.com", "/dav/dav")
  {
    ParseDocEndpoint(a);
    assert "dav"[..1] != "/";
    assert "/dav"[..1] == "/";
    assert "/dav" + "/" + "dav" == "/dav/dav";
    assert "/dav" + "/dav" == "/dav/dav";
  }

  /** `smart_merge` and `url_join` agree on every input. */
  lemma SmartMergeIsUrlJoin(u: WebDavUrl, p: string)
    ensures SmartMerge(u, p) == UrlJoin(u, p)
  {
  }

  /**
   * `url_join` of a rooted href is the display of an endpoint: with the href
   * as its path when the href has the endpoint path as a raw prefix, else
   * of the endpoint joined with the href. A non-rooted href comes back as it is.
   */
  lemma UrlJoinAsDisplay(u: WebDavUrl, url: string)
    ensures !StartsWith(url, "/") ==> UrlJoin(u, url) == url
    ensures StartsWith(url, "/") && StartsWith(url, u.path) ==> UrlJoin(u, url) == Display(u.(path := url))
    ensures StartsWith(url, "/") && !StartsWith(url, u.path) ==> UrlJoin(u, url) == Display(Join(u, url))
  {
  }

  /** The result of `url_join` of a rooted href starts with scheme and domain and ends with the href. */
  lemma UrlJoinKeepsHref(u: WebDavUrl, url: string)
    requires StartsWith(url, "/")
    ensures StartsWith(UrlJoin(u, url), u.scheme + u.domain)
    ensures |url| <= |UrlJoin(u, url)| && UrlJoin(u, url)[|UrlJoin(u, url)| - |url|..] == url
  {
    var r := UrlJoin(u, url);
    if StartsWith(url, u.path) {
      assert r == (u.scheme + u.domain) + url;
    } else {
      assert r == (u.scheme + u.domain) + (u.path + url);
    }
  }

  /** Merging an href that `url_join` already merged changes nothing, for a parsed endpoint. */
  lemma UrlJoinIdempotent(endpoint: string, url: string)
    requires Parse(endpoint).Success?
    ensures UrlJoin(Parse(endpoint).value, UrlJoin(Parse(endpoint).value, url)) == UrlJoin(Parse(endpoint).value, url)
  {
    var u := Parse(endpoint).value;
    var r := UrlJoin(u, url);
    if StartsWith(url, "/") {
      assert r[0] == u.scheme[0];
      assert u.scheme[0] != '/' by {
        assert IsSegment(Segments(endpoint)[0]);
        assert Segments(endpoint)[0][0] in Segments(endpoint)[0];
      }
    }
  }

  /**
   * The prefix test is on raw characters: below the endpoint path "/dav",
   * "/davx/f" counts as lying under it and is not prefixed again, while
   * "/other" gets the endpoint path in front.
   */
  lemma UrlJoinRawPrefix(u: WebDavUrl, under: string, other: string)
    requires u == WebDavUrl("https://", "example.com", "/dav")
    requires under == "/davx/f" && other == "/other"
    ensures UrlJoin(u, under) == u.scheme + u.domain + under
    ensures UrlJoin(u, other) == u.scheme + u.domain + u.path + other
  {
    assert under[..1] == "/" && under[..4] == u.path;
    assert other[..1] == "/";
    assert other[..4] != u.path by {
      assert other[..4][1] == 'o' && u.path[1] == 'd';
    }
  }
}
