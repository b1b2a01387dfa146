/**
 * `src/client.rs`: the older client. Its builder keeps the method as text,
 * resolves a rooted url against the client's endpoint by concatenation, and
 * always authenticates, with the per-call credential or else the client's.
 */
module LegacyClient {
  import opened Wrappers
  import opened Bytes
  import opened Url
  import opened Method
  import opened Http
  import opened Multistatus
  import Parse

  /** `str::to_uppercase` on ASCII letters; every other character is kept. */
  function AsciiUppercase(s: string): (u: string)
    ensures |u| == |s|
    ensures forall i :: 0 <= i < |s| ==> if 'a' <= s[i] <= 'z' then u[i] as int == s[i] as int - 32 else u[i] == s[i]
    ensures forall i :: 0 <= i < |u| ==> !('a' <= u[i] <= 'z')
  {
    seq(|s|, i requires 0 <= i < |s| => if 'a' <= s[i] <= 'z' then (s[i] as int - 32) as char else s[i])
  }

  /** Upper-casing twice changes nothing more. */
  lemma UppercaseIdempotent(s: string)
    ensures AsciiUppercase(AsciiUppercase(s)) == AsciiUppercase(s)
  {
  }

  /** The message `send` panics with when the method text is not a method. */
  const MethodPanic: string := "Error Method"

  /** `WebDAVClient`: the endpoint and the default credential. */
  class WebDAVClient {
    var webdavUrl: string
    var username: string
    var password: string

    /** `WebDAVClient::new`. */
    constructor (webdavUrl: string, username: string, password: string)
      ensures this.webdavUrl == webdavUrl && this.username == username && this.password == password
    {
      this.webdavUrl := webdavUrl;
      this.username := username;
      this.password := password;
    }

    /** `basic_auth`: replaces the credential; the endpoint is kept. */
    method BasicAuth(username: string, password: string)
      modifies this
      ensures this.username == username && this.password == password && webdavUrl == old(webdavUrl)
    {
      this.username := username;
      this.password := password;
    }

    /** `webdav_url`: replaces the endpoint; the credential is kept. */
    method WebdavUrl(url: string)
      modifies this
      ensures webdavUrl == url && username == old(username) && password == old(password)
    {
      webdavUrl := url;
    }

    /** Where `get` and `send` send a url: a rooted one is appended to the endpoint, any other is used as is. */
    function Target(url: string): (t: string)
      reads this
      ensures StartsWith(url, "/") ==> t == webdavUrl + url
      ensures !StartsWith(url, "/") ==> t == url
    {
      if StartsWith(url, "/") then webdavUrl + url else url
    }

    /** The client's own credential as an `authorization` value. */
    function Credential(): HeaderValue
      reads this
    {
      Basic(username, password)
    }

    /** `get`: a GET of the target, authenticated with the client's credential. */
    method Get(url: string) returns (r: Request)
      ensures r.verb.name == "GET" && r.url == Target(url) && r.body.None?
      ensures r.headers == map[Authorization := [Basic(username, password)]]
    {
      r := Request(Convert(Method.Get), Target(url), Append(map[], Authorization, Credential()), None);
    }

    /**
     * `all_propfind`: a PROPFIND of `url` under the endpoint, joined with a
     * '/' unless the endpoint is empty, authenticated, with an XML content
     * type and the allprop body.
     */
    method AllPropfind(url: string) returns (r: Request)
      ensures r.verb.name == "PROPFIND" && r.body == Some(AllDrop)
      ensures webdavUrl == "" ==> r.url == url
      ensures webdavUrl != "" ==> r.url == webdavUrl + "/" + url
      ensures r.headers == map[Authorization := [Basic(username, password)], ContentType := [ApplicationXml]]
      ensures "depth" !in r.headers
    {
      var target := if webdavUrl == "" then url else webdavUrl + "/" + url;
      var h := Append(map[], Authorization, Credential());
      h := Append(h, ContentType, ApplicationXml);
      r := Request(Convert(Propfind), target, h, Some(AllDrop));
    }
  }

  /**
   * `list_dir` once the PROPFIND has been sent: a transport failure or a
   * non-success status is an error, otherwise the text is decoded (by
   * `decode`, standing for the XML decoder) into a file tree.
   */
  function ListDir(sent: Result<Response, string>, decode: string -> Result<MultiStatus, string>)
    : (r: Result<Parse.FileTree, Error>)
    ensures sent.Failure? ==> r == Failure(RequestError(sent.error))
    ensures sent.Success? && !IsSuccess(sent.value.status) ==> r == Failure(ResponseError(sent.value.status))
    ensures r.Success? <==> (sent.Success? && IsSuccess(sent.value.status) && sent.value.text.Success? &&
      decode(sent.value.text.value).Success?)
    ensures r.Success? ==> r.value == Parse.FromMultistatus(decode(sent.value.text.value).value)
  {
    match sent
    case Failure(e) => Failure(RequestError(e))
    case Success(response) =>
      if !IsSuccess(response.status) then Failure(ResponseError(response.status))
      else match response.text
        case Failure(e) => Failure(RequestError(e))
        case Success(xml) =>
          match decode(xml)
          case Failure(e) => Failure(DeError(e))
          case Success(ms) => Success(Parse.FromMultistatus(ms))
  }

  /** `WebDAVRequestBuilder`: a borrowed client and the request being put together. */
  class RequestBuilder {
    const client: WebDAVClient
    var basicAuth: Option<(string, string)>
    var url: string
    var headers: HeaderMap
    var body: Option<string>
    var verb: string

    /** `WebDAVRequestBuilder::new`: empty url and method, no header, body or credential. */
    constructor (client: WebDAVClient)
      ensures this.client == client && url == "" && verb == ""
      ensures basicAuth.None? && headers == map[] && body.None?
    {
      this.client := client;
      basicAuth := None;
      url := "";
      headers := map[];
      body := None;
      verb := "";
    }

    /** `basic_auth`: sets the per-call credential. */
    method BasicAuth(username: string, password: string)
      modifies this
      ensures basicAuth == Some((username, password))
      ensures url == old(url) && headers == old(headers) && body == old(body) && verb == old(verb)
    {
      basicAuth := Some((username, password));
    }

    /** `request`: the url verbatim and the method upper-cased. */
    method Request(url: string, m: string)
      modifies this
      ensures this.url == url && verb == AsciiUppercase(m)
      ensures basicAuth == old(basicAuth) && headers == old(headers) && body == old(body)
    {
      this.url := url;
      verb := AsciiUppercase(m);
    }

    /** `get`: `request(url, "GET")`. */
    method Get(url: string)
      modifies this
      ensures this.url == url && verb == "GET"
      ensures basicAuth == old(basicAuth) && headers == old(headers) && body == old(body)
    {
      Request(url, "GET");
    }

    /** `put`: `request(url, "PUT")`. */
    method Put(url: string)
      modifies this
      ensures this.url == url && verb == "PUT"
      ensures basicAuth == old(basicAuth) && headers == old(headers) && body == old(body)
    {
      Request(url, "PUT");
    }

    /** `header`: `k` maps to `v` alone; every other header is kept. */
    method Header(k: HeaderName, v: HeaderValue)
      modifies this
      ensures headers == Insert(old(headers), k, v)
      ensures basicAuth == old(basicAuth) && url == old(url) && body == old(body) && verb == old(verb)
    {
      headers := Insert(headers, k, v);
    }

    /** `headers`: every name of `other` takes `other`'s values. */
    method Headers(other: HeaderMap)
      modifies this
      ensures headers == Extend(old(headers), other)
      ensures basicAuth == old(basicAuth) && url == old(url) && body == old(body) && verb == old(verb)
    {
      headers := Extend(headers, other);
    }

    /** `range`: the `range` header, set to "bytes=<start>-<end>". */
    method Range(start: u64, end: u64)
      modifies this
      ensures headers == Insert(old(headers), RangeName, Plain(RangeValue(start, end)))
      ensures basicAuth == old(basicAuth) && url == old(url) && body == old(body) && verb == old(verb)
    {
      Header(RangeName, Plain(RangeValue(start, end)));
    }

    /** `body`: sets the body. */
    method Body(b: string)
      modifies this
      ensures body == Some(b)
      ensures basicAuth == old(basicAuth) && url == old(url) && headers == old(headers) && verb == old(verb)
    {
      body := Some(b);
    }

    /** The credential `send` authenticates with: the per-call one, else the client's. */
    function Credential(): (v: HeaderValue)
      reads this, client
      ensures basicAuth.Some? ==> v == Basic(basicAuth.value.0, basicAuth.value.1)
      ensures basicAuth.None? ==> v == client.Credential()
    {
      if basicAuth.Some? then Basic(basicAuth.value.0, basicAuth.value.1) else client.Credential()
    }

    /**
     * `send`: the request handed to the HTTP library, or the panic of
     * `expect("Error Method")` when the method text is not a method. The
     * caller's headers come first and the credential is appended after them,
     * so a caller's own `authorization` header is sent alongside it.
     */
    function Send(): (r: Result<Request, string>)
      reads this, client
      ensures r.Success? <==> IsToken(verb)
      ensures r.Failure? ==> r.error == MethodPanic
      ensures r.Success? ==> r.value.verb.name == verb && r.value.url == client.Target(url) && r.value.body == body
      ensures r.Success? ==> r.value.headers.Keys == headers.Keys + {Authorization}
      ensures r.Success? ==> forall k :: k in headers && k != Authorization ==> r.value.headers[k] == headers[k]
      ensures r.Success? ==> (r.value.headers[Authorization] ==
        (if Authorization in headers then headers[Authorization] else []) + [Credential()])
      ensures r.Success? && WellFormed(headers) ==> WellFormed(r.value.headers)
    {
      match ParseMethodText(verb)
      case Failure(_) => Failure(MethodPanic)
      case Success(m) =>
        var sent := Extend(map[], headers);
        Success(Http.Request(m, client.Target(url), Append(sent, Authorization, Credential()), body))
    }
  }

  /** A builder whose method was never set cannot send: the empty method text is not a method. */
  lemma UnsetMethodPanics(b: RequestBuilder)
    requires b.verb == ""
    ensures b.Send() == Failure(MethodPanic)
  {
  }

  /** A method given in lower case is sent under its upper-case name. */
  lemma LowerCaseMethodSent(b: RequestBuilder, m: string)
    requires b.verb == AsciiUppercase(m) && IsToken(m)
    ensures b.Send().Success? && b.Send().value.verb.name == AsciiUppercase(m)
  {
    var u := AsciiUppercase(m);
    assert forall i :: 0 <= i < |u| ==> IsTokenChar(u[i]) by {
      forall i | 0 <= i < |u| ensures IsTokenChar(u[i]) {
        assert IsTokenChar(m[i]);
      }
    }
  }
}
