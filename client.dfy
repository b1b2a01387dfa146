/**
 * `src/client/mod.rs`: the current client. A request builder collects a
 * method, a url, headers, a body and an optional per-call credential, and
 * `build` turns them into the request the HTTP library sends: the url is
 * merged onto the client's base url, the credential falls back to the
 * client's, and the caller's headers are applied last.
 */
module Client {
  import opened Wrappers
  import opened Bytes
  import opened Url
  import opened Method
  import opened Http
  import opened Multistatus
  import Collection
  import Reader

  /** A username and password. */
  datatype Auth = Auth(username: string, password: string)

  /** `InnerClient`: the shared, read-only configuration of a client. */
  datatype InnerClient = InnerClient(auth: Option<Auth>, baseUrl: Option<WebDavUrl>)

  /** `Range`: the inclusive byte bounds of a partial read. */
  datatype Range = Range(start: u64, end: u64)

  /**
   * `WebDAVClient::new`: the base url, when given, is parsed as an endpoint.
   * An endpoint `WebDavUrl::new` rejects makes `parse_url` panic; that panic
   * is returned here as a value.
   */
  function NewClient(auth: Option<Auth>, baseUrl: Option<string>): (r: Result<InnerClient, UrlError>)
    ensures baseUrl.None? ==> r == Success(InnerClient(auth, None))
    ensures baseUrl.Some? ==> (r.Success? <==> Parse(baseUrl.value).Success?)
    ensures r.Success? ==> r.value.auth == auth
    ensures r.Success? && baseUrl.Some? ==> r.value.baseUrl == Some(Parse(baseUrl.value).value)
  {
    match baseUrl
    case None => Success(InnerClient(auth, None))
    case Some(s) =>
      match Parse(s)
      case Success(u) => Success(InnerClient(auth, Some(u)))
      case Failure(e) => Failure(e)
  }

  /** The credential a request carries: the per-call one, else the client's, else none. */
  function SelectAuth(perCall: Option<Auth>, client: InnerClient): (a: Option<Auth>)
    ensures perCall.Some? ==> a == perCall
    ensures perCall.None? ==> a == client.auth
  {
    if perCall.Some? then perCall else client.auth
  }

  /** `WevDAVRequestBuilder`. */
  class RequestBuilder {
    const client: InnerClient
    var basicAuth: Option<Auth>
    var url: string
    var headers: HeaderMap
    var body: Option<string>
    var verb: Method

    /** `WevDAVRequestBuilder::new`: no credential, no header, no body. */
    constructor (client: InnerClient, url: string, verb: Method)
      ensures this.client == client && this.url == url && this.verb == verb
      ensures basicAuth.None? && headers == map[] && body.None?
    {
      this.client := client;
      this.url := url;
      this.verb := verb;
      basicAuth := None;
      headers := map[];
      body := None;
    }

    /** `basic_auth`: replaces the per-call credential and nothing else. */
    method BasicAuth(username: string, password: string)
      modifies this
      ensures basicAuth == Some(Auth(username, password))
      ensures url == old(url) && headers == old(headers) && body == old(body) && verb == old(verb)
    {
      basicAuth := Some(Auth(username, password));
    }

    /** `body`: replaces the body and nothing else. */
    method Body(b: string)
      modifies this
      ensures body == Some(b)
      ensures basicAuth == old(basicAuth) && url == old(url) && headers == old(headers) && verb == old(verb)
    {
      body := Some(b);
    }

    /** `header`: `k` maps to `v` alone; every other header is kept. */
    method Header(k: HeaderName, v: HeaderValue)
      modifies this
      ensures headers == Insert(old(headers), k, v)
      ensures basicAuth == old(basicAuth) && url == old(url) && body == old(body) && verb == old(verb)
    {
      headers := Insert(headers, k, v);
    }

    /** `headers`: every name of `other` takes `other`'s values. */
    method Headers(other: HeaderMap)
      modifies this
      ensures headers == Extend(old(headers), other)
      ensures basicAuth == old(basicAuth) && url == old(url) && body == old(body) && verb == old(verb)
    {
      headers := Extend(headers, other);
    }

    /** `range`: the `range` header, set to "bytes=<start>-<end>" with no check of the bounds' order. */
    method Range(r: Range)
      modifies this
      ensures headers == Insert(old(headers), RangeName, Plain(RangeValue(r.start, r.end)))
      ensures basicAuth == old(basicAuth) && url == old(url) && body == old(body) && verb == old(verb)
    {
      Header(RangeName, Plain(RangeValue(r.start, r.end)));
    }

    /**
     * `build`: the request the HTTP library receives. Its url is the
     * builder's merged onto the base url when the client has one; the
     * credential is appended as an `authorization` header; then every header
     * the caller set replaces the request's values under its name, so a
     * caller's own `authorization` header overrides the credential.
     */
    function Build(): (r: Request)
      reads this
      ensures r.verb == Convert(verb) && r.body == body
      ensures client.baseUrl.None? ==> r.url == url
      ensures client.baseUrl.Some? ==> r.url == UrlJoin(client.baseUrl.value, url)
      ensures forall k :: k in headers ==> k in r.headers && r.headers[k] == headers[k]
      ensures forall k :: k in r.headers && k !in headers ==> k == Authorization
      ensures Authorization !in headers ==>
        match SelectAuth(basicAuth, client)
        case Some(a) => Authorization in r.headers && r.headers[Authorization] == [Basic(a.username, a.password)]
        case None => Authorization !in r.headers
      ensures WellFormed(headers) ==> WellFormed(r.headers)
    {
      var target := if client.baseUrl.Some? then UrlJoin(client.baseUrl.value, url) else url;
      var sent: HeaderMap := map[];
      var withAuth := match SelectAuth(basicAuth, client)
        case Some(a) => Append(sent, Authorization, Basic(a.username, a.password))
        case None => sent;
      Request(Convert(verb), target, Extend(withAuth, headers), body)
    }

    /** `into_lazy_reader`: a lazy reader holding the built request, not yet sent. */
    method IntoLazyReader() returns (lazy: Reader.LazyResponseReader)
      ensures fresh(lazy) && lazy.Valid()
      ensures lazy.State() == Reader.LazyState(Some(Build()), false, None) && lazy.sends == 0
    {
      lazy := new Reader.LazyResponseReader(Build());
    }
  }

  /** `WebDAVClient::get`: a GET of `url`, carrying the client's credential and nothing else. */
  method Get(client: InnerClient, url: string) returns (r: Request)
    ensures r.verb.name == "GET" && r.body.None?
    ensures client.baseUrl.None? ==> r.url == url
    ensures client.baseUrl.Some? ==> r.url == UrlJoin(client.baseUrl.value, url)
    ensures client.auth.None? ==> r.headers == map[]
    ensures client.auth.Some? ==>
      r.headers == map[Authorization := [Basic(client.auth.value.username, client.auth.value.password)]]
  {
    var b := new RequestBuilder(client, url, Method.Get);
    r := b.Build();
    if client.auth.Some? {
      assert r.headers.Keys == {Authorization};
    } else {
      assert r.headers.Keys == {};
    }
  }

  /**
   * `WebDAVClient::all_propfind`: a PROPFIND of `url` with an XML content
   * type and the allprop body. No `depth` header is sent.
   */
  method AllPropfind(client: InnerClient, url: string) returns (r: Request)
    ensures r.verb.name == "PROPFIND" && r.body == Some(AllDrop)
    ensures ContentType in r.headers && r.headers[ContentType] == [ApplicationXml]
    ensures "depth" !in r.headers
    ensures client.baseUrl.None? ==> r.url == url
    ensures client.baseUrl.Some? ==> r.url == UrlJoin(client.baseUrl.value, url)
    ensures client.auth.Some? ==> (Authorization in r.headers &&
      r.headers[Authorization] == [Basic(client.auth.value.username, client.auth.value.password)])
    ensures client.auth.None? ==> Authorization !in r.headers
    ensures r.headers.Keys == {ContentType} + (if client.auth.Some? then {Authorization} else {})
  {
    var b := new RequestBuilder(client, url, Propfind);
    b.Header(ContentType, ApplicationXml);
    b.Body(AllDrop);
    r := b.Build();
  }

  /**
   * `list_collection` once the PROPFIND has been sent: a transport failure or
   * a non-success status is an error, otherwise the text is decoded (by
   * `decode`, standing for the XML decoder) and the collection built from it,
   * with hrefs decoded when `decodeUrl` is on.
   */
  function ListCollection(sent: Result<Response, string>, decode: string -> Result<MultiStatus, string>,
                          decodeUrl: bool): (r: Result<Collection.Collection, Error>)
    ensures sent.Failure? ==> r == Failure(RequestError(sent.error))
    ensures sent.Success? && !IsSuccess(sent.value.status) ==> r == Failure(ResponseError(sent.value.status))
    ensures r.Success? <==> (sent.Success? && IsSuccess(sent.value.status) && sent.value.text.Success? &&
      decode(sent.value.text.value).Success?)
    ensures r.Success? ==> r.value == Collection.FromMultiStatus(decode(sent.value.text.value).value, decodeUrl)
  {
    match sent
    case Failure(e) => Failure(RequestError(e))
    case Success(response) =>
      if !IsSuccess(response.status) then Failure(ResponseError(response.status))
      else match response.text
        case Failure(e) => Failure(RequestError(e))
        case Success(xml) =>
          match decode(xml)
          case Failure(e) => Failure(DeError(e))
          case Success(ms) => Success(Collection.FromMultiStatus(ms, decodeUrl))
  }

  /** A refused listing never consults the body or the decoder. */
  lemma RefusedListingIgnoresBody(status: int, t1: Result<string, string>, t2: Result<string, string>,
                                  d1: string -> Result<MultiStatus, string>, d2: string -> Result<MultiStatus, string>,
                                  decodeUrl: bool)
    requires !IsSuccess(status)
    ensures ListCollection(Success(Response(status, t1)), d1, decodeUrl) ==
            ListCollection(Success(Response(status, t2)), d2, decodeUrl)
  {
  }
}
