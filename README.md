# webdav-request in Dafny

A model of the sequential core of `webdav-request`, a small Rust WebDAV
client. WebDAV is HTTP extended with PROPFIND and the 207 Multi-Status
response of RFC 4918. The model covers both generations of the code: the older
`client.rs` / `parse.rs` / `read.rs` and the newer `client/mod.rs` / `res/*` /
`reader.rs`.

- `url.dfy` (module `Url`): the endpoint resolver of `src/url.rs`. The endpoint
  text is split into its non-empty runs of characters other than '/', as a
  Unix `PathBuf` yields the normal components of a relative path. The
  resolver takes a scheme (`http:`/`https:`, else `https://`), a domain and a
  rooted path. It can `join` a path onto the endpoint and `url_join` a server
  href onto it. `parse_url` is also written as the loop the source runs
  (`ParseUrl`) and proved equal to the specification `Parse`.
- `method.dfy` (`Method`): the crate's `Method`, its conversion to the HTTP
  library's method, and `from_bytes`. A library method is a token of
  section 5.6.2 of RFC 9110.
- `privilege.dfy` (`Privilege`): classification of a privilege element by key
  priority, and the loop that folds a list of privilege types into five flags.
- `multistatus.dfy` (`Multistatus`): the decoded Multi-Status records, shared by
  both generations, and `is_collection`.
- `percent.dfy` (`Percent`): the percent-decoding of section 2.1 of RFC 3986.
  Also the UTF-8 well-formedness check of section 4 of RFC 3629, and a
  reference encoder used as the decoder's inverse.
- `collection.dfy` (`Collection`) and `parse.dfy` (`Parse`): the two result
  trees built from a Multi-Status. The first response is the header and the
  rest become children.
- `body.dfy` (`Body`): the buffered drain both readers run on one `poll_read`.
  The body is a script of pulls: a chunk, an error or not-ready. An empty
  script is the end of the body.
- `read.dfy` (`Read`) and `reader.dfy` (`Reader`): the two `ResponseReader`
  classes, and the `LazyResponseReader` class that sends its request on first
  poll. The send future is the `Exchange` it reports at each poll.
- `http.dfy` (`Http`): the header map, the request record, the `Range` header
  value, success statuses, the crate's `Error`, and the allprop body.
- `client.dfy` (`Client`) and `legacy_client.dfy` (`LegacyClient`): the two
  request builders and clients.

Where the code departs from a plain reading of the API, the model follows the
code:

- A rooted path given to `join` is appended to the endpoint path; it does not
  replace it.
- `url_join` tests the endpoint path as a raw character prefix, so "/davx"
  lies under "/dav".
- No `Depth` header is sent with PROPFIND.
- `Resource` carries no privilege flags.
- After a non-success status the lazy reader keeps its send future. Later
  reads fail with that status only while the future keeps reporting it.
- Both readers model the code as written, including the panics below. The
  corrected drain is stated and proved beside them.

## Model

| member | source | states |
|---|---|---|
| Url.Parse | src/url.rs:22-53 | `WebDavUrl::new`: scheme, domain and path from the endpoint's components, or the panic of `parse_url` as a value |
| Url.Push | src/url.rs:42 | `PathBuf::push` of one relative component: a '/' between unless the path already ends in one |
| Url.Display | src/url.rs:15-20 | scheme, domain and path written one after another |
| Url.Join | src/url.rs:76-85 | the endpoint with the argument appended to its path, with a '/' between unless the argument is rooted |
| Url.SmartMerge | src/url.rs:87-97 | the three-way merge of `smart_merge` |
| Url.UrlJoin | src/url.rs:98-108 | the three-way merge of `url_join` |
| Url.SegmentLength | src/url.rs:24-25 | the length of the first component: no '/' before it, a '/' right after it |
| Url.Segments | src/url.rs:24-25 | every component the endpoint splits into is non-empty and free of '/' |
| Url.PathOf | src/url.rs:31 | a path built by pushing components onto "/" is rooted |
| Url.SegmentsAppend | src/url.rs:24-25 | a '/' between two strings separates their components: the components of `a/b` are those of `a` then those of `b` |
| Url.SegmentsOfPath | src/url.rs:42-43 | pushing components onto "/" gives back exactly those components |
| Url.PathOfEnd | src/url.rs:42-43 | a path with at least one component pushed never ends in '/' |
| Url.ParseUrl | src/url.rs:23-44 | the loop that takes the first component, decides the scheme, takes the domain and pushes the rest equals `Parse` |
| Url.ParseWithScheme | src/url.rs:32-37 | with `http:`/`https:` first, the scheme is that component plus "//", the domain is the next component, and the path holds the remaining components |
| Url.ParseWithoutScheme | src/url.rs:38-41 | otherwise the scheme is "https://", the first component is the domain, and the path holds the rest |
| Url.ParseFails | src/url.rs:26-28 | parsing fails exactly when there is no component, or a scheme has no domain after it |
| Url.ParsedShape | src/url.rs:46-53 | a parsed endpoint has a scheme ending in "://", a one-component domain and a rooted path |
| Url.ParseDisplay | src/url.rs:16-20 | displaying a parsed endpoint and parsing the text again gives the same endpoint |
| Url.JoinAppendsSegments | src/url.rs:76-85 | `join` keeps scheme and domain and appends the components of its argument to the path |
| Url.JoinRootedSameAsRelative | src/url.rs:78-83 | joining "/p" and joining "p" give the same endpoint |
| Url.JoinMatchesParse | src/url.rs:76-85 | for a parsed endpoint whose path is not the bare "/", joining a component equals parsing the endpoint text with "/component" added |
| Url.JoinOntoRootPath | src/url.rs:76-85 | on an endpoint whose path is the bare "/", joining a non-rooted "x" gives the path "//x" |
| Url.ParseDocEndpoint | src/url.rs:70 | "https://example.com/dav" parses into "https://", "example.com", "/dav" |
| Url.JoinDocExample | src/url.rs:70-74 | the documentation example: joining "dav" or "/dav" onto "https://example.com/dav" gives the endpoint "https://example.com/dav/dav" |
| Url.SmartMergeIsUrlJoin | src/url.rs:87-108 | `smart_merge` and `url_join` agree on every input |
| Url.UrlJoinAsDisplay | src/url.rs:98-108 | a non-rooted href is returned unchanged; a rooted one under the path prefix is scheme+domain+href; any other rooted one is scheme+domain+path+href |
| Url.UrlJoinKeepsHref | src/url.rs:100-104 | a merged rooted href starts with scheme and domain and ends with the href |
| Url.UrlJoinIdempotent | src/url.rs:98-108 | merging an already merged href again changes nothing |
| Url.UrlJoinRawPrefix | src/url.rs:100 | the prefix test is on characters: "/davx/f" counts as under "/dav", "/other" does not |
| Method.Convert | src/method.rs:21-32 | the HTTP library's method for each constant of the crate's `Method` |
| Method.FromBytes | src/method.rs:33-38 | the library's method named by the bytes, or its error |
| Method.ParseMethod | src/method.rs:35 | the library accepts exactly the token byte strings, naming the method by them, and otherwise fails with "invalid HTTP method" |
| Method.ParseMethodText | src/client.rs:74 | a method text is accepted exactly when it is a token |
| Method.ConvertNames | src/method.rs:21-32 | GET, POST, PUT, DELETE and PATCH convert to the methods of those names, PROPFIND to the extension method "PROPFIND", and `Custom(m)` to `m` |
| Method.ConvertDistinguishesConstants | src/method.rs:15-29 | no two constants convert to the same method |
| Method.FromBytesRoundTrip | src/method.rs:33-38 | `from_bytes` succeeds exactly on tokens, converting back to the method those bytes name, and otherwise reports the library's error |
| Method.ConvertThenParse | src/method.rs:21-38 | every converted method's name is ASCII and parses back to the same method |
| Method.FromBytesRejects | src/method.rs:33-38 | the empty byte string and a string with a space are rejected |
| Privilege.Classify | src/res/privilege.rs:25-50 | the privilege type of one decoded element, by the first key found in priority order |
| Privilege.Fold | src/res/privilege.rs:87-96 | the five flags after setting one per recognised element |
| Privilege.ClassifyFirstMatch | src/res/privilege.rs:31-48 | an object classifies as the type of the first key it has in the order read, write, read_acl, write_acl, all; with none of them, or for a non-object, it is unrecognised |
| Privilege.ClassifyPrefersRead | src/res/privilege.rs:33-34 | an object with a "read" key is `Read`, whatever other keys it has |
| Privilege.FromTypes | src/res/privilege.rs:80-105 | the loop's flags are the fold of the list, and each flag is set exactly when the list holds that type |
| Privilege.FoldIsMembership | src/res/privilege.rs:87-96 | the fold sets each flag exactly when some element has its type |
| Privilege.FoldIgnoresOrderAndDuplicates | src/res/privilege.rs:87-96 | two lists with the same recognised types fold to the same flags, whatever their order or repetitions |
| Privilege.UnrecognisedChangesNothing | src/res/privilege.rs:94 | an unrecognised entry changes no flag, wherever it stands |
| Privilege.FoldEmpty | src/res/privilege.rs:82-86 | the empty list, which a missing privilege list decodes to, gives all five flags false |
| Privilege.ReadWriteExample | src/res/privilege.rs:87-96 | a set with the read and write markers gives exactly read and write |
| Privilege.PrivilegeOf | src/res/privilege.rs:10-14 | `privilege()` sets each flag exactly when the set holds that type |
| Multistatus.IsCollection | src/res/multistatus.rs:47-55 | `is_collection`: the flag, else the collection marker of the resource type |
| Multistatus.IsCollectionCases | src/res/multistatus.rs:47-55 | the flag alone decides when set; a collection marker decides when the flag is off; without a resource type, or with one lacking the marker, the answer is no |
| Multistatus.FlagDominates | src/res/multistatus.rs:48-49 | with the flag set, the resource type never changes the answer |
| Percent.DecodeNotLonger | src/res/collection.rs:19 | decoding never lengthens an href |
| Percent.DecodeWithoutPercent | src/res/collection.rs:19 | an href without '%' decodes to itself |
| Percent.DecodeEncode | src/res/collection.rs:19 | decoding undoes the reference encoder |
| Percent.EncodeText | src/res/collection.rs:19-22 | the reference encoder yields UTF-8 text that decodes to its input, and contains a '%' only if some input byte is outside the unreserved set of section 2.3 of RFC 3986 |
| Percent.EncodeUnreservedIsIdentity | src/res/collection.rs:19 | a string of unreserved bytes is its own encoding |
| Percent.AsciiIsUtf8 | src/res/collection.rs:20 | all-ASCII bytes are well-formed UTF-8 |
| Percent.EncodeIsAscii | src/res/collection.rs:19 | an encoded string is all ASCII |
| Collection.Href | src/res/collection.rs:18-24 | an href decoded when the `decode_url` feature is on, raw otherwise |
| Collection.ToResource | src/res/collection.rs:27-40 | one child built from one response |
| Collection.DecodeHref | src/res/collection.rs:19-22 | the href is the percent-decoding of the raw text when that decoding is well-formed UTF-8, and the raw text otherwise; it is never longer than the raw text, and is the raw text itself when that has no '%' |
| Collection.FromMultiStatus | src/res/collection.rs:10-44 | no responses give the default collection; otherwise header href and display name come from response 0, and child i is built from response i+1, one child per later response |
| Collection.ChildrenFollowResponses | src/res/collection.rs:26-41 | a child's collection bit is its response's `is_collection`; its href is decoded under the feature and raw without it; its other four fields are copied |
| Collection.HeaderDoesNotReachChildren | src/res/collection.rs:15-26 | the header response has no effect on the children |
| Collection.DecodeHrefOfEncoded | src/res/collection.rs:30-33 | an href that percent-encodes a name decodes back to the name |
| Collection.DecodeHrefFallsBack | src/res/collection.rs:30-33 | "%FF" decodes to the lone byte 0xFF, which is not UTF-8, so it is kept raw |
| Parse.ToFileNode | src/parse.rs:95-109 | one file node built from one response |
| Parse.FromMultistatus | src/parse.rs:84-113 | no responses give the default tree; otherwise the header href is the raw href of response 0, and node i is built from response i+1 |
| Parse.NodeFields | src/parse.rs:95-108 | a node has a content type exactly when the literal collection flag is off, and `is_dir` is `is_collection` |
| Parse.DirectoryByResourceTypeKeepsContentType | src/parse.rs:104-108 | a directory known only through its resource type still reports a content type |
| Parse.AgreesWithCollection | src/parse.rs:84-113 | the older tree's header is the newer collection's undecoded header, and each node matches the decoded child apart from the optional content type |
| Body.Drain | src/reader.rs:106-132 | one `poll_read` as both readers run it: buffer chunks until `take` bytes are held, flush at the end of the body, fail on a chunk error, wait when not ready, and panic where `put_slice` overruns the room |
| Body.DrainConserves | src/reader.rs:111-121 | a drain consumes a prefix of the body; the bytes handed out, then the bytes kept, are the bytes buffered, then the chunks consumed, in order |
| Body.DrainReadyShape | src/reader.rs:112-121 | Ready data fits the caller's room, and is exactly `take` bytes unless the body ended and the buffer was flushed |
| Body.DrainFits | src/reader.rs:112-121 | a drain never panics while the caller's room holds both the starting buffer and `take` |
| Body.DrainFixed | src/reader.rs:112-121 | the corrected drain never panics, never hands out more than the room, and equals the written drain whenever the buffer starts below the room |
| Body.DrainFixedConserves | src/reader.rs:111-121 | the corrected drain conserves bytes like the written one |
| Read.ResponseReader.constructor | src/read.rs:20-25 | a new reader holds the given response and an empty buffer |
| Read.ResponseReader.PollRead | src/read.rs:29-65 | with no response the poll is Pending and nothing changes; otherwise it is the drain that takes `capacity` bytes into the unfilled room; bytes handed out plus bytes buffered stay the bytes received |
| Read.CapacityOverrun | src/read.rs:42-44 | with one byte already filled in a buffer of capacity four, a four-byte chunk is handed out whole and overruns the room |
| Read.EmptyBufferNeverOverrun | src/read.rs:42-50 | into an empty buffer the reader never overruns while its leftover fits |
| Reader.ReaderPoll | src/reader.rs:98-137 | one poll of the plain reader: Pending without a response, else the drain that takes `remaining` bytes |
| Reader.LazyPoll | src/reader.rs:30-67 | one poll of the lazy reader: send the request if still held, report the send's progress or error, install the reader on success, then read |
| Reader.ResponseReader.constructor | src/reader.rs:89-96 | `new` holds the response and an empty buffer |
| Reader.ResponseReader.Default | src/reader.rs:70-74 | the default reader has no response |
| Reader.ResponseReader.PollRead | src/reader.rs:98-137 | with no response the poll is Pending; otherwise it is the drain that takes `remaining` bytes; conservation is kept |
| Reader.LazyResponseReader.constructor | src/reader.rs:24-28 | a new lazy reader holds the request, with no send under way and no reader; until it is polled nothing has been sent |
| Reader.LazyResponseReader.InFlight | src/reader.rs:19-23 | built from a send future, it holds only that send |
| Reader.LazyResponseReader.PollRead | src/reader.rs:30-67 | one poll is `LazyPoll`: the request is taken and sent on the first poll only, and the send count grows by one exactly then |
| Reader.SendAtMostOnce | src/reader.rs:37-39 | over any run of polls the request is sent at most once, and exactly once when the run is non-empty and started with the request |
| Reader.StatusGating | src/reader.rs:43-49 | while the send reports a non-success status, every poll fails with that status and no byte is handed out |
| Reader.EmptyReaderEnds | src/reader.rs:63-66 | with no request, send or reader, a poll is Ready with no bytes |
| Reader.FourByteReads | src/reader.rs:111-121 | chunks of 3, 5 and 2 bytes read four at a time yield 4, 4, 2 and then 0 bytes, and the bytes in order |
| Reader.LeftoverOverrun | src/reader.rs:118-121 | a ten-byte chunk read four bytes at a time panics on the second read, when the end of the body flushes six bytes |
| Http.IsSuccess | src/client/mod.rs:58 | `StatusCode::is_success`: the 2xx range |
| Http.Decimal | src/client/mod.rs:114 | a non-empty string of decimal digits, with no sign, whose first digit is not '0' unless the number is 0 |
| Http.Insert | src/client/mod.rs:118-121 | after an insert the name has the new value alone and every other name keeps its values |
| Http.Append | src/client/mod.rs:140-146 | an appended value follows the values the name had; other names are untouched |
| Http.Extend | src/client/mod.rs:122-125 | every name of the added map takes exactly its values there; names it lacks keep theirs |
| Http.InsertLastWins | src/client/mod.rs:118-121 | of two inserts under one name only the later survives |
| Http.InsertCommutes | src/client/mod.rs:118-121 | inserts under different names commute |
| Http.DecimalRoundTrip | src/client/mod.rs:114 | reading the decimal digits of a number back gives the number |
| Http.RangeValue | src/client/mod.rs:110-117 | the range value starts with "bytes=" |
| Http.RangeRoundTrip | src/client/mod.rs:110-117 | the range value reads back as exactly its two bounds, whatever their order |
| Client.NewClient | src/client/mod.rs:34-42 | the client keeps the credential and parses the base url when given; a base url `WebDavUrl::new` rejects is the panic of `parse_url`, returned as a value |
| Client.SelectAuth | src/client/mod.rs:140-146 | the per-call credential wins; otherwise the client's is used, if any |
| Client.RequestBuilder.constructor | src/client/mod.rs:88-97 | a new builder has the given url and method, and no credential, header or body |
| Client.RequestBuilder.BasicAuth | src/client/mod.rs:98-103 | sets the per-call credential and nothing else |
| Client.RequestBuilder.Body | src/client/mod.rs:104-109 | sets the body and nothing else |
| Client.RequestBuilder.Header | src/client/mod.rs:118-121 | inserts one header, last write wins |
| Client.RequestBuilder.Headers | src/client/mod.rs:122-125 | extends the headers by another map |
| Client.RequestBuilder.Range | src/client/mod.rs:110-117 | sets `range` to "bytes=start-end" and nothing else |
| Client.RequestBuilder.Build | src/client/mod.rs:127-148 | the url is raw without a base url and merged onto it otherwise. The method is converted and the body kept. Every caller header is sent with its values. `authorization` carries the selected credential unless the caller set that header. No other header appears. Headers with at least one value each stay so |
| Client.RequestBuilder.IntoLazyReader | src/client/mod.rs:149-151 | the lazy reader holds the built request and has sent nothing |
| Client.Get | src/client/mod.rs:47-50 | a GET with no body, at the resolved url, whose only header is `authorization` with the client's credential when it has one, and no header at all otherwise |
| Client.AllPropfind | src/client/mod.rs:66-75 | a PROPFIND with `content-type: application/xml`, the allprop body, no `depth` header, and `authorization` exactly when the client has a credential; no other header |
| Client.ListCollection | src/client/mod.rs:53-65 | a transport failure or non-success status is an error carrying it; success requires readable, decodable text and yields the collection built from it |
| Client.RefusedListingIgnoresBody | src/client/mod.rs:58-64 | a refused listing consults neither the body nor the decoder |
| LegacyClient.AsciiUppercase | src/client.rs:38 | every ASCII lower-case letter becomes upper case and nothing else changes |
| LegacyClient.UppercaseIdempotent | src/client.rs:38 | upper-casing twice is upper-casing once |
| LegacyClient.WebDAVClient.constructor | src/client.rs:106-113 | the client holds the given endpoint and credential |
| LegacyClient.WebDAVClient.BasicAuth | src/client.rs:114-118 | replaces the credential and keeps the endpoint |
| LegacyClient.WebDAVClient.WebdavUrl | src/client.rs:119-122 | replaces the endpoint and keeps the credential |
| LegacyClient.WebDAVClient.Target | src/client.rs:75-79 | a rooted url is appended to the endpoint; any other is used as it is |
| LegacyClient.WebDAVClient.Credential | src/client.rs:132-133 | the client's username and password as a basic credential |
| LegacyClient.WebDAVClient.Get | src/client.rs:126-137 | a GET at the target with the client's credential and no body |
| LegacyClient.WebDAVClient.AllPropfind | src/client.rs:152-166 | a PROPFIND at the url, or at endpoint + "/" + url when there is an endpoint, with the credential, the XML content type, the allprop body and no `depth` header |
| LegacyClient.ListDir | src/client.rs:142-151 | a transport failure or non-success status is an error carrying it; success requires readable, decodable text and yields the file tree |
| LegacyClient.RequestBuilder.constructor | src/client.rs:22-31 | a new builder has an empty url and method and no credential, header or body |
| LegacyClient.RequestBuilder.BasicAuth | src/client.rs:32-35 | sets the per-call credential |
| LegacyClient.RequestBuilder.Request | src/client.rs:36-40 | stores the url verbatim and the method upper-cased |
| LegacyClient.RequestBuilder.Get | src/client.rs:42-44 | url and method "GET" |
| LegacyClient.RequestBuilder.Put | src/client.rs:46-48 | url and method "PUT" |
| LegacyClient.RequestBuilder.Header | src/client.rs:50-53 | inserts one header, last write wins |
| LegacyClient.RequestBuilder.Headers | src/client.rs:54-57 | extends the headers by another map |
| LegacyClient.RequestBuilder.Range | src/client.rs:58-64 | sets `range` to "bytes=start-end" |
| LegacyClient.RequestBuilder.Body | src/client.rs:65-68 | sets the body |
| LegacyClient.RequestBuilder.Credential | src/client.rs:87-91 | the per-call credential if set, else the client's |
| LegacyClient.RequestBuilder.Send | src/client.rs:69-93 | panics with "Error Method" exactly when the method text is not a token. Otherwise the url is the target, the body is kept, and every header is kept. The credential is appended after any `authorization` values the caller set. Headers with at least one value each stay so |
| LegacyClient.UnsetMethodPanics | src/client.rs:22-31 | a builder whose method was never set panics on send |
| LegacyClient.LowerCaseMethodSent | src/client.rs:36-40 | a method token given in lower case is sent under its upper-case name |

## Left out

- Multi-Status deserialisation is not modelled: the XML decoder and serde's
  defaults. The model starts from decoded records with defaults applied, so a
  missing `response` list is already the empty sequence (src/res/multistatus.rs:6-7).
  The privilege classifier receives the decoded value only as "an object with
  these keys" or "not an object".
- `Multistatus::from_response` and `MultiStatus::from_str` only wrap the HTTP and
  XML libraries. The listing functions take the decoder as a parameter.
- Sending is not modelled: the HTTP library, TLS, connection pooling, and the
  client-wide default headers the library adds at send time. `send` and the
  crate's `get` hand the built request to the transport, and the model stops
  at that request.
- `Pin`, `Context`, wakers and `Future::poll` are not modelled. Only the Ready,
  Pending and error outcomes of a poll are kept.
- The model does not say what the send future does after completing. The model
  lets each poll's `Exchange` say what the future reports.
- The `Authorization` value is kept as the credential pair. Its base64 encoding
  is not modelled.
- The io::Error of a refused status carries the status text ("404 Not Found").
  The model keeps the numeric status.
- `LegacyClient.AsciiUppercase`: upper-cases ASCII letters only. Rust's
  `str::to_uppercase` applies full Unicode case mapping, which is not modelled.
  That mapping can turn a non-token text into a token: 'ı' (U+0131) becomes
  "I", 'ſ' (U+017F) becomes "S", 'ß' becomes "SS" and 'ﬁ' becomes "FI".
- `LegacyClient.RequestBuilder.Request`: stores the ASCII upper-casing of the
  method text, not its full Unicode upper-casing. For "propfınd" (dotless ı)
  the source stores "PROPFIND", but the model stores a text that is not a token.
- `LegacyClient.RequestBuilder.Send`: for a method text like "propfınd", the
  source sends PROPFIND, but the model panics with "Error Method". The stored
  text differs as described for `Request`.
- `HeaderValue::from_bytes(..).unwrap()` validity checks are not modelled. Header
  names are taken already lower-cased.
- Several `PathBuf` rules are not modelled. An endpoint is split on '/' and
  empty components are dropped. The following are left out:
  - The root component "/" that a Unix `PathBuf` yields first for a text
    starting with '/'. In the source, `WebDavUrl::new("/dav")` has domain "/"
    and path "/dav", and `WebDavUrl::new("/")` succeeds with domain "/". In the
    model, "/dav" gives domain "dav" and path "/", and "/" is rejected.
  - "." components.
  - Windows prefixes.
  - Lossy conversion of non-UTF-8 components.
- Error conversions and `Display`/`Debug` in src/error.rs are not modelled.
  Foreign errors are kept as their messages.
- `unsafe impl Send/Sync` makes no behavioural claim and is not modelled.
- `WebDAVClient::new` in src/client/mod.rs:34-42 fails with the HTTP
  library's error when `reqwest::Client::builder().build()` fails, and that is
  not modelled. `Client.NewClient` fails only for a rejected base url, which
  the source reports as a panic.
- src/client/inner.rs is not part of this model. `Auth`, `InnerClient` and
  `Range` are the records `client/mod.rs` uses.
- `ALL_DROP` and the `PROPFIND` static of src/lib.rs appear as `Http.AllDrop` and
  `Method.Convert(Propfind)`.

## Findings

| source | as written | input that shows it | evidently intended | confidence | as-written member | corrected member |
|---|---|---|---|---|---|---|
| src/reader.rs:118-121 | at the end of the body the whole buffer is `put_slice`d with no check that it fits `remaining()`; bytes left over from an earlier large chunk can exceed it (the same code is at src/read.rs:47-50) | one chunk of 10 bytes read with 4 bytes of room: the first read returns 4 bytes and keeps 6, and the second read reaches the end of the body and puts 6 bytes into 4 | hand out at most the room and keep the rest buffered, never panicking | not executed | Reader.LeftoverOverrun | Body.DrainFixed |
| src/read.rs:42-44 | the threshold and the slice handed out are `capacity()`, but `put_slice` only accepts what is still unfilled (`remaining()`) | a read buffer of capacity 4 with 1 byte already filled and a 4-byte chunk: 4 bytes are put into 3 of room | measure against `remaining()`, as src/reader.rs:112-115 later does | not executed | Read.CapacityOverrun | Body.DrainFixed |
