/**
 * What both client generations hand to the HTTP library, and the pieces of
 * that library's behaviour the request shape depends on: a header map from
 * lower-case names to one or more values (`http::HeaderMap`), the request
 * record, success statuses, the crate's error type (`src/error.rs`), the
 * fixed PROPFIND body and the `Range` header format.
 */
module Http {
  import opened Wrappers
  import opened Bytes
  import opened Method

  /** A header name, already lower-cased as `HeaderName` stores it. */
  type HeaderName = string

  /** A header value: plain text, or the credentials `basic_auth` encodes. */
  datatype HeaderValue = Plain(text: string) | Basic(username: string, password: string)

  /** Every name present maps to its values, oldest first; the list is never empty. */
  type HeaderMap = map<HeaderName, seq<HeaderValue>>

  predicate WellFormed(m: HeaderMap) {
    forall k :: k in m ==> m[k] != []
  }

  /** `HeaderMap::insert`: `k` ends up with `v` as its only value; other names are untouched. */
  function Insert(m: HeaderMap, k: HeaderName, v: HeaderValue): (r: HeaderMap)
    ensures r.Keys == m.Keys + {k} && r[k] == [v]
    ensures forall k' :: k' in m && k' != k ==> r[k'] == m[k']
    ensures WellFormed(m) ==> WellFormed(r)
  {
    m[k := [v]]
  }

  /** `HeaderMap::append`: `v` joins the values `k` already has. */
  function Append(m: HeaderMap, k: HeaderName, v: HeaderValue): (r: HeaderMap)
    ensures r.Keys == m.Keys + {k} && |r[k]| > 0 && r[k][|r[k]| - 1] == v
    ensures k in m ==> r[k][..|r[k]| - 1] == m[k]
    ensures k !in m ==> r[k] == [v]
    ensures forall k' :: k' in m && k' != k ==> r[k'] == m[k']
    ensures WellFormed(m) ==> WellFormed(r)
  {
    m[k := (if k in m then m[k] else []) + [v]]
  }

  /**
   * `HeaderMap::extend` and `RequestBuilder::headers`: every name of `other`
   * takes exactly `other`'s values, replacing what it had; names `other`
   * lacks keep theirs.
   */
  function Extend(m: HeaderMap, other: HeaderMap): (r: HeaderMap)
    ensures r.Keys == m.Keys + other.Keys
    ensures forall k :: k in other ==> r[k] == other[k]
    ensures forall k :: k in m && k !in other ==> r[k] == m[k]
    ensures WellFormed(m) && WellFormed(other) ==> WellFormed(r)
  {
    m + other
  }

  /** Inserting the same name twice keeps only the later value: last write wins. */
  lemma InsertLastWins(m: HeaderMap, k: HeaderName, v1: HeaderValue, v2: HeaderValue)
    ensures Insert(Insert(m, k, v1), k, v2) == Insert(m, k, v2)
  {
  }

  /** Inserts under different names commute. */
  lemma InsertCommutes(m: HeaderMap, k1: HeaderName, v1: HeaderValue, k2: HeaderName, v2: HeaderValue)
    requires k1 != k2
    ensures Insert(Insert(m, k1, v1), k2, v2) == Insert(Insert(m, k2, v2), k1, v1)
  {
  }

  /** A request as handed to the HTTP library. */
  datatype Request = Request(verb: ValidMethod, url: string, headers: HeaderMap, body: Option<string>)

  /** `StatusCode::is_success`: the 2xx range. */
  predicate IsSuccess(status: int) {
    200 <= status <= 299
  }

  /** What awaiting a sent request and reading its text yields: a status, and the body text or the reason it could not be read. */
  datatype Response = Response(status: int, text: Result<string, string>)

  /** `src/error.rs`: the crate's error, with foreign errors kept as their messages. */
  datatype Error =
    | IoError(message: string)
    | RequestError(message: string)
    | DeError(message: string)
    | ResponseError(status: int)
    | Utf8Error(message: string)

  /** `ALL_DROP`: the allprop PROPFIND body of section 9.1 of RFC 4918, both generations alike. */
  const AllDrop: string := "\n<?xml version=\"1.0\"?>\n<d:propfind xmlns:d=\"DAV:\">\n<d:allprop/>\n</d:propfind>\n"

  const ContentType: HeaderName := "content-type"
  const Authorization: HeaderName := "authorization"
  const RangeName: HeaderName := "range"
  const ApplicationXml: HeaderValue := Plain("application/xml")

  // ---------------------------------------------------------------------------
  // The `Range` header of section 14.1.2 of RFC 9110

  function DigitChar(d: nat): (c: char)
    requires d < 10
    ensures '0' <= c <= '9'
  {
    ('0' as int + d) as char
  }

  /** `format!("{}", n)`: the decimal digits of `n`, without leading zeros. */
  function Decimal(n: nat): (s: string)
    ensures |s| > 0 && forall i :: 0 <= i < |s| ==> '0' <= s[i] <= '9'
    ensures n == 0 || s[0] != '0'
    decreases n
  {
    if n < 10 then [DigitChar(n)] else Decimal(n / 10) + [DigitChar(n % 10)]
  }

  /** The number a string of decimal digits spells. */
  function DigitsValue(s: string): nat
    requires forall i :: 0 <= i < |s| ==> '0' <= s[i] <= '9'
    decreases |s|
  {
    if s == [] then 0 else DigitsValue(s[..|s| - 1]) * 10 + (s[|s| - 1] as int - '0' as int)
  }

  /** Reading the digits back gives the number. */
  lemma {:induction false} DecimalRoundTrip(n: nat)
    ensures DigitsValue(Decimal(n)) == n
    decreases n
  {
    if n >= 10 {
      var s := Decimal(n);
      assert s[..|s| - 1] == Decimal(n / 10);
      DecimalRoundTrip(n / 10);
    }
  }

  /** `format!("bytes={}-{}", start, end)`. */
  function RangeValue(start: u64, end: u64): (v: string)
    ensures |v| > 8 && v[..6] == "bytes="
  {
    "bytes=" + Decimal(start) + "-" + Decimal(end)
  }

  /** The first index of `c` in `s`, if any. */
  function IndexOf(s: string, c: char): (r: Option<nat>)
    ensures r.Some? ==> r.value < |s| && s[r.value] == c && c !in s[..r.value]
    ensures r.None? ==> c !in s
    decreases |s|
  {
    if s == [] then None
    else if s[0] == c then Some(0)
    else match IndexOf(s[1..], c)
      case None => None
      case Some(i) =>
        assert s[..i + 1] == [s[0]] + s[1..][..i];
        Some(i + 1)
  }

  predicate AllDigits(s: string) {
    |s| > 0 && forall i :: 0 <= i < |s| ==> '0' <= s[i] <= '9'
  }

  /** A reference reader for single byte ranges: the two bounds of "bytes=<start>-<end>". */
  function ParseRange(v: string): (r: Option<(nat, nat)>)
    ensures r.Some? ==> |v| > 6 && v[..6] == "bytes="
  {
    if |v| < 6 || v[..6] != "bytes=" then None
    else
      var rest := v[6..];
      match IndexOf(rest, '-')
      case None => None
      case Some(i) =>
        var a, b := rest[..i], rest[i + 1..];
        if AllDigits(a) && AllDigits(b) then Some((DigitsValue(a), DigitsValue(b))) else None
  }

  /** The header `range` writes reads back as exactly its two bounds, whatever their order. */
  lemma RangeRoundTrip(start: u64, end: u64)
    ensures ParseRange(RangeValue(start, end)) == Some((start as nat, end as nat))
  {
    var v := RangeValue(start, end);
    var a, b := Decimal(start), Decimal(end);
    assert v[6..] == a + "-" + b;
    assert '-' !in a;
    IndexOfAfterDigits(a, b);
    assert (a + "-" + b)[..|a|] == a;
    assert (a + "-" + b)[|a| + 1..] == b;
    DecimalRoundTrip(start);
    DecimalRoundTrip(end);
  }

  lemma {:induction false} IndexOfAfterDigits(a: string, b: string)
    requires '-' !in a
    ensures IndexOf(a + "-" + b, '-') == Some(|a|)
    decreases |a|
  {
    if a != [] {
      assert (a + "-" + b)[1..] == a[1..] + "-" + b;
      IndexOfAfterDigits(a[1..], b);
    }
  }
}
