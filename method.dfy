/**
 * `src/method.rs`: the crate's own `Method`, six named constants plus a
 * custom method, and its conversion to the HTTP library's method type.
 *
 * The library's method is modelled by its name: `Method::from_bytes`
 * accepts exactly the non-empty sequences of token characters of
 * section 5.6.2 of RFC 9110, and two methods are equal when their names are.
 */
module Method {
  import opened Wrappers
  import opened Bytes

  /** A `tchar` of section 5.6.2 of RFC 9110. */
  predicate IsTokenChar(c: char) {
    ('a' <= c <= 'z') || ('A' <= c <= 'Z') || ('0' <= c <= '9') || c in "!#$%&'*+-.^_`|~"
  }

  predicate IsToken(s: string) {
    |s| > 0 && forall i :: 0 <= i < |s| ==> IsTokenChar(s[i])
  }

  /** The HTTP library's method (`reqwest::Method`): a token naming it. */
  datatype HttpMethod = HttpMethod(name: string)

  type ValidMethod = m: HttpMethod | IsToken(m.name) witness HttpMethod("GET")

  /** The message of the library's `InvalidMethod` error. */
  const InvalidMethodMessage: string := "invalid HTTP method"

  /** `reqwest::Method::from_bytes`: the method named by `src`, or an error when `src` is not a token. */
  function ParseMethod(src: seq<byte>): (r: Result<ValidMethod, string>)
    ensures r.Success? <==> IsToken(Latin1(src))
    ensures r.Success? ==> r.value.name == Latin1(src)
    ensures r.Failure? ==> r.error == InvalidMethodMessage
  {
    var name := Latin1(src);
    if IsToken(name) then Success(HttpMethod(name)) else Failure(InvalidMethodMessage)
  }

  /** The crate's `Method`: the six constants and `Custom` around a parsed library method. */
  datatype Method = Get | Post | Put | Delete | Patch | Propfind | Custom(m: ValidMethod)

  /** `Method::convert`. */
  function Convert(m: Method): ValidMethod {
    match m
    case Get => HttpMethod("GET")
    case Post => HttpMethod("POST")
    case Put => HttpMethod("PUT")
    case Delete => HttpMethod("DELETE")
    case Patch => HttpMethod("PATCH")
    case Propfind => HttpMethod("PROPFIND")
    case Custom(custom) => custom
  }

  /** `Method::from_bytes`. */
  function FromBytes(src: seq<byte>): Result<Method, string> {
    match ParseMethod(src)
    case Success(m) => Success(Custom(m))
    case Failure(e) => Failure(e)
  }

  /** The bytes of an ASCII string. */
  function AsciiBytes(s: string): (bs: seq<byte>)
    requires forall i :: 0 <= i < |s| ==> s[i] as int < 128
    ensures Latin1(bs) == s
  {
    seq(|s|, i requires 0 <= i < |s| => s[i] as int as byte)
  }

  /** `Method::from_bytes(s.as_bytes())` for a string `s`: accepted exactly when `s` is a token. */
  function ParseMethodText(s: string): (r: Result<ValidMethod, string>)
    ensures r.Success? <==> IsToken(s)
    ensures r.Success? ==> r.value.name == s
    ensures r.Failure? ==> r.error == InvalidMethodMessage
  {
    if forall i :: 0 <= i < |s| ==> s[i] as int < 128 then ParseMethod(AsciiBytes(s))
    else Failure(InvalidMethodMessage)
  }

  /** The five standard constants convert to the library's methods of the same name, PROPFIND to the extension method "PROPFIND". */
  lemma ConvertNames()
    ensures Convert(Get).name == "GET" && Convert(Post).name == "POST" && Convert(Put).name == "PUT"
    ensures Convert(Delete).name == "DELETE" && Convert(Patch).name == "PATCH"
    ensures Convert(Propfind).name == "PROPFIND"
    ensures forall m: ValidMethod :: Convert(Custom(m)) == m
  {
  }

  /** No two of the six constants convert to the same library method. */
  lemma ConvertDistinguishesConstants(a: Method, b: Method)
    requires !a.Custom? && !b.Custom? && a != b
    ensures Convert(a) != Convert(b)
  {
  }

  /** `from_bytes` succeeds exactly on tokens, and what it wraps converts back to the method those bytes name. */
  lemma FromBytesRoundTrip(src: seq<byte>)
    ensures FromBytes(src).Success? <==> IsToken(Latin1(src))
    ensures FromBytes(src).Success? ==> Convert(FromBytes(src).value).name == Latin1(src)
    ensures FromBytes(src).Failure? ==> FromBytes(src).error == InvalidMethodMessage
  {
  }

  /** Every converted method can be parsed back from its own name: the name is always a token. */
  lemma ConvertThenParse(m: Method)
    ensures forall i :: 0 <= i < |Convert(m).name| ==> Convert(m).name[i] as int < 128
    ensures FromBytes(AsciiBytes(Convert(m).name)) == Success(Custom(Convert(m)))
  {
    var name := Convert(m).name;
    assert forall i :: 0 <= i < |name| ==> IsTokenChar(name[i]);
  }

  /** The empty byte string and a byte string with a space are not methods. */
  lemma FromBytesRejects()
    ensures FromBytes([]).Failure?
    ensures FromBytes([71, 32, 84]).Failure?   // "G T"
  {
    assert Latin1([71, 32, 84])[1] == ' ';
  }
}
