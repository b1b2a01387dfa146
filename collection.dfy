/**
 * `src/res/collection.rs`: the result tree of a PROPFIND. The first response
 * describes the requested collection itself; every later one becomes a child.
 * Whether hrefs are percent-decoded is a compile-time feature (`decode_url`),
 * modelled as a parameter.
 */
module Collection {
  import opened Bytes
  import opened Percent
  import opened Multistatus

  datatype Resource = Resource(
    isCollection: bool,
    href: Text,
    displayName: string,
    lastModified: string,
    len: u64,
    contentType: string)

  datatype Collection = Collection(href: Text, displayName: string, children: seq<Resource>)

  /** `Collection::default()`. */
  const Empty := Collection([], "", [])

  /**
   * `percent_decode_str(h).decode_utf8()`, falling back to `h`: the decoded
   * href when it is well-formed UTF-8, otherwise the raw href.
   */
  function DecodeHref(raw: Text): (h: Text)
    ensures ValidUtf8(PercentDecode(raw)) ==> h == PercentDecode(raw)
    ensures !ValidUtf8(PercentDecode(raw)) ==> h == raw
    ensures |h| <= |raw|
    ensures PercentSign !in raw ==> h == raw
  {
    DecodeNotLonger(raw);
    DecodeWithoutPercent(raw);
    var d := PercentDecode(raw);
    if ValidUtf8(d) then d else raw
  }

  /** An href as the `decode_url` feature leaves it. */
  function Href(raw: Text, decodeUrl: bool): Text {
    if decodeUrl then DecodeHref(raw) else raw
  }

  /** The closure of the `map`: one child from one response. */
  function ToResource(node: DResponse, decodeUrl: bool): Resource {
    var prop := node.propStat.prop;
    Resource(IsCollection(prop), Href(node.href, decodeUrl), prop.displayName,
             prop.lastModified, prop.contentLength, prop.contentType)
  }

  /** `From<MultiStatus> for Collection`. */
  function FromMultiStatus(ms: MultiStatus, decodeUrl: bool): (c: Collection)
    ensures ms.response == [] ==> c == Empty
    ensures ms.response != [] ==>
      c.href == Href(ms.response[0].href, decodeUrl) &&
      c.displayName == ms.response[0].propStat.prop.displayName &&
      |c.children| == |ms.response| - 1 &&
      forall i :: 0 <= i < |c.children| ==> c.children[i] == ToResource(ms.response[i + 1], decodeUrl)
  {
    if ms.response == [] then Empty
    else
      var rest := ms.response[1..];
      Collection(Href(ms.response[0].href, decodeUrl),
                 ms.response[0].propStat.prop.displayName,
                 seq(|rest|, i requires 0 <= i < |rest| => ToResource(rest[i], decodeUrl)))
  }

  /**
   * Child `i` is built from response `i + 1`: its collection bit is that
   * response's `is_collection`, its href the response's href (decoded under
   * the feature), and its other four fields are copied unchanged.
   */
  lemma ChildrenFollowResponses(ms: MultiStatus, decodeUrl: bool, i: nat)
    requires i + 1 < |ms.response|
    ensures var child := FromMultiStatus(ms, decodeUrl).children[i];
      var node := ms.response[i + 1];
      child.isCollection == IsCollection(node.propStat.prop) &&
      (decodeUrl ==> child.href == DecodeHref(node.href)) &&
      (!decodeUrl ==> child.href == node.href) &&
      child.displayName == node.propStat.prop.displayName &&
      child.lastModified == node.propStat.prop.lastModified &&
      child.len == node.propStat.prop.contentLength &&
      child.contentType == node.propStat.prop.contentType
  {
  }

  /** Prepending a header response never changes the children built from the rest. */
  lemma HeaderDoesNotReachChildren(h1: DResponse, h2: DResponse, rest: seq<DResponse>, decodeUrl: bool)
    ensures FromMultiStatus(MultiStatus([h1] + rest), decodeUrl).children ==
            FromMultiStatus(MultiStatus([h2] + rest), decodeUrl).children
  {
    var a := FromMultiStatus(MultiStatus([h1] + rest), decodeUrl).children;
    var b := FromMultiStatus(MultiStatus([h2] + rest), decodeUrl).children;
    assert |a| == |b|;
    forall i | 0 <= i < |a| ensures a[i] == b[i] {
      assert ([h1] + rest)[i + 1] == rest[i] == ([h2] + rest)[i + 1];
    }
  }

  /** A server href that percent-encodes a name decodes back to that name. */
  lemma DecodeHrefOfEncoded(name: Text)
    ensures DecodeHref(EncodeText(name)) == name
  {
  }

  /** An href whose escapes do not spell UTF-8 is kept raw: "%FF" decodes to the lone byte 0xFF and stays "%FF". */
  lemma DecodeHrefFallsBack(raw: Text)
    requires raw == [37, 70, 70]
    ensures PercentDecode(raw) == [255] && !ValidUtf8(PercentDecode(raw))
    ensures DecodeHref(raw) == raw
  {
    assert PercentDecode(raw) == [255] + PercentDecode(raw[3..]);
    assert Utf8SequenceLength([255]) == 0;
  }
}
