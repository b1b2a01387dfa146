/**
 * `src/res/multistatus.rs`: the decoded shape of a 207 Multi-Status body
 * (section 13 of RFC 4918) and the one decision taken on it, whether a
 * response describes a collection. The older `src/parse.rs` declares the
 * same records field for field, so both generations share these shapes.
 */
module Multistatus {
  import opened Wrappers
  import opened Bytes
  import opened Percent

  /** `<resourcetype>`: only whether a `<collection>` marker is present is kept. */
  datatype ResourceType = ResourceType(collection: Option<string>)

  /** `<prop>`, with every optional element already given its default. */
  datatype Prop = Prop(
    displayName: string,
    contentType: string,
    lastModified: string,
    contentLength: u64,
    collection: bool,
    resourceType: Option<ResourceType>)

  datatype PropStat = PropStat(prop: Prop, status: string)

  /** One `<response>`: its raw `href` and its `<propstat>`. */
  datatype DResponse = DResponse(href: Text, propStat: PropStat)

  /** `<multistatus>`: the responses in document order. */
  datatype MultiStatus = MultiStatus(response: seq<DResponse>)

  /** The resource type carries a `<collection>` marker. */
  predicate HasCollectionMarker(rt: Option<ResourceType>) {
    rt.Some? && rt.value.collection.Some?
  }

  /** `Prop::is_collection`: the literal flag, or a collection marker in the resource type. */
  predicate IsCollection(p: Prop) {
    p.collection || HasCollectionMarker(p.resourceType)
  }

  /**
   * The four cases of `is_collection`: the flag alone decides when it is set,
   * the marker alone when it is not, and with neither the answer is no.
   */
  lemma IsCollectionCases(p: Prop)
    ensures p.collection ==> IsCollection(p)
    ensures !p.collection && p.resourceType.Some? && p.resourceType.value.collection.Some? ==> IsCollection(p)
    ensures !p.collection && p.resourceType.None? ==> !IsCollection(p)
    ensures !p.collection && p.resourceType.Some? && p.resourceType.value.collection.None? ==> !IsCollection(p)
  {
  }

  /** Changing the resource type never changes the answer for a prop whose flag is set. */
  lemma FlagDominates(p: Prop, rt: Option<ResourceType>)
    requires p.collection
    ensures IsCollection(p.(resourceType := rt)) == IsCollection(p)
  {
  }
}
