/**
 * `src/parse.rs`: the older result tree. Its records are those of
 * `src/res/multistatus.rs`; it differs from `Collection` in three ways: the
 * header href is never decoded, child hrefs always are, and a child's content
 * type is present only when the literal collection flag is off.
 */
module Parse {
  import opened Wrappers
  import opened Bytes
  import opened Percent
  import opened Multistatus
  import Collection

  datatype FileNode = FileNode(
    isDir: bool,
    href: Text,
    filename: string,
    lastModified: string,
    len: u64,
    contentType: Option<string>)

  datatype FileTree = FileTree(href: Text, filename: string, children: seq<FileNode>)

  /** `FileTree::default()`. */
  const Empty := FileTree([], "", [])

  /** The closure of the `map`: one node from one response. */
  function ToFileNode(node: DResponse): FileNode {
    var prop := node.propStat.prop;
    FileNode(IsCollection(prop), Collection.DecodeHref(node.href), prop.displayName,
             prop.lastModified, prop.contentLength,
             if !prop.collection then Some(prop.contentType) else None)
  }

  /** `From<Multistatus> for FileTree`. */
  function FromMultistatus(ms: MultiStatus): (t: FileTree)
    ensures ms.response == [] ==> t == Empty
    ensures ms.response != [] ==>
      t.href == ms.response[0].href &&
      t.filename == ms.response[0].propStat.prop.displayName &&
      |t.children| == |ms.response| - 1 &&
      forall i :: 0 <= i < |t.children| ==> t.children[i] == ToFileNode(ms.response[i + 1])
  {
    if ms.response == [] then Empty
    else
      var rest := ms.response[1..];
      FileTree(ms.response[0].href, ms.response[0].propStat.prop.displayName,
               seq(|rest|, i requires 0 <= i < |rest| => ToFileNode(rest[i])))
  }

  /**
   * A node has a content type exactly when the literal collection flag is
   * off, and then it is the response's; `is_dir` is `is_collection`.
   */
  lemma NodeFields(node: DResponse)
    ensures ToFileNode(node).contentType.Some? <==> !node.propStat.prop.collection
    ensures ToFileNode(node).contentType.Some? ==> ToFileNode(node).contentType.value == node.propStat.prop.contentType
    ensures ToFileNode(node).isDir == IsCollection(node.propStat.prop)
  {
  }

  /** A directory known only through its resource type is a directory that still reports a content type. */
  lemma DirectoryByResourceTypeKeepsContentType(node: DResponse)
    requires !node.propStat.prop.collection && HasCollectionMarker(node.propStat.prop.resourceType)
    ensures ToFileNode(node).isDir && ToFileNode(node).contentType == Some(node.propStat.prop.contentType)
  {
  }

  /**
   * The two generations agree: the tree's header is the collection's built
   * without decoding, and each node matches the collection's child built
   * with decoding, except that the node's content type may be absent.
   */
  lemma AgreesWithCollection(ms: MultiStatus)
    ensures var t := FromMultistatus(ms);
      var raw := Collection.FromMultiStatus(ms, false);
      var dec := Collection.FromMultiStatus(ms, true);
      t.href == raw.href && t.filename == raw.displayName && |t.children| == |dec.children| &&
      forall i :: 0 <= i < |t.children| ==>
        t.children[i].isDir == dec.children[i].isCollection &&
        t.children[i].href == dec.children[i].href &&
        t.children[i].filename == dec.children[i].displayName &&
        t.children[i].lastModified == dec.children[i].lastModified &&
        t.children[i].len == dec.children[i].len &&
        (t.children[i].contentType.Some? ==> t.children[i].contentType.value == dec.children[i].contentType)
  {
  }
}
