/** An abstract view of the IXML document tree the SOAP helpers walk. A node
    has an optional name (ixmlNode_getNodeName may return NULL), an optional
    value (text nodes carry one, elements do not), a namespace, attributes and
    the list that ixmlNode_getChildNodes returns for it. That list may be
    absent (NULL) and its entries may be NULL: the library represents a node
    without children by a one-entry list whose only item is NULL, which is
    where the decoders' "NULL at index 0 means no arguments" rule comes from. */
module Ixml {
  import opened Common

  datatype Node = Node(
    name: Option<string>,
    namespaceUri: string,
    value: Option<string>,
    attributes: map<string, string>,
    kids: Option<seq<Option<Node>>>)

  /** ixmlNode_getFirstChild: the first entry of the child list, if any. */
  function FirstChild(n: Node): (c: Option<Node>) {
    match n.kids
    case None => None
    case Some(l) => if |l| == 0 then None else l[0]
  }

  /** The child list the library builds for the given children: an empty
      list is reported as one NULL entry. */
  function ChildList(cs: seq<Node>): (l: Option<seq<Option<Node>>>)
    ensures l.Some?
    ensures cs == [] ==> l.value == [None]
    ensures cs != [] ==> |l.value| == |cs| && forall i :: 0 <= i < |cs| ==> l.value[i] == Some(cs[i])
  {
    if cs == [] then Some([None]) else Some(seq(|cs|, i requires 0 <= i < |cs| => Some(cs[i])))
  }

  /** A text node holding `v`. */
  function TextNode(v: string): (n: Node) {
    Node(Some("#text"), "", Some(v), map[], ChildList([]))
  }

  /** An element named `tag` whose only child is a text node holding `v`. */
  function TextElement(tag: string, v: string): (n: Node) {
    Node(Some(tag), "", None, map[], ChildList([TextNode(v)]))
  }
}
