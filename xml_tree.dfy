/**
 * A loaded XmlDocument as a tree: elements with attribute maps, text and
 * comments. Whitespace-only text is absent, as XmlDocument.Load drops it. The
 * XPath queries the aggregator issues become walks over this tree.
 */
module XmlTree {
  import opened Wrappers

  datatype Node =
    | Element(tag: string, attrs: map<string, string>, children: seq<Node>)
    | Text(text: string)
    | Comment(lines: seq<string>)

  /** node.Attributes[name], None for a missing attribute (or a node without attributes). */
  function Attr(n: Node, name: string): Option<string>
  {
    if n.Element? && name in n.attrs then Some(n.attrs[name]) else None
  }

  /** The child elements named tag, in document order (the XPath step "tag"). */
  function ChildElements(children: seq<Node>, tag: string): (r: seq<Node>)
    ensures forall k :: 0 <= k < |r| ==> r[k] in children && r[k].Element? && r[k].tag == tag
    ensures forall j :: 0 <= j < |children| && children[j].Element? && children[j].tag == tag ==> children[j] in r
    ensures r != [] ==> exists j :: (0 <= j < |children| && r[0] == children[j]
      && forall i :: 0 <= i < j ==> !(children[i].Element? && children[i].tag == tag))
    ensures |r| <= |children|
    decreases |children|
  {
    if children == [] then []
    else
      var rest := ChildElements(children[1..], tag);
      if children[0].Element? && children[0].tag == tag then [children[0]] + rest else rest
  }

  /**
   * Document order: the matches among the children of a + b are those among
   * a, followed by those among b.
   */
  lemma {:induction false} ChildElementsAppend(a: seq<Node>, b: seq<Node>, tag: string)
    ensures ChildElements(a + b, tag) == ChildElements(a, tag) + ChildElements(b, tag)
    decreases |a|
  {
    if a == [] {
      assert a + b == b;
    } else {
      assert (a + b)[1..] == a[1..] + b;
      ChildElementsAppend(a[1..], b, tag);
    }
  }

  /** The nodes a relative location path of child steps selects from the given context nodes. */
  function SelectAll(context: seq<Node>, path: seq<string>): seq<Node>
    decreases |path|, |context|
  {
    if path == [] then context
    else if context == [] then []
    else
      var here := if context[0].Element? then ChildElements(context[0].children, path[0]) else [];
      SelectAll(here, path[1..]) + SelectAll(context[1..], path)
  }

  /** SelectSingleNode(path): the first selected node in document order. */
  function SelectSingle(n: Node, path: seq<string>): Option<Node>
  {
    var all := SelectAll([n], path);
    if all == [] then None else Some(all[0])
  }

  /** What a path selects below an element depends only on its children, not its tag or attributes. */
  lemma SelectSingleOfChildren(m: Node, n: Node, path: seq<string>)
    requires m.Element? && n.Element? && m.children == n.children && path != []
    ensures SelectSingle(m, path) == SelectSingle(n, path)
  {
    assert SelectAll([m], path) == SelectAll(ChildElements(m.children, path[0]), path[1..]) + SelectAll([], path);
    assert SelectAll([n], path) == SelectAll(ChildElements(n.children, path[0]), path[1..]) + SelectAll([], path);
  }

  /** XmlNode.InnerText: the text below a node, comments excluded. */
  function InnerText(n: Node): string
    decreases n
  {
    match n
    case Element(_, _, children) => InnerTextAll(children)
    case Text(t) => t
    case Comment(_) => ""
  }

  function InnerTextAll(ns: seq<Node>): string
    decreases ns
  {
    if ns == [] then "" else InnerText(ns[0]) + InnerTextAll(ns[1..])
  }

  /** The elements named tag at or below n, in document order (the XPath "//tag" over n). */
  function Descendants(n: Node, tag: string): (r: seq<Node>)
    ensures forall k :: 0 <= k < |r| ==> r[k].Element? && r[k].tag == tag
    decreases n
  {
    match n
    case Element(t, _, children) => (if t == tag then [n] else []) + DescendantsAll(children, tag)
    case _ => []
  }

  function DescendantsAll(ns: seq<Node>, tag: string): (r: seq<Node>)
    ensures forall k :: 0 <= k < |r| ==> r[k].Element? && r[k].tag == tag
    decreases ns
  {
    if ns == [] then [] else Descendants(ns[0], tag) + DescendantsAll(ns[1..], tag)
  }

  /** The node reached from n by following child indices, None when an index is out of range. */
  function NodeAt(n: Node, path: seq<nat>): Option<Node>
    decreases |path|
  {
    if path == [] then Some(n)
    else if n.Element? && path[0] < |n.children| then NodeAt(n.children[path[0]], path[1..])
    else None
  }

  lemma {:induction false} DescendantsAllContains(ns: seq<Node>, k: nat, tag: string, x: Node)
    requires k < |ns| && x in Descendants(ns[k], tag)
    ensures x in DescendantsAll(ns, tag)
    decreases |ns|
  {
    if k > 0 {
      DescendantsAllContains(ns[1..], k - 1, tag, x);
    }
  }

  /** The walk is complete: an element named tag is found at whatever depth it sits. */
  lemma {:induction false} DescendantsComplete(n: Node, path: seq<nat>, tag: string)
    requires NodeAt(n, path).Some?
    requires NodeAt(n, path).value.Element? && NodeAt(n, path).value.tag == tag
    ensures NodeAt(n, path).value in Descendants(n, tag)
    decreases |path|
  {
    if path != [] {
      var child := n.children[path[0]];
      DescendantsComplete(child, path[1..], tag);
      DescendantsAllContains(n.children, path[0], tag, NodeAt(n, path).value);
    }
  }
}
