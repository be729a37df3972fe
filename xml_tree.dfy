/** The part of LINQ to XML that the status parser uses, over a plain tree:
    `Descendants(name).FirstOrDefault()`, `Attribute(name)`, `Value` and
    `ElementsAfterSelf()`. Parsing text into the tree is not modelled. */
module XmlTree {
  import opened Wrappers

  datatype XAttribute = XAttribute(name: string, value: string)

  datatype XNode =
    | Element(name: string, attributes: seq<XAttribute>, children: seq<XNode>)
    | Text(text: string)

  /** An `XDocument` with its single root element. */
  datatype XDocument = XDocument(root: XNode)

  /** A found element together with the elements that follow it among its
      siblings, which is what `ElementsAfterSelf()` enumerates. */
  datatype Hit = Hit(element: XNode, after: seq<XNode>)

  /** The elements among `nodes`, in order. */
  function ElementsOf(nodes: seq<XNode>): (r: seq<XNode>)
    ensures |r| <= |nodes|
    ensures forall i :: 0 <= i < |r| ==> r[i].Element? && r[i] in nodes
    ensures forall n :: n in nodes && n.Element? ==> n in r
  {
    if nodes == [] then []
    else (if nodes[0].Element? then [nodes[0]] else []) + ElementsOf(nodes[1..])
  }

  /** `element.Attribute(name)?.Value`: the first attribute of that name. */
  function AttributeValue(attributes: seq<XAttribute>, name: string): (r: Option<string>)
    ensures r.Some? <==> exists i :: 0 <= i < |attributes| && attributes[i].name == name
    ensures r.Some? ==> exists i :: 0 <= i < |attributes| && attributes[i].name == name && attributes[i].value == r.value
  {
    if attributes == [] then None
    else if attributes[0].name == name then Some(attributes[0].value)
    else AttributeValue(attributes[1..], name)
  }

  function Attribute(e: XNode, name: string): Option<string> {
    if e.Element? then AttributeValue(e.attributes, name) else None
  }

  /** `XElement.Value`: the text of all descendant text nodes, in document order. */
  function Value(n: XNode): string {
    match n
    case Text(t) => t
    case Element(_, _, children) => ValueOf(children)
  }

  function ValueOf(nodes: seq<XNode>): string {
    if nodes == [] then [] else Value(nodes[0]) + ValueOf(nodes[1..])
  }

  /** Every element of the forest `nodes` in document order, each with the
      elements that follow it among its siblings. */
  function Preorder(nodes: seq<XNode>): seq<Hit> {
    if nodes == [] then []
    else
      match nodes[0]
      case Text(_) => Preorder(nodes[1..])
      case Element(_, _, children) =>
        [Hit(nodes[0], ElementsOf(nodes[1..]))] + Preorder(children) + Preorder(nodes[1..])
  }

  predicate Named(n: XNode, name: string) {
    n.Element? && n.name == name
  }

  function FirstNamed(hits: seq<Hit>, name: string): (r: Option<Hit>)
    ensures r.Some? ==> r.value in hits && Named(r.value.element, name)
    ensures r.None? ==> forall h :: h in hits ==> !Named(h.element, name)
  {
    if hits == [] then None
    else if Named(hits[0].element, name) then Some(hits[0])
    else FirstNamed(hits[1..], name)
  }

  lemma {:induction false} FirstNamedAppend(a: seq<Hit>, b: seq<Hit>, name: string)
    ensures FirstNamed(a + b, name) == if FirstNamed(a, name).Some? then FirstNamed(a, name) else FirstNamed(b, name)
  {
    if a == [] {
      assert a + b == b;
    } else {
      assert (a + b)[0] == a[0];
      assert (a + b)[1..] == a[1..] + b;
      FirstNamedAppend(a[1..], b, name);
    }
  }

  /** `Descendants(name).FirstOrDefault()` over the forest `nodes` (the
      forest's own elements included), searched depth first. */
  function FindFirst(nodes: seq<XNode>, name: string): Option<Hit>
    decreases nodes
  {
    if nodes == [] then None
    else
      match nodes[0]
      case Text(_) => FindFirst(nodes[1..], name)
      case Element(n, _, children) =>
        if n == name then Some(Hit(nodes[0], ElementsOf(nodes[1..])))
        else
          match FindFirst(children, name)
          case Some(h) => Some(h)
          case None => FindFirst(nodes[1..], name)
  }

  /** The depth-first search finds exactly the first element of that name in
      document order, and finds nothing iff there is none. */
  lemma {:induction false} FindFirstIsDocumentOrder(nodes: seq<XNode>, name: string)
    ensures FindFirst(nodes, name) == FirstNamed(Preorder(nodes), name)
    decreases nodes
  {
    if nodes != [] {
      match nodes[0]
      case Text(_) =>
        FindFirstIsDocumentOrder(nodes[1..], name);
      case Element(n, _, children) =>
        var head := Hit(nodes[0], ElementsOf(nodes[1..]));
        FindFirstIsDocumentOrder(children, name);
        FindFirstIsDocumentOrder(nodes[1..], name);
        FirstNamedAppend([head] + Preorder(children), Preorder(nodes[1..]), name);
        FirstNamedAppend([head], Preorder(children), name);
    }
  }

  /** `doc.Descendants(name).FirstOrDefault()`: the root element counts. */
  function DocumentFind(doc: XDocument, name: string): Option<Hit> {
    FindFirst([doc.root], name)
  }

  /** `e.Descendants(name).FirstOrDefault()`: `e` itself does not count. */
  function DescendantFind(e: XNode, name: string): Option<Hit> {
    if e.Element? then FindFirst(e.children, name) else None
  }
}
