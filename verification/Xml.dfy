/** What the pull parser hands over: elements, the steps of a forward pass, and
    the well-formed content those steps spell out. */
module Xml {
  import opened Wrappers

  datatype Element = Element(namespace: string, local: string, qname: string, attrs: seq<(string, string)>)
  {
    /** An attribute's value, looked up by the name as written and then by local name. */
    function Get(name: string): Option<string> {
      var exact := Lookup(attrs, name);
      if exact.Some? then exact else LookupLocal(attrs, name)
    }
  }

  function Lookup(attrs: seq<(string, string)>, name: string): Option<string> {
    if attrs == [] then None
    else if attrs[0].0 == name then Some(attrs[0].1)
    else Lookup(attrs[1..], name)
  }

  function LookupLocal(attrs: seq<(string, string)>, name: string): Option<string> {
    if attrs == [] then None
    else if LocalPart(attrs[0].0) == name then Some(attrs[0].1)
    else LookupLocal(attrs[1..], name)
  }

  /** What follows the last colon of a name; the whole name when it has none. */
  function LocalPart(name: string): string {
    if ':' !in name then name else LocalPart(name[1..])
  }

  /** One event of the forward pass; comments and instructions are Ignorable. A DOCTYPE
      is refused when it asks for what the policy does not do, and may name a public
      identifier. */
  datatype Step =
    | Start(element: Element)
    | End
    | Text(text: string)
    | CData(text: string)
    | GeneralRef(name: string, resolved: Option<string>)
    | Ignorable
    | Declaration
    | DocType(refused: bool, publicId: Option<string>)
    | Eof

  /** A reference as text: what it resolves to, or itself as it was written. */
  function ReferenceText(name: string, resolved: Option<string>): string {
    if resolved.Some? then resolved.value else "&" + name + ";"
  }

  /** Balanced content. A stray is a declaration, or a DOCTYPE, which has no place in
      content; everything else is well-formed. */
  datatype Node =
    | Chars(text: string, cdata: bool)
    | Ref(name: string, resolved: Option<string>)
    | Note
    | Stray(doctype: bool)
    | Elem(element: Element, kids: seq<Node>)

  function StepsOf(nodes: seq<Node>): seq<Step>
    decreases nodes
  {
    if nodes == [] then []
    else StepsOfNode(nodes[0]) + StepsOf(nodes[1..])
  }

  function StepsOfNode(node: Node): seq<Step>
    decreases node
  {
    match node
    case Chars(text, cdata) => [if cdata then CData(text) else Text(text)]
    case Ref(name, resolved) => [GeneralRef(name, resolved)]
    case Note => [Ignorable]
    case Stray(doctype) => [if doctype then DocType(false, None) else Declaration]
    case Elem(element, kids) => [Start(element)] + StepsOf(kids) + [End]
  }

  /** Content with no stray at any depth. */
  predicate Clean(nodes: seq<Node>)
    decreases nodes
  {
    nodes == [] || (CleanNode(nodes[0]) && Clean(nodes[1..]))
  }

  predicate CleanNode(node: Node)
    decreases node
  {
    match node
    case Stray(_) => false
    case Elem(_, kids) => Clean(kids)
    case _ => true
  }
}
