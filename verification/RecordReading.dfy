/** What the records say, read off the tree of their element: contexts, units, note links
    and metadata, each equal to the fold over its steps. */
module RecordReading {
  import opened Basics
  import opened Wrappers
  import opened Collapse
  import opened Xml
  import opened Records
  import opened StreamBalance

  // ----------------------------------------------------------------- folds over trees

  /** What a record keeps of its steps. */
  function Heard(steps: seq<Step>): seq<Step> {
    if steps == [] then []
    else
      var n := |steps| - 1;
      Heard(steps[..n]) + if steps[n].Ignorable? then [] else [steps[n]]
  }

  lemma {:induction false} HeardConcat(a: seq<Step>, b: seq<Step>)
    ensures Heard(a + b) == Heard(a) + Heard(b)
    decreases |b|
  {
    if b == [] {
      assert a + b == a;
    } else {
      var n := |b| - 1;
      assert (a + b)[..|a| + n] == a + b[..n];
      HeardConcat(a, b[..n]);
    }
  }

  /** A fold that passes over comments does not need them left out. */
  lemma {:induction false} FoldHeard<B(!new)>(f: (B, Step) -> B, b: B, steps: seq<Step>)
    requires forall c: B :: f(c, Ignorable) == c
    ensures FoldSteps(f, b, Heard(steps)) == FoldSteps(f, b, steps)
    decreases |steps|
  {
    if steps != [] {
      var n := |steps| - 1;
      FoldHeard(f, b, steps[..n]);
      var heard := Heard(steps[..n]);
      assert heard + [] == heard;
      assert (heard + [steps[n]])[..|heard|] == heard;
      if steps[n].Ignorable? {
        assert f(FoldSteps(f, b, steps[..n]), steps[n]) == FoldSteps(f, b, steps[..n]);
      }
    }
  }

  lemma {:induction false} FoldConcat<B>(f: (B, Step) -> B, b: B, x: seq<Step>, y: seq<Step>)
    ensures FoldSteps(f, b, x + y) == FoldSteps(f, FoldSteps(f, b, x), y)
    decreases |y|
  {
    if y == [] {
      assert x + y == x;
    } else {
      var n := |y| - 1;
      assert (x + y)[..|x| + n] == x + y[..n];
      FoldConcat(f, b, x, y[..n]);
    }
  }

  lemma FoldOne<B>(f: (B, Step) -> B, b: B, step: Step)
    ensures FoldSteps(f, b, [step]) == f(b, step)
  {
    assert [step][..0] == [];
  }

  lemma FoldElement<B>(f: (B, Step) -> B, b: B, e: Element, kids: seq<Node>)
    ensures FoldSteps(f, b, StepsOfNode(Elem(e, kids))) == f(FoldSteps(f, f(b, Start(e)), StepsOf(kids)), End)
  {
    FoldConcat(f, b, [Start(e)] + StepsOf(kids), [End]);
    FoldConcat(f, b, [Start(e)], StepsOf(kids));
    FoldOne(f, b, Start(e));
    FoldOne(f, FoldSteps(f, b, [Start(e)] + StepsOf(kids)), End);
  }

  // ----------------------------------------------------------------------------- text

  /** What a piece of content that is no element says; a reference nothing resolves
      says nothing. */
  function Said(node: Node): string {
    match node
    case Chars(text, _) => text
    case Ref(_, resolved) => OrEmpty(resolved)
    case _ => ""
  }

  /** What content says at any depth. */
  function Data(nodes: seq<Node>): string
    decreases nodes
  {
    if nodes == [] then "" else DataIn(nodes[0]) + Data(nodes[1..])
  }

  function DataIn(node: Node): string
    decreases node
  {
    match node
    case Elem(_, kids) => Data(kids)
    case _ => Said(node)
  }

  /** What content says itself, between and around its child elements. */
  function Own(nodes: seq<Node>): string
    decreases |nodes|
  {
    if nodes == [] then "" else (if nodes[0].Elem? then "" else Said(nodes[0])) + Own(nodes[1..])
  }

  /** What content says after its last child element; all of it when there is none, and
      then after what was said before. */
  function Tail(before: string, nodes: seq<Node>): string
    decreases |nodes|
  {
    if nodes == [] then before
    else Tail(if nodes[0].Elem? then "" else before + Said(nodes[0]), nodes[1..])
  }

  // ------------------------------------------------------------------------- contexts

  predicate IsMember(e: Element) {
    e.local in {"explicitMember", "typedMember"}
  }

  /** A member element lies in the content, at any depth. */
  predicate HasMember(nodes: seq<Node>)
    decreases nodes
  {
    nodes != [] && (MemberIn(nodes[0]) || HasMember(nodes[1..]))
  }

  predicate MemberIn(node: Node)
    decreases node
  {
    node.Elem? && (IsMember(node.element) || HasMember(node.kids))
  }

  /** A dimension: the axis its element names, and its value. */
  function DimensionOf(e: Element, scenario: bool, value: string): Dimension {
    if e.local == "explicitMember" then Dimension(OrEmpty(e.Get("dimension")), Some(value), None, scenario)
    else Dimension(OrEmpty(e.Get("dimension")), None, Some(value), scenario)
  }

  /** What one element adds to a context its content already added to. A member element
      with another inside it adds nothing. */
  function WithElement(c: Context, scenario: bool, e: Element, kids: seq<Node>): Context {
    var value := Collapsed(Tail("", kids));
    if e.local == "identifier" then c.(entity := Some(value))
    else if e.local == "instant" then c.(period := c.period.(instant := Some(value)))
    else if e.local == "startDate" then c.(period := c.period.(startDate := Some(value)))
    else if e.local == "endDate" then c.(period := c.period.(endDate := Some(value)))
    else if e.local == "forever" then c.(period := c.period.(forever := true))
    else if IsMember(e) && !HasMember(kids) then
      c.(dimensions := c.dimensions + [DimensionOf(e, scenario, value)])
    else c
  }

  /** A context as the tree states it: each element, after its content, adds the text
      that follows its last child element. */
  function ReadContext(c: Context, scenario: bool, nodes: seq<Node>): Context
    decreases nodes
  {
    if nodes == [] then c else ReadContext(ReadContextIn(c, scenario, nodes[0]), scenario, nodes[1..])
  }

  function ReadContextIn(c: Context, scenario: bool, node: Node): Context
    decreases node
  {
    if !node.Elem? then c
    else
      var e := node.element;
      var announced := if e.local == "identifier" then c.(scheme := e.Get("scheme")) else c;
      WithElement(ReadContext(announced, scenario || e.local == "scenario", node.kids), scenario, e, node.kids)
  }

  /** The half-read context after content. */
  function ContextRead(b: ContextBuild, nodes: seq<Node>): ContextBuild {
    ContextBuild(ReadContext(b.context, "scenario" in b.path, nodes), b.path, Tail(b.text, nodes),
                 if HasMember(nodes) then None else b.dimension)
  }

  function ContextReadIn(b: ContextBuild, node: Node): ContextBuild {
    ContextBuild(ReadContextIn(b.context, "scenario" in b.path, node), b.path,
                 if node.Elem? then "" else b.text + Said(node), if MemberIn(node) then None else b.dimension)
  }

  lemma {:induction false} ContextContent(b: ContextBuild, nodes: seq<Node>)
    ensures FoldSteps(ContextStep, b, StepsOf(nodes)) == ContextRead(b, nodes)
    decreases nodes, 0
  {
    if nodes != [] {
      FoldConcat(ContextStep, b, StepsOfNode(nodes[0]), StepsOf(nodes[1..]));
      ContextNode(b, nodes[0]);
      ContextContent(ContextReadIn(b, nodes[0]), nodes[1..]);
    }
  }

  lemma {:induction false} ContextNode(b: ContextBuild, node: Node)
    ensures FoldSteps(ContextStep, b, StepsOfNode(node)) == ContextReadIn(b, node)
    decreases node, 0
  {
    if node.Elem? {
      var a := ContextStep(b, Start(node.element));
      FoldElement(ContextStep, b, node.element, node.kids);
      ContextContent(a, node.kids);
      ContextEnds(b, node.element, node.kids, a, ContextRead(a, node.kids));
    } else {
      FoldOne(ContextStep, b, StepsOfNode(node)[0]);
      ContextLeaf(b, node);
    }
  }

  lemma ContextLeaf(b: ContextBuild, node: Node)
    requires !node.Elem?
    ensures ContextStep(b, StepsOfNode(node)[0]) == ContextReadIn(b, node)
  {
    assert b.text + "" == b.text;
  }

  lemma ContextEnds(b: ContextBuild, e: Element, kids: seq<Node>, a: ContextBuild, d: ContextBuild)
    requires a == ContextStep(b, Start(e)) && d == ContextRead(a, kids)
    ensures ContextStep(d, End) == ContextReadIn(b, Elem(e, kids))
  {
    assert d.path[..|b.path|] == b.path && d.path[|d.path| - 1] == e.local;
    ScenarioDeeper(b.path, e.local);
  }

  lemma ScenarioDeeper(path: seq<string>, local: string)
    ensures "scenario" in path + [local] <==> "scenario" in path || local == "scenario"
  {
  }

  /** A context says what its tree states. */
  lemma ContextIsReading(e: Element, kids: seq<Node>)
    ensures ContextOf(e, Heard(StepsOf(kids))) == ReadContext(NewContext(OrEmpty(e.Get("id"))).context, false, kids)
  {
    FoldHeard(ContextStep, NewContext(OrEmpty(e.Get("id"))), StepsOf(kids));
    ContextContent(NewContext(OrEmpty(e.Get("id"))), kids);
  }

  // ---------------------------------------------------------------------------- units

  /** A unit as the tree states it: each measure goes where the elements around it say,
      with the text that follows its last child element. */
  function ReadUnit(u: Unit, path: seq<string>, nodes: seq<Node>): Unit
    decreases nodes
  {
    if nodes == [] then u else ReadUnit(ReadUnitIn(u, path, nodes[0]), path, nodes[1..])
  }

  function ReadUnitIn(u: Unit, path: seq<string>, node: Node): Unit
    decreases node
  {
    if !node.Elem? then u
    else
      var inner := ReadUnit(u, path + [node.element.local], node.kids);
      if node.element.local != "measure" then inner
      else WithMeasure(inner, path, Collapsed(Tail("", node.kids)))
  }

  function WithMeasure(u: Unit, path: seq<string>, value: string): Unit {
    if "unitNumerator" in path then u.(numerator := u.numerator + [value])
    else if "unitDenominator" in path then u.(denominator := u.denominator + [value])
    else u.(measures := u.measures + [value])
  }

  /** The half-read unit after content. */
  function UnitRead(b: UnitBuild, nodes: seq<Node>): UnitBuild {
    UnitBuild(ReadUnit(b.unit, b.path, nodes), b.path, Tail(b.text, nodes))
  }

  function UnitReadIn(b: UnitBuild, node: Node): UnitBuild {
    UnitBuild(ReadUnitIn(b.unit, b.path, node), b.path, if node.Elem? then "" else b.text + Said(node))
  }

  lemma {:induction false} UnitContent(b: UnitBuild, nodes: seq<Node>)
    ensures FoldSteps(UnitStep, b, StepsOf(nodes)) == UnitRead(b, nodes)
    decreases nodes, 0
  {
    if nodes != [] {
      FoldConcat(UnitStep, b, StepsOfNode(nodes[0]), StepsOf(nodes[1..]));
      UnitNode(b, nodes[0]);
      UnitContent(UnitReadIn(b, nodes[0]), nodes[1..]);
    }
  }

  lemma {:induction false} UnitNode(b: UnitBuild, node: Node)
    ensures FoldSteps(UnitStep, b, StepsOfNode(node)) == UnitReadIn(b, node)
    decreases node, 0
  {
    if node.Elem? {
      var a := UnitStep(b, Start(node.element));
      FoldElement(UnitStep, b, node.element, node.kids);
      UnitContent(a, node.kids);
      assert a.path[..|b.path|] == b.path;
    } else {
      FoldOne(UnitStep, b, StepsOfNode(node)[0]);
      assert b.text + "" == b.text;
    }
  }

  /** A unit says what its tree states. */
  lemma UnitIsReading(e: Element, kids: seq<Node>)
    ensures UnitOf(e, Heard(StepsOf(kids))) == ReadUnit(NewUnit(OrEmpty(e.Get("id"))).unit, [], kids)
  {
    FoldHeard(UnitStep, NewUnit(OrEmpty(e.Get("id"))), StepsOf(kids));
    UnitContent(NewUnit(OrEmpty(e.Get("id"))), kids);
  }

  // ---------------------------------------------------------------------------- notes

  /** A note link as the tree states it, up to the bound on elements: a note takes all
      its content as text, whatever the bound, and nothing inside it declares anything. */
  function ReadLink(b: LinkBuild, nodes: seq<Node>): LinkBuild
    decreases nodes
  {
    if nodes == [] then b else ReadLink(ReadLinkIn(b, nodes[0]), nodes[1..])
  }

  function ReadLinkIn(b: LinkBuild, node: Node): LinkBuild
    decreases node
  {
    if !node.Elem? then b
    else
      var e, c := node.element, b.(elements := b.elements + 1);
      if c.elements > MAX_NOTE_LINK_ELEMENTS then c.(elements := c.elements + Elements(node.kids))
      else if e.local in {"footnote", "label"} then
        c.(elements := c.elements + Elements(node.kids), notes := c.notes + [NoteOf(b.footnote, e, node.kids)])
      else ReadLink(Declared(c, e), node.kids)
  }

  function NoteOf(footnote: bool, e: Element, kids: seq<Node>): XbrlNote {
    XbrlNote(footnote, OrEmpty(e.Get("label")), e.Get("role"), e.Get("lang"), [], Collapsed(Data(kids)))
  }

  /** What a locator or an arc declares. */
  function Declared(b: LinkBuild, e: Element): LinkBuild {
    if e.local == "loc" then b.(locators := b.locators + [(OrEmpty(e.Get("label")), OrEmpty(e.Get("href")))])
    else if e.local in {"footnoteArc", "labelArc"} then
      b.(arcs := b.arcs + [(OrEmpty(e.Get("from")), OrEmpty(e.Get("to")))])
    else b
  }

  /** Content was counted, and what it said went to the note, if one is open. */
  function Unread(b: LinkBuild, text: string, elements: nat): LinkBuild {
    NoteText(b, text).(elements := b.elements + elements)
  }

  lemma UnreadNothing(b: LinkBuild)
    ensures Unread(b, "", 0) == b
  {
    if b.open.Some? {
      assert b.open.value.0.text + "" == b.open.value.0.text;
    }
  }

  lemma UnreadMore(b: LinkBuild, x: string, m: nat, y: string, n: nat)
    ensures Unread(Unread(b, x, m), y, n) == Unread(b, x + y, m + n)
  {
    if b.open.Some? {
      Assoc(b.open.value.0.text, x, y);
    }
  }

  /** Nothing below here is a declaration: a note is open, or the bound is reached. */
  predicate Deaf(b: LinkBuild) {
    && b.depth >= 1 && (b.open.Some? ==> b.depth >= b.open.value.1)
    && (b.open.Some? || b.elements >= MAX_NOTE_LINK_ELEMENTS)
  }

  lemma {:induction false} UnreadContent(b: LinkBuild, nodes: seq<Node>)
    requires Deaf(b)
    ensures FoldSteps(LinkStep, b, StepsOf(nodes)) == Unread(b, Data(nodes), Elements(nodes))
    decreases nodes, 0
  {
    if nodes == [] {
      UnreadNothing(b);
    } else {
      FoldConcat(LinkStep, b, StepsOfNode(nodes[0]), StepsOf(nodes[1..]));
      UnreadNode(b, nodes[0]);
      UnreadContent(Unread(b, DataIn(nodes[0]), ElementsIn(nodes[0])), nodes[1..]);
      UnreadMore(b, DataIn(nodes[0]), ElementsIn(nodes[0]), Data(nodes[1..]), Elements(nodes[1..]));
    }
  }

  lemma {:induction false} UnreadNode(b: LinkBuild, node: Node)
    requires Deaf(b)
    ensures FoldSteps(LinkStep, b, StepsOfNode(node)) == Unread(b, DataIn(node), ElementsIn(node))
    decreases node, 0
  {
    if node.Elem? {
      var a := b.(depth := b.depth + 1, elements := b.elements + 1);
      FoldElement(LinkStep, b, node.element, node.kids);
      UnreadStart(b, node.element, a);
      UnreadContent(a, node.kids);
      UnreadEnd(b, Data(node.kids), Elements(node.kids), Unread(a, Data(node.kids), Elements(node.kids)));
    } else {
      FoldOne(LinkStep, b, StepsOfNode(node)[0]);
      UnreadLeaf(b, node);
    }
  }

  lemma UnreadStart(b: LinkBuild, e: Element, a: LinkBuild)
    requires Deaf(b) && a == b.(depth := b.depth + 1, elements := b.elements + 1)
    ensures LinkStep(b, Start(e)) == a && Deaf(a)
  {
  }

  lemma UnreadEnd(b: LinkBuild, text: string, elements: nat, d: LinkBuild)
    requires Deaf(b) && d == Unread(b.(depth := b.depth + 1, elements := b.elements + 1), text, elements)
    ensures LinkStep(d, End) == Unread(b, text, 1 + elements)
  {
  }

  lemma UnreadLeaf(b: LinkBuild, node: Node)
    requires !node.Elem?
    ensures LinkStep(b, StepsOfNode(node)[0]) == Unread(b, DataIn(node), 0)
  {
    UnreadNothing(b);
  }

  /** Reading a link keeps its kind, and opens nothing it does not close. */
  lemma {:induction false} ReadKeeps(b: LinkBuild, nodes: seq<Node>)
    ensures var c := ReadLink(b, nodes);
      c.depth == b.depth && c.open == b.open && c.footnote == b.footnote
    decreases nodes, 0
  {
    if nodes != [] {
      ReadKeepsIn(b, nodes[0]);
      ReadKeeps(ReadLinkIn(b, nodes[0]), nodes[1..]);
    }
  }

  lemma {:induction false} ReadKeepsIn(b: LinkBuild, node: Node)
    ensures var c := ReadLinkIn(b, node);
      c.depth == b.depth && c.open == b.open && c.footnote == b.footnote
    decreases node, 0
  {
    if node.Elem? {
      ReadKeeps(Declared(b.(elements := b.elements + 1), node.element), node.kids);
    }
  }

  lemma {:induction false} LinkContent(b: LinkBuild, nodes: seq<Node>)
    requires b.depth >= 1 && b.open.None?
    ensures FoldSteps(LinkStep, b, StepsOf(nodes)) == ReadLink(b, nodes)
    decreases nodes, 0
  {
    if nodes != [] {
      FoldConcat(LinkStep, b, StepsOfNode(nodes[0]), StepsOf(nodes[1..]));
      LinkNode(b, nodes[0]);
      ReadKeepsIn(b, nodes[0]);
      LinkContent(ReadLinkIn(b, nodes[0]), nodes[1..]);
    }
  }

  lemma {:induction false} LinkNode(b: LinkBuild, node: Node)
    requires b.depth >= 1 && b.open.None?
    ensures FoldSteps(LinkStep, b, StepsOfNode(node)) == ReadLinkIn(b, node)
    decreases node, 0
  {
    if node.Elem? {
      var e := node.element;
      if b.elements >= MAX_NOTE_LINK_ELEMENTS {
        PastBound(b, e, node.kids);
      } else if e.local in {"footnote", "label"} {
        NoteElement(b, e, node.kids);
      } else {
        DeclaringElement(b, e, node.kids, Declared(b.(elements := b.elements + 1), e));
      }
    } else {
      FoldOne(LinkStep, b, StepsOfNode(node)[0]);
    }
  }

  lemma {:induction false} DeclaringElement(b: LinkBuild, e: Element, kids: seq<Node>, c: LinkBuild)
    requires b.depth >= 1 && b.open.None? && b.elements < MAX_NOTE_LINK_ELEMENTS
    requires e.local !in {"footnote", "label"} && c == Declared(b.(elements := b.elements + 1), e)
    ensures FoldSteps(LinkStep, b, StepsOfNode(Elem(e, kids))) == ReadLink(c, kids)
    decreases kids, 1
  {
    FoldElement(LinkStep, b, e, kids);
    DeclarationOpens(b, e, c);
    LinkContent(c.(depth := c.depth + 1), kids);
    DeclarationCloses(c, kids, ReadLink(c, kids));
  }

  lemma DeclarationOpens(b: LinkBuild, e: Element, c: LinkBuild)
    requires b.open.None? && b.elements < MAX_NOTE_LINK_ELEMENTS && e.local !in {"footnote", "label"}
    requires c == Declared(b.(elements := b.elements + 1), e)
    ensures LinkStep(b, Start(e)) == c.(depth := c.depth + 1) && c.depth == b.depth && c.open.None?
  {
  }

  lemma DeclarationCloses(c: LinkBuild, kids: seq<Node>, d: LinkBuild)
    requires d == ReadLink(c, kids) && c.open.None?
    ensures LinkStep(ReadLink(c.(depth := c.depth + 1), kids), End) == d
  {
    DepthIsAside(c, kids);
    ReadKeeps(c, kids);
  }

  lemma PastBound(b: LinkBuild, e: Element, kids: seq<Node>)
    requires b.depth >= 1 && b.open.None? && b.elements >= MAX_NOTE_LINK_ELEMENTS
    ensures FoldSteps(LinkStep, b, StepsOfNode(Elem(e, kids))) == ReadLinkIn(b, Elem(e, kids))
  {
    UnreadNode(b, Elem(e, kids));
  }

  /** A note just opened, with nothing of its text read. */
  function OpenNote(b: LinkBuild, e: Element): LinkBuild {
    var note := XbrlNote(b.footnote, OrEmpty(e.Get("label")), e.Get("role"), e.Get("lang"), [], "");
    b.(depth := b.depth + 1, elements := b.elements + 1, open := Some((note, b.depth + 1)))
  }

  lemma NoteElement(b: LinkBuild, e: Element, kids: seq<Node>)
    requires b.depth >= 1 && b.open.None? && b.elements < MAX_NOTE_LINK_ELEMENTS && e.local in {"footnote", "label"}
    ensures FoldSteps(LinkStep, b, StepsOfNode(Elem(e, kids))) == ReadLinkIn(b, Elem(e, kids))
  {
    FoldElement(LinkStep, b, e, kids);
    NoteOpens(b, e);
    UnreadContent(OpenNote(b, e), kids);
    NoteEnds(b, e, kids, Unread(OpenNote(b, e), Data(kids), Elements(kids)));
  }

  lemma NoteOpens(b: LinkBuild, e: Element)
    requires b.open.None? && b.elements < MAX_NOTE_LINK_ELEMENTS && e.local in {"footnote", "label"}
    ensures LinkStep(b, Start(e)) == OpenNote(b, e)
  {
  }

  lemma NoteEnds(b: LinkBuild, e: Element, kids: seq<Node>, d: LinkBuild)
    requires b.open.None? && b.elements < MAX_NOTE_LINK_ELEMENTS && e.local in {"footnote", "label"}
    requires d == Unread(OpenNote(b, e), Data(kids), Elements(kids))
    ensures LinkStep(d, End) == ReadLinkIn(b, Elem(e, kids))
  {
    assert "" + Data(kids) == Data(kids);
  }

  /** How deep the reading stands is no part of what it reads. */
  lemma {:induction false} DepthIsAside(b: LinkBuild, nodes: seq<Node>)
    ensures ReadLink(b.(depth := b.depth + 1), nodes) == ReadLink(b, nodes).(depth := ReadLink(b, nodes).depth + 1)
    decreases nodes
  {
    if nodes != [] {
      if nodes[0].Elem? {
        DepthIsAside(Declared(b.(elements := b.elements + 1), nodes[0].element), nodes[0].kids);
      }
      DepthIsAside(ReadLinkIn(b, nodes[0]), nodes[1..]);
    }
  }

  /** The notes of a link are those its tree states, each with the targets its arcs
      lead to. */
  lemma NotesAreReading(footnote: bool, kids: seq<Node>)
    ensures NotesOf(footnote, Heard(StepsOf(kids))) == Targeted(ReadLink(NewLink(footnote), kids))
  {
    FoldHeard(LinkStep, NewLink(footnote), StepsOf(kids));
    LinkContent(NewLink(footnote), kids);
  }

  // ------------------------------------------------------------------------- metadata

  /** The leaves of metadata content, each element after those inside it. */
  function LeavesOf(nodes: seq<Node>): seq<Leaf>
    decreases nodes
  {
    if nodes == [] then [] else LeavesIn(nodes[0]) + LeavesOf(nodes[1..])
  }

  function LeavesIn(node: Node): seq<Leaf>
    decreases node
  {
    match node
    case Elem(e, kids) => LeavesOf(kids) + [Leaf(e, Collapsed(Own(kids)))]
    case _ => []
  }

  /** The words of metadata content after those before it. Directly in the record every
      piece of text is words of its own, and a reference says nothing. */
  function Spoken(before: string, nodes: seq<Node>, direct: bool): string
    decreases nodes
  {
    if nodes == [] then before else Spoken(SpokenIn(before, nodes[0], direct), nodes[1..], direct)
  }

  function SpokenIn(before: string, node: Node, direct: bool): string
    decreases node
  {
    match node
    case Elem(_, kids) => PushWords(Spoken(before, kids, false), Collapsed(Own(kids)))
    case Chars(text, _) => if direct then PushWords(before, Collapsed(text)) else before
    case _ => before
  }

  /** The record with leaves, words and elements added. */
  function MetaMore(b: MetaBuild, leaves: seq<Leaf>, text: string, elements: nat): MetaBuild {
    MetaBuild(MetaTree(b.tree.leaves + leaves, text), b.open, b.elements + elements)
  }

  /** The half-read record after content: its leaves and words, and what the content
      says itself added to the element it is in. */
  function MetaRead(b: MetaBuild, nodes: seq<Node>): MetaBuild {
    MetaInner(MetaMore(b, LeavesOf(nodes), Spoken(b.tree.text, nodes, b.open == []), Elements(nodes)), Own(nodes))
  }

  function MetaReadIn(b: MetaBuild, node: Node): MetaBuild {
    MetaInner(MetaMore(b, LeavesIn(node), SpokenIn(b.tree.text, node, b.open == []), ElementsIn(node)),
              if node.Elem? then "" else Said(node))
  }

  lemma MetaInnerNothing(b: MetaBuild)
    ensures MetaInner(b, "") == b
  {
    if b.open != [] {
      var n := |b.open| - 1;
      assert b.open[n].text + "" == b.open[n].text;
      assert b.open[n := b.open[n]] == b.open;
    }
  }

  lemma MetaInnerMore(b: MetaBuild, x: string, y: string)
    ensures MetaInner(MetaInner(b, x), y) == MetaInner(b, x + y)
  {
    if b.open != [] {
      var n := |b.open| - 1;
      Assoc(b.open[n].text, x, y);
    }
  }

  lemma {:induction false} MetaContent(b: MetaBuild, nodes: seq<Node>)
    requires b.elements + Elements(nodes) <= MAX_META_ELEMENTS
    ensures FoldSteps(MetaStep, b, StepsOf(nodes)) == MetaRead(b, nodes)
    decreases nodes, 0
  {
    if nodes == [] {
      assert b.tree.leaves + [] == b.tree.leaves;
      MetaInnerNothing(b);
    } else {
      FoldConcat(MetaStep, b, StepsOfNode(nodes[0]), StepsOf(nodes[1..]));
      MetaNode(b, nodes[0]);
      MetaContent(MetaReadIn(b, nodes[0]), nodes[1..]);
      MetaReadMore(b, nodes, MetaReadIn(b, nodes[0]));
    }
  }

  lemma MetaTwice(
    b: MetaBuild, leaves: seq<Leaf>, text: string, elements: nat, own: string,
    leaves': seq<Leaf>, text': string, elements': nat, own': string)
    ensures MetaInner(MetaMore(MetaInner(MetaMore(b, leaves, text, elements), own), leaves', text', elements'), own')
      == MetaInner(MetaMore(b, leaves + leaves', text', elements + elements'), own + own')
  {
    Assoc(b.tree.leaves, leaves, leaves');
    MetaInnerMore(MetaMore(b, leaves + leaves', text', elements + elements'), own, own');
  }

  lemma MetaReadMore(b: MetaBuild, nodes: seq<Node>, c: MetaBuild)
    requires nodes != [] && c == MetaReadIn(b, nodes[0])
    ensures MetaRead(c, nodes[1..]) == MetaRead(b, nodes)
  {
    var node, rest := nodes[0], nodes[1..];
    var text := SpokenIn(b.tree.text, node, b.open == []);
    assert c.tree.text == text && (c.open == [] <==> b.open == []);
    MetaTwice(b, LeavesIn(node), text, ElementsIn(node), if node.Elem? then "" else Said(node),
              LeavesOf(rest), Spoken(text, rest, b.open == []), Elements(rest), Own(rest));
    UnrolledReading(nodes);
    assert Spoken(b.tree.text, nodes, b.open == []) == Spoken(text, rest, b.open == []);
  }

  lemma UnrolledReading(nodes: seq<Node>)
    requires nodes != []
    ensures LeavesOf(nodes) == LeavesIn(nodes[0]) + LeavesOf(nodes[1..])
    ensures Own(nodes) == (if nodes[0].Elem? then "" else Said(nodes[0])) + Own(nodes[1..])
    ensures Elements(nodes) == ElementsIn(nodes[0]) + Elements(nodes[1..])
  {
  }

  lemma {:induction false} MetaNode(b: MetaBuild, node: Node)
    requires b.elements + ElementsIn(node) <= MAX_META_ELEMENTS
    ensures FoldSteps(MetaStep, b, StepsOfNode(node)) == MetaReadIn(b, node)
    decreases node, 0
  {
    if node.Elem? {
      var a := MetaStep(b, Start(node.element));
      FoldElement(MetaStep, b, node.element, node.kids);
      MetaContent(a, node.kids);
      MetaEnds(b, node.element, node.kids, a);
    } else {
      FoldOne(MetaStep, b, StepsOfNode(node)[0]);
      MetaLeaf(b, node);
    }
  }

  lemma MetaLeaf(b: MetaBuild, node: Node)
    requires !node.Elem?
    ensures MetaStep(b, StepsOfNode(node)[0]) == MetaReadIn(b, node)
  {
    assert b.tree.leaves + [] == b.tree.leaves;
    MetaInnerNothing(b);
  }

  lemma MetaEnds(b: MetaBuild, e: Element, kids: seq<Node>, a: MetaBuild)
    requires a == MetaStep(b, Start(e)) && b.elements < MAX_META_ELEMENTS
    ensures MetaStep(MetaRead(a, kids), End) == MetaReadIn(b, Elem(e, kids))
  {
    var n, d := |b.open|, MetaRead(a, kids);
    assert "" + Own(kids) == Own(kids);
    assert d.open[n] == Leaf(e, Own(kids)) && d.open[..n] == b.open;
    Assoc(b.tree.leaves, LeavesOf(kids), [Leaf(e, Collapsed(Own(kids)))]);
    MetaInnerNothing(MetaStep(d, End));
  }

  /** Up to the bound on elements a metadata record is its tree: its leaves from the
      inside out, and its words. */
  lemma MetaIsReading(kids: seq<Node>)
    requires Elements(kids) <= MAX_META_ELEMENTS
    ensures TreeOf(Heard(StepsOf(kids))) == MetaTree(LeavesOf(kids), Spoken("", kids, true))
  {
    FoldHeard(MetaStep, NEW_META, StepsOf(kids));
    MetaContent(NEW_META, kids);
    assert [] + LeavesOf(kids) == LeavesOf(kids);
  }
}
