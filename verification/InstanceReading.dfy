/** The facts and notes of an XBRL instance, read off its tree: each fact with its own
    content as value and with the context and the unit declared last, before it, under the
    names it gives. */
module InstanceReading {
  import opened Basics
  import opened Wrappers
  import opened Collapse
  import opened Xml
  import opened Records
  import opened RecordReading
  import opened Stream
  import opened StreamFaults
  import opened StreamModes
  import opened StreamBalance
  import opened StreamText
  import opened TreeReading
  import Generic

  // ---------------------------------------------------------------- parts of an instance

  predicate InInstance(e: Element) {
    e.namespace == "http://www.xbrl.org/2003/instance"
  }

  predicate IsContext(e: Element) {
    InInstance(e) && e.local == "context"
  }

  predicate IsUnit(e: Element) {
    InInstance(e) && e.local == "unit"
  }

  /** Whatever else refers to a context is a fact. */
  predicate IsFact(e: Element) {
    !IsContext(e) && !IsUnit(e) && e.Get("contextRef") != None
  }

  /** An element read whole, or passed over: not one whose content is read on. */
  predicate IsPart(e: Element) {
    IsFact(e) || InInstance(e) || e.namespace == "http://www.xbrl.org/2003/linkbase"
  }

  datatype Part = Part(element: Element, kids: seq<Node>)

  /** The parts of content in document order, however deep they are grouped. */
  function Parts(nodes: seq<Node>): seq<Part>
    decreases nodes
  {
    if nodes == [] then [] else PartsIn(nodes[0]) + Parts(nodes[1..])
  }

  function PartsIn(node: Node): seq<Part>
    decreases node
  {
    match node
    case Elem(e, kids) => if IsPart(e) then [Part(e, kids)] else Parts(kids)
    case _ => []
  }

  function NameOf(e: Element): string {
    if e.Get("id") == None then "" else e.Get("id").value
  }

  /** What a context element says, from nothing on. */
  function ContextSaid(p: Part): Context {
    ReadContext(Context(NameOf(p.element), None, None, Period(None, None, None, false), []), false, p.kids)
  }

  function UnitSaid(p: Part): Unit {
    ReadUnit(Unit(NameOf(p.element), [], [], []), [], p.kids)
  }

  /** The last context declared under the name. */
  function LastContext(parts: seq<Part>, name: string): Option<Context> {
    if parts == [] then None
    else
      var last := parts[|parts| - 1];
      if IsContext(last.element) && NameOf(last.element) == name then Some(ContextSaid(last))
      else LastContext(parts[..|parts| - 1], name)
  }

  function LastUnit(parts: seq<Part>, name: string): Option<Unit> {
    if parts == [] then None
    else
      var last := parts[|parts| - 1];
      if IsUnit(last.element) && NameOf(last.element) == name then Some(UnitSaid(last))
      else LastUnit(parts[..|parts| - 1], name)
  }

  /** A fact as the tree states it. */
  datatype Stated = Stated(element: Element, value: string, context: Option<Context>, unit: Option<Unit>)

  function StatedBy(before: seq<Part>, p: Part): Stated {
    var context, unit := p.element.Get("contextRef"), p.element.Get("unitRef");
    Stated(p.element, Collapsed(Generic.CharacterData(p.kids)),
           if context == None then None else LastContext(before, context.value),
           if unit == None then None else LastUnit(before, unit.value))
  }

  /** The facts among the parts, in order. */
  function FactsStated(parts: seq<Part>): seq<Stated> {
    if parts == [] then []
    else
      var before, last := parts[..|parts| - 1], parts[|parts| - 1];
      FactsStated(before) + if IsFact(last.element) then [StatedBy(before, last)] else []
  }

  /** The facts that were sent. */
  function FactsSent(out: seq<Event>): seq<Stated> {
    if out == [] then []
    else
      var e := out[|out| - 1];
      FactsSent(out[..|out| - 1]) + if e.Fact? then [Stated(e.element, e.value, e.context, e.unit)] else []
  }

  /** The notes a part states, where it is a link of footnotes or of labels. */
  function NotesIn(p: Part): seq<XbrlNote> {
    if !IsPart(p.element) || IsContext(p.element) || IsUnit(p.element) || IsFact(p.element) then []
    else if p.element.local in {"footnoteLink", "labelLink"} then
      Targeted(ReadLink(LinkBuild(p.element.local == "footnoteLink", [], [], [], None, 1, 0), p.kids))
    else []
  }

  function NotesStated(parts: seq<Part>): seq<XbrlNote> {
    if parts == [] then [] else NotesStated(parts[..|parts| - 1]) + NotesIn(parts[|parts| - 1])
  }

  /** The notes that were sent. */
  function NotesSent(out: seq<Event>): seq<XbrlNote> {
    if out == [] then []
    else NotesSent(out[..|out| - 1]) + if out[|out| - 1].NoteItem? then [out[|out| - 1].note] else []
  }

  // --------------------------------------------------------------------------- the proof

  lemma {:induction false} ContextKeepsName(c: Context, scenario: bool, nodes: seq<Node>)
    ensures ReadContext(c, scenario, nodes).id == c.id
    decreases nodes, 0
  {
    if nodes != [] {
      ContextKeepsNameIn(c, scenario, nodes[0]);
      ContextKeepsName(ReadContextIn(c, scenario, nodes[0]), scenario, nodes[1..]);
    }
  }

  lemma {:induction false} ContextKeepsNameIn(c: Context, scenario: bool, node: Node)
    ensures ReadContextIn(c, scenario, node).id == c.id
    decreases node, 0
  {
    if node.Elem? {
      var e := node.element;
      var announced := if e.local == "identifier" then c.(scheme := e.Get("scheme")) else c;
      ContextKeepsName(announced, scenario || e.local == "scenario", node.kids);
    }
  }

  lemma {:induction false} UnitKeepsName(u: Unit, path: seq<string>, nodes: seq<Node>)
    ensures ReadUnit(u, path, nodes).id == u.id
    decreases nodes, 0
  {
    if nodes != [] {
      UnitKeepsNameIn(u, path, nodes[0]);
      UnitKeepsName(ReadUnitIn(u, path, nodes[0]), path, nodes[1..]);
    }
  }

  lemma {:induction false} UnitKeepsNameIn(u: Unit, path: seq<string>, node: Node)
    ensures ReadUnitIn(u, path, node).id == u.id
    decreases node, 0
  {
    if node.Elem? {
      UnitKeepsName(u, path + [node.element.local], node.kids);
    }
  }

  /** The pass has sent the facts of the parts and knows what they declared. */
  ghost predicate Knows(s: State, parts: seq<Part>) {
    && FactsSent(s.out) == FactsStated(parts) && NotesSent(s.out) == NotesStated(parts)
    && (forall name :: Named(s.kept.contexts, Some(name)) == LastContext(parts, name))
    && (forall name :: Named(s.kept.units, Some(name)) == LastUnit(parts, name))
  }

  /** Nothing about facts or notes has changed. */
  predicate NoFacts(s: State, t: State) {
    t.kept == s.kept && FactsSent(t.out) == FactsSent(s.out) && NotesSent(t.out) == NotesSent(s.out)
  }

  lemma SentSnoc(out: seq<Event>, e: Event)
    ensures FactsSent(out + [e]) ==
      FactsSent(out) + if e.Fact? then [Stated(e.element, e.value, e.context, e.unit)] else []
    ensures NotesSent(out + [e]) == NotesSent(out) + if e.NoteItem? then [e.note] else []
  {
    assert (out + [e])[..|out|] == out;
  }

  lemma {:induction false} NotesGoOut(out: seq<Event>, notes: seq<XbrlNote>)
    ensures FactsSent(out + NoteItems(notes)) == FactsSent(out)
    ensures NotesSent(out + NoteItems(notes)) == NotesSent(out) + notes
    decreases |notes|
  {
    if notes == [] {
      assert out + NoteItems(notes) == out;
    } else {
      var n := |notes| - 1;
      NotesGoOut(out, notes[..n]);
      assert NoteItems(notes) == NoteItems(notes[..n]) + [NoteItem(notes[n])];
      Assoc(out, NoteItems(notes[..n]), [NoteItem(notes[n])]);
      SentSnoc(out + NoteItems(notes[..n]), NoteItem(notes[n]));
      assert notes == notes[..n] + [notes[n]];
    }
  }

  lemma FlushOwnNoFacts(s: State, closing: bool)
    ensures NoFacts(s, FlushOwn(s, closing))
  {
    if FlushOwn(s, closing).out != s.out {
      SentSnoc(s.out, FlushOwn(s, closing).out[|s.out|]);
    }
  }

  lemma LeaveNoFacts(s: State)
    ensures NoFacts(s, Leave(s))
  {
    var c := UncountElement(s);
    var t := if c.pending.Some? && |c.stack| == c.pending.value.wrapperDepth then FlushPending(c) else c;
    if t.out != s.out {
      SentSnoc(s.out, t.out[|s.out|]);
    }
    FlushOwnNoFacts(t, true);
  }

  lemma Unchanged(s: State, t: State, parts: seq<Part>)
    requires Knows(s, parts) && NoFacts(s, t)
    ensures Knows(t, parts)
  {
  }

  /** A declaration under a name takes the place of what was declared before. */
  lemma Redeclared<T>(declared: map<string, T>, key: string, value: T, name: string)
    ensures Named(declared[key := value], Some(name)) ==
      if name == key then Some(value) else Named(declared, Some(name))
  {
  }

  lemma PartsSnoc(parts: seq<Part>, p: Part, name: string)
    ensures LastContext(parts + [p], name) ==
      if IsContext(p.element) && NameOf(p.element) == name then Some(ContextSaid(p)) else LastContext(parts, name)
    ensures LastUnit(parts + [p], name) ==
      if IsUnit(p.element) && NameOf(p.element) == name then Some(UnitSaid(p)) else LastUnit(parts, name)
    ensures FactsStated(parts + [p]) == FactsStated(parts) + if IsFact(p.element) then [StatedBy(parts, p)] else []
    ensures NotesStated(parts + [p]) == NotesStated(parts) + NotesIn(p)
  {
    assert (parts + [p])[..|parts|] == parts;
  }

  lemma ContextKnown(s: State, parts: seq<Part>, p: Part, t: State)
    requires Knows(s, parts) && IsContext(p.element) && !IsFact(p.element) && t.out == s.out
    requires var c := ContextSaid(p);
      t.kept.contexts == s.kept.contexts[c.id := c] && t.kept.units == s.kept.units
    ensures Knows(t, parts + [p])
  {
    var c := ContextSaid(p);
    ContextKeepsName(Context(NameOf(p.element), None, None, Period(None, None, None, false), []), false, p.kids);
    PartsSnoc(parts, p, "");
    forall name
      ensures Named(t.kept.contexts, Some(name)) == LastContext(parts + [p], name)
      ensures Named(t.kept.units, Some(name)) == LastUnit(parts + [p], name)
    {
      PartsSnoc(parts, p, name);
      Redeclared(s.kept.contexts, c.id, c, name);
    }
  }

  lemma UnitKnown(s: State, parts: seq<Part>, p: Part, t: State)
    requires Knows(s, parts) && IsUnit(p.element) && !IsFact(p.element) && t.out == s.out
    requires var u := UnitSaid(p); t.kept.units == s.kept.units[u.id := u] && t.kept.contexts == s.kept.contexts
    ensures Knows(t, parts + [p])
  {
    var u := UnitSaid(p);
    UnitKeepsName(Unit(NameOf(p.element), [], [], []), [], p.kids);
    PartsSnoc(parts, p, "");
    forall name
      ensures Named(t.kept.contexts, Some(name)) == LastContext(parts + [p], name)
      ensures Named(t.kept.units, Some(name)) == LastUnit(parts + [p], name)
    {
      PartsSnoc(parts, p, name);
      Redeclared(s.kept.units, u.id, u, name);
    }
  }

  lemma FactKnown(s: State, parts: seq<Part>, p: Part, t: State)
    requires Knows(s, parts) && IsFact(p.element) && t.kept == s.kept
    requires t == FactSent(s, p.element, Generic.CharacterData(p.kids))
    ensures Knows(t, parts + [p])
  {
    SentSnoc(s.out, t.out[|s.out|]);
    PartsSnoc(parts, p, "");
    forall name
      ensures Named(t.kept.contexts, Some(name)) == LastContext(parts + [p], name)
      ensures Named(t.kept.units, Some(name)) == LastUnit(parts + [p], name)
    {
      PartsSnoc(parts, p, name);
    }
  }

  lemma OtherKnown(s: State, parts: seq<Part>, p: Part, t: State)
    requires Knows(s, parts) && t.kept == s.kept && FactsSent(t.out) == FactsSent(s.out)
    requires NotesSent(t.out) == NotesSent(s.out) + NotesIn(p)
    requires !IsFact(p.element) && !IsContext(p.element) && !IsUnit(p.element)
    ensures Knows(t, parts + [p])
  {
    PartsSnoc(parts, p, "");
    assert FactsStated(parts) + [] == FactsStated(parts);
    forall name
      ensures Named(t.kept.contexts, Some(name)) == LastContext(parts + [p], name)
      ensures Named(t.kept.units, Some(name)) == LastUnit(parts + [p], name)
    {
      PartsSnoc(parts, p, name);
    }
  }

  lemma WholeKnown(s: State, e: Element, kids: seq<Node>, parts: seq<Part>)
    requires IsPart(e) && Knows(s, parts)
    ensures Knows(ReadWhole(s, e, kids), parts + [Part(e, kids)])
  {
    hide Knows;
    var t, p := ReadWhole(s, e, kids), Part(e, kids);
    if IsContext(e) {
      ContextKnown(s, parts, p, t);
    } else if IsUnit(e) {
      UnitKnown(s, parts, p, t);
    } else if IsFact(e) {
      var c := Counted(s, 1 + Elements(kids));
      Unchanged(s, c, parts);
      FactKnown(c, parts, p, t);
    } else {
      OthersSendNotes(s, e, kids);
      OtherKnown(s, parts, p, t);
    }
  }

  lemma OthersSendNotes(s: State, e: Element, kids: seq<Node>)
    requires IsPart(e) && !IsContext(e) && !IsUnit(e) && !IsFact(e)
    ensures var t := ReadWhole(s, e, kids);
      && t.kept == s.kept && FactsSent(t.out) == FactsSent(s.out)
      && NotesSent(t.out) == NotesSent(s.out) + NotesIn(Part(e, kids))
  {
    assert NotesSent(s.out) + [] == NotesSent(s.out);
    NotesGoOut(s.out, NotesIn(Part(e, kids)));
  }

  lemma {:induction false} ContentKnown(rules: Rules, s: State, nodes: seq<Node>, parts: seq<Part>)
    requires rules.xbrl && Knows(s, parts)
    ensures Knows(ReadAll(rules, s, nodes), parts + Parts(nodes))
    decreases nodes, 0
  {
    hide Knows;
    if nodes == [] {
      assert parts + [] == parts;
    } else {
      NodeKnown(rules, s, nodes[0], parts);
      ContentKnown(rules, ReadNode(rules, s, nodes[0]), nodes[1..], parts + PartsIn(nodes[0]));
      Assoc(parts, PartsIn(nodes[0]), Parts(nodes[1..]));
    }
  }

  lemma {:induction false} NodeKnown(rules: Rules, s: State, node: Node, parts: seq<Part>)
    requires rules.xbrl && Knows(s, parts)
    ensures Knows(ReadNode(rules, s, node), parts + PartsIn(node))
    decreases node, 0
  {
    hide Knows;
    if !node.Elem? {
      assert parts + [] == parts;
      Unchanged(s, ReadNode(rules, s, node), parts);
    } else if IsPart(node.element) {
      WholeKnown(s, node.element, node.kids, parts);
    } else {
      var d := Descended(rules, s, node.element);
      Unchanged(s, d, parts);
      ContentKnown(rules, d, node.kids, parts);
      LeaveNoFacts(ReadAll(rules, d, node.kids));
      Unchanged(ReadAll(rules, d, node.kids), Leave(ReadAll(rules, d, node.kids)), parts + Parts(node.kids));
    }
  }

  /** The facts a run over an instance without a fault sends are those its tree states, in
      document order: each with its content, and with the context and the unit declared
      last before it under the names it gives, or none where nothing was. The notes it
      sends are those its links state. */
  lemma FactsAreThoseStated(rules: Rules, root: Element, kids: seq<Node>)
    requires Sane(rules) && rules.xbrl && FaultIn(rules, Deciding, [root.local], 1, kids).None?
    ensures FactsSent(Parse(rules, root, StepsOf(kids) + [End]).out) == FactsStated(Parts(kids))
    ensures NotesSent(Parse(rules, root, StepsOf(kids) + [End]).out) == NotesStated(Parts(kids))
  {
    var b := Begin(rules, root);
    RunIsReading(rules, root, kids);
    BeginKnows(rules, root);
    ContentKnown(rules, b, kids, []);
    assert [] + Parts(kids) == Parts(kids);
    var a := ReadAll(rules, b, kids);
    LeaveNoFacts(a);
    var l := Leave(a);
    if l.progress == Closed {
      SentSnoc(l.out, Status(l.counts));
    }
  }

  lemma BeginKnows(rules: Rules, root: Element)
    ensures Knows(Begin(rules, root), [])
  {
    assert [Info(root)][..0] == [];
  }
}
