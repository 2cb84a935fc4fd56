/** The pass as a reading of the tree, for any dialect: what each element sends is
    stated by recursion over its content, and the pass over a document without a fault
    is that reading. */
module TreeReading {
  import opened Basics
  import opened Wrappers
  import opened Collapse
  import opened Xml
  import opened Flatten
  import opened Records
  import opened RecordReading
  import opened Stream
  import opened StreamBalance
  import opened StreamModes
  import opened StreamFaults
  import opened StreamText
  import Document
  import Generic

  // ------------------------------------------------------------------- what is claimed

  /** An island's text: what it says, with a space at every tag. */
  function IslandText(nodes: seq<Node>): string
    decreases nodes
  {
    if nodes == [] then "" else IslandTextIn(nodes[0]) + IslandText(nodes[1..])
  }

  function IslandTextIn(node: Node): string
    decreases node
  {
    match node
    case Elem(_, kids) => " " + IslandText(kids) + " "
    case _ => Generic.MoreText(node)
  }

  function ReadIsland(s: State, e: Element, kids: seq<Node>): State {
    IslandSent(s, e, IslandText(kids) + " ")
  }

  function IslandSent(s: State, e: Element, text: string): State {
    s.(index := s.index + 1, counts := s.counts.(islands := s.counts.islands + 1),
       out := s.out + [Island(s.index, e, Collapsed(text))])
  }

  function ReadFact(s: State, e: Element, kids: seq<Node>): State {
    FactSent(s, e, Generic.CharacterData(kids))
  }

  function FactSent(s: State, e: Element, text: string): State {
    var context, unit := Named(s.kept.contexts, e.Get("contextRef")), Named(s.kept.units, e.Get("unitRef"));
    s.(index := s.index + 1, counts := s.counts.(facts := s.counts.facts + 1),
       out := s.out + [Fact(s.index, e, context, unit, Collapsed(text))])
  }

  /** The text and runs of a captured element, as the law of captures has them. */
  function TextOf(rules: Rules, open: seq<string>, kids: seq<Node>): (string, seq<InlineSpan>) {
    Finished(Poured(open, EMPTY, kids, rules.inline, rules.inlineSpans))
  }

  /** A captured element, over the state its parent's own text left: one item, unless it
      is blank. Its level counts the sections around it and its list is the innermost. */
  function ReadCapture(rules: Rules, s: State, e: Element, kids: seq<Node>, spec: Spec): State {
    var (text, spans) := TextOf(rules, s.Open() + [e.local], kids);
    var stack := s.stack + [Frame(e.local, None, None)];
    var level := if spec.level.None? && spec.kind.SectionHeader? then Some(Max(SectionsOpen(stack, rules.sections), 1))
                 else spec.level;
    var list := if spec.kind.ListItem? then OpenList(stack) else None;
    if text == "" then s
    else
      EmitItem(
        s, TextItem(spec.kind, spec.role, text, level, spec.ordinal, e, spans, list, AnyCdata(kids)), false)
  }

  /** A caption waits for a table; one that waited already goes out as an item first. */
  function ReadCaption(rules: Rules, s: State, e: Element, kids: seq<Node>): State {
    var (text, spans) := TextOf(rules, s.Open() + [e.local], kids);
    if text == "" then s
    else FlushPending(s).(pending := Some(PendingCaption(text, spans, e, AnyCdata(kids), |s.stack|)))
  }

  // ---------------------------------------------------------------------------- tables

  /** A cell as its element states it. */
  function CellOf(rules: Rules, t: TableBuild, open: seq<string>, e: Element, kids: seq<Node>): TableCell {
    var (text, spans) := TextOf(rules, open + [e.local], kids);
    TableCell(if t.row.Some? then t.row.value.nextColumn else 0, text, ColumnSpan(e), RowSpan(e),
              e.local in HEADER_CELL_ELEMENTS || t.headerSections > 0, spans)
  }

  /** A cell joins the open row; outside a row it is dropped. */
  function WithCell(t: TableBuild, cell: TableCell): TableBuild {
    if t.row.None? then t
    else
      t.(row := Some(t.row.value.(cells := t.row.value.cells + [cell],
                                  nextColumn := SatU32(cell.columnIndex + cell.columnSpan))))
  }

  /** The rows that the content of a table makes, and the table after them. */
  function ReadRows(rules: Rules, t: TableBuild, open: seq<string>, nodes: seq<Node>): (TableBuild, seq<Event>)
    decreases nodes, 0
  {
    if nodes == [] then (t, [])
    else
      var (u, first) := ReadRowsIn(rules, t, open, nodes[0]);
      var (v, rest) := ReadRows(rules, u, open, nodes[1..]);
      (v, first + rest)
  }

  function ReadRowsIn(rules: Rules, t: TableBuild, open: seq<string>, node: Node): (TableBuild, seq<Event>)
    decreases node, 0
  {
    if !node.Elem? then (t, [])
    else if node.element.local in CELL_ELEMENTS then
      (WithCell(t, CellOf(rules, t, open, node.element, node.kids)), [])
    else
      var (u, rows) := ReadRows(rules, Entered(t, node.element), open + [node.element.local], node.kids);
      (Left(u, node.element).0, rows + Left(u, node.element).1)
  }

  /** What the start tag of a table's own structure does. */
  function Entered(t: TableBuild, e: Element): TableBuild {
    if e.local in COLUMN_SPEC_ELEMENTS then t.(columns := AddColumns(t.columns, ColumnsDeclared(e)))
    else if e.local in HEADER_SECTION_ELEMENTS then t.(headerSections := t.headerSections + 1)
    else if e.local in ROW_ELEMENTS then t.(row := Some(Row(t.headerSections > 0, [], 0)))
    else t
  }

  /** What its end tag does: a header section ends, or the open row does, and goes out
      unless it is empty. */
  function Left(t: TableBuild, e: Element): (TableBuild, seq<Event>) {
    if e.local in HEADER_SECTION_ELEMENTS then
      (t.(headerSections := if t.headerSections > 0 then t.headerSections - 1 else 0), [])
    else if e.local in ROW_ELEMENTS && t.row.Some? then
      var row := t.row.value;
      if row.cells == [] then (t.(row := None), [])
      else (t.(row := None, columnCount := Max(t.columnCount, RowWidth(row.cells)), rowIndex := t.rowIndex + 1),
            [TableRow(t.reference, t.rowIndex, row.isHeader || AllHeaders(row.cells), row.cells)])
    else (t, [])
  }

  /** A table about to be read. */
  function EmptyTable(s: State): TableBuild {
    TableBuild(|s.stack| + 1, s.counts.tables + 1, 0, 0, 0, None, None, [])
  }

  /** A whole table: it takes the caption that waits, then come its rows, then its end. */
  function ReadTable(rules: Rules, s: State, e: Element, kids: seq<Node>): State {
    var (t, rows) := ReadRows(rules, EmptyTable(s), s.Open() + [e.local], kids);
    TableSent(s, e, rows, t)
  }

  function TableSent(s: State, e: Element, rows: seq<Event>, t: TableBuild): State {
    var n := s.counts.tables + 1;
    var caption := if s.pending.Some? then Some(s.pending.value.text) else None;
    s.(pending := None, index := s.index + 1,
       counts := s.counts.(tables := n, tableRows := s.counts.tableRows + |rows|),
       out := s.out + [TableStart(s.index, n, caption, e)] + rows
                    + [TableEnd(n, t.rowIndex, t.columnCount, t.columns)])
  }

  // --------------------------------------------------------------------------- records

  function ReadRecord(s: State, kind: RecordKind, e: Element, kids: seq<Node>): State {
    var n := s.counts.records;
    match kind
    case ContextRecord =>
      var c := ReadContext(NewContext(OrEmpty(e.Get("id"))).context, false, kids);
      Keep(s, s.kept.(contexts := s.kept.contexts[c.id := c]), n.(contexts := n.contexts + 1))
    case UnitRecord =>
      var u := ReadUnit(NewUnit(OrEmpty(e.Get("id"))).unit, [], kids);
      Keep(s, s.kept.(units := s.kept.units[u.id := u]), n.(units := n.units + 1))
    case NoteRecord(footnote) =>
      var notes := Targeted(ReadLink(NewLink(footnote), kids));
      Keep(s, s.kept, n.(notes := n.notes + |notes|)).(out := s.out + NoteItems(notes))
    case MetaRecord(shape) =>
      Keep(s, s.kept, n.(metaItems := n.metaItems + 1)).(
        out := s.out + [MetaItem(e, shape, TreeOf(Heard(StepsOf(kids))))])
  }

  /** How many elements a record counts as visited, besides its own. */
  function Tallied(kind: RecordKind, kids: seq<Node>): nat {
    if kind.Tallied() then Elements(kids) else 0
  }

  // ------------------------------------------------------------------------ the reading

  /** Content the rules decide about. */
  function ReadAll(rules: Rules, s: State, nodes: seq<Node>): State
    decreases nodes, 0
  {
    if nodes == [] then s else ReadAll(rules, ReadNode(rules, s, nodes[0]), nodes[1..])
  }

  function ReadNode(rules: Rules, s: State, node: Node): State
    decreases node
  {
    match node
    case Chars(text, cdata) => AppendOwn(s, text, cdata)
    case Ref(name, resolved) => AppendOwn(s, ReferenceText(name, resolved), false)
    case Elem(e, kids) => ReadElement(rules, s, e, kids)
    case Note => s
    case Stray(_) => s
  }

  function ReadElement(rules: Rules, s: State, e: Element, kids: seq<Node>): State
    decreases kids, 1
  {
    if AttentionTo(rules, Deciding, s.Open(), e).Deciding? then Leave(ReadAll(rules, Descended(rules, s, e), kids))
    else if rules.xbrl then ReadWhole(s, e, kids)
    else ReadMapped(rules, FlushOwn(s, false), e, kids)
  }

  /** An element that a rule maps, over the state its parent's own text left. */
  function ReadMapped(rules: Rules, s: State, e: Element, kids: seq<Node>): State {
    var all := Counted(s, 1 + Elements(kids));
    if rules.islands && e.namespace == NS_XHTML then ReadIsland(all, e, kids)
    else
      match rules.action(s.Open(), e)
      case Table => ReadTable(rules, all, e, kids)
      case Caption => ReadCaption(rules, all, e, kids)
      case Capture(spec) => ReadCapture(rules, all, e, kids, spec)
      case Meta(shape) => if rules.metadata then ReadMeta(s, shape, e, kids) else all
      case _ => all
  }

  function ReadMeta(s: State, shape: Shape, e: Element, kids: seq<Node>): State {
    ReadRecord(Counted(s, 1 + Tallied(MetaRecord(shape), kids)), MetaRecord(shape), e, kids)
  }

  /** An element of an XBRL instance that is read or dropped whole. */
  function ReadWhole(s: State, e: Element, kids: seq<Node>): State {
    match ReadingOf(e)
    case ReadFact => ReadFact(Counted(s, 1 + Elements(kids)), e, kids)
    case ReadRecord(kind) => ReadRecord(Counted(s, 1 + Tallied(kind, kids)), kind, e, kids)
    case _ => Counted(s, 1 + Elements(kids))
  }

  /** An element whose content the rules go on deciding about: it is open now. */
  function Descended(rules: Rules, s: State, e: Element): State {
    var c := CountElement(s);
    if rules.xbrl then Push(c, e)
    else
      var t, action := FlushOwn(c, false), rules.action(s.Open(), e);
      if action.AttrText? then AttributeItem(rules, t, action.kind, action.role, action.attr, e)
      else Enter(rules, t, e)
  }

  /** It closes: a caption still waiting for its table goes out, and then what is left of
      its own text, or its attributes if it was silent. */
  function Leave(s: State): State {
    PlainEnd(UncountElement(s))
  }

  /** A whole document. */
  function ReadDocument(rules: Rules, root: Element, kids: seq<Node>): State {
    Finish(Leave(ReadAll(rules, Begin(rules, root), kids)))
  }

  // ------------------------------------------------------------ what is not mapped

  /** The state further on in a subtree that is dropped. */
  lemma {:induction false} DroppedContent(rules: Rules, s: State, nodes: seq<Node>)
    requires s.progress == Running && s.skipping > 0 && s.kept.record.None? && !TooDeep(s, Depth(nodes))
    ensures OnSteps(rules, s, StepsOf(nodes)) == Counted(s, Elements(nodes))
    decreases nodes, 0
  {
    if nodes != [] {
      OnStepsConcat(rules, s, StepsOfNode(nodes[0]), StepsOf(nodes[1..]));
      DroppedNode(rules, s, nodes[0]);
      DroppedContent(rules, Counted(s, ElementsIn(nodes[0])), nodes[1..]);
    }
  }

  lemma {:induction false} DroppedNode(rules: Rules, s: State, node: Node)
    requires s.progress == Running && s.skipping > 0 && s.kept.record.None? && !TooDeep(s, DepthOf(node))
    ensures OnSteps(rules, s, StepsOfNode(node)) == Counted(s, ElementsIn(node))
    decreases node, 0
  {
    if node.Elem? {
      var a := OnStep(rules, s, Start(node.element));
      OnElement(rules, s, node.element, node.kids);
      DroppedContent(rules, a, node.kids);
    } else {
      OnStepsOne(rules, s, StepsOfNode(node)[0]);
    }
  }

  /** The state further on in a record: its steps are kept, and counted if it counts. */
  function MoreRead(s: State, steps: seq<Step>, elements: nat): State
    requires s.kept.record.Some?
  {
    var r := s.kept.record.value;
    Counted(s, if r.kind.Tallied() then elements else 0).(
      kept := s.kept.(record := Some(r.(read := r.read + Heard(steps)))))
  }

  lemma MoreReadTwice(s: State, x: seq<Step>, m: nat, y: seq<Step>, n: nat)
    requires s.kept.record.Some?
    ensures MoreRead(MoreRead(s, x, m), y, n) == MoreRead(s, x + y, m + n)
  {
    HeardConcat(x, y);
    Assoc(s.kept.record.value.read, Heard(x), Heard(y));
  }

  lemma HeardOne(step: Step)
    ensures Heard([step]) == if step.Ignorable? then [] else [step]
  {
    assert [step][..0] == [];
  }

  lemma MoreReadOne(rules: Rules, s: State, step: Step)
    requires s.progress == Running && s.skipping > 0 && s.kept.record.Some?
    requires step.Text? || step.CData? || step.GeneralRef? || step.Ignorable?
    ensures OnStep(rules, s, step) == MoreRead(s, [step], 0)
  {
    HeardOne(step);
    var read := s.kept.record.value.read;
    assert read + [] == read;
  }

  lemma {:induction false} RecordedContent(rules: Rules, s: State, nodes: seq<Node>)
    requires s.progress == Running && s.skipping > 0 && s.kept.record.Some? && !TooDeep(s, Depth(nodes)) && Clean(nodes)
    ensures OnSteps(rules, s, StepsOf(nodes)) == MoreRead(s, StepsOf(nodes), Elements(nodes))
    decreases nodes, 0
  {
    hide OnStep;
    if nodes == [] {
      var read := s.kept.record.value.read;
      assert read + [] == read;
    } else {
      OnStepsConcat(rules, s, StepsOfNode(nodes[0]), StepsOf(nodes[1..]));
      RecordedNode(rules, s, nodes[0]);
      RecordedContent(rules, MoreRead(s, StepsOfNode(nodes[0]), ElementsIn(nodes[0])), nodes[1..]);
      MoreReadTwice(s, StepsOfNode(nodes[0]), ElementsIn(nodes[0]), StepsOf(nodes[1..]), Elements(nodes[1..]));
    }
  }

  lemma {:induction false} RecordedNode(rules: Rules, s: State, node: Node)
    requires s.progress == Running && s.skipping > 0 && s.kept.record.Some? && !TooDeep(s, DepthOf(node))
    requires CleanNode(node)
    ensures OnSteps(rules, s, StepsOfNode(node)) == MoreRead(s, StepsOfNode(node), ElementsIn(node))
    decreases node, 0
  {
    hide OnStep;
    if node.Elem? {
      var a := OnStep(rules, s, Start(node.element));
      var b := OnSteps(rules, a, StepsOf(node.kids));
      OnElement(rules, s, node.element, node.kids);
      RecordedElement(rules, s, node.element, node.kids, a, b, OnStep(rules, b, End));
    } else {
      OnStepsOne(rules, s, StepsOfNode(node)[0]);
      MoreReadOne(rules, s, StepsOfNode(node)[0]);
    }
  }

  lemma {:induction false} RecordedElement(
    rules: Rules, s: State, e: Element, kids: seq<Node>, a: State, b: State, u: State)
    requires s.progress == Running && s.skipping > 0 && s.kept.record.Some? && !TooDeep(s, 1 + Depth(kids))
    requires Clean(kids) && a == OnStep(rules, s, Start(e))
    requires b == OnSteps(rules, a, StepsOf(kids)) && u == OnStep(rules, b, End)
    ensures u == MoreRead(s, [Start(e)] + StepsOf(kids) + [End], 1 + Elements(kids))
    decreases kids, 1
  {
    hide OnStep;
    InnerStart(rules, s, e);
    RecordedContent(rules, a, kids);
    InnerContent(s, e, StepsOf(kids), Elements(kids), a);
    InnerEnd(rules, s, [Start(e)] + StepsOf(kids), 1 + Elements(kids),
             s.kept.record.value.read + Heard([Start(e)] + StepsOf(kids)));
  }

  lemma InnerContent(s: State, e: Element, steps: seq<Step>, elements: nat, a: State)
    requires s.kept.record.Some?
    requires a == MoreRead(s, [Start(e)], 1).(openElements := s.openElements + 1, skipping := s.skipping + 1)
    ensures MoreRead(a, steps, elements) == MoreRead(s, [Start(e)] + steps, 1 + elements).(
      openElements := s.openElements + 1, skipping := s.skipping + 1)
  {
    MoreReadTwice(s, [Start(e)], 1, steps, elements);
  }

  lemma InnerStart(rules: Rules, s: State, e: Element)
    requires s.progress == Running && s.skipping > 0 && s.kept.record.Some? && s.openElements < MAX_DEPTH
    ensures OnStep(rules, s, Start(e)) ==
      MoreRead(s, [Start(e)], 1).(openElements := s.openElements + 1, skipping := s.skipping + 1)
  {
    HeardOne(Start(e));
  }

  lemma InnerEnd(rules: Rules, s: State, steps: seq<Step>, elements: nat, read: seq<Step>)
    requires s.progress == Running && s.skipping > 0 && s.kept.record.Some?
    requires read == s.kept.record.value.read + Heard(steps)
    ensures OnStep(rules, MoreRead(s, steps, elements).(
              openElements := s.openElements + 1, skipping := s.skipping + 1), End)
         == MoreRead(s, steps + [End], elements)
  {
    EndHeard(s.kept.record.value.read, steps);
  }

  lemma EndHeard(before: seq<Step>, steps: seq<Step>)
    ensures before + Heard(steps + [End]) == before + Heard(steps) + [End]
  {
    HeardConcat(steps, [End]);
    HeardOne(End);
    Assoc(before, Heard(steps), [End]);
  }

  // --------------------------------------------------------------- facts and islands

  /** A fact is open, here or further out. */
  predicate InFact(s: State, f: FactBuild) {
    && s.fact == Some(f) && s.island.None? && s.capture.None? && s.skipping == 0 && s.progress == Running
    && 1 <= f.depth <= |s.stack|
  }

  function FactFilled(s: State, f: FactBuild, text: string, elements: nat): State {
    Counted(s, elements).(fact := Some(f.(text := f.text + text)))
  }

  lemma {:induction false} FactContent(rules: Rules, s: State, f: FactBuild, nodes: seq<Node>)
    requires InFact(s, f) && !TooDeep(s, Depth(nodes)) && Clean(nodes)
    ensures OnSteps(rules, s, StepsOf(nodes)) == FactFilled(s, f, Generic.CharacterData(nodes), Elements(nodes))
    decreases nodes, 0
  {
    if nodes == [] {
      assert f.text + "" == f.text;
    } else {
      var text := Generic.DataOf(nodes[0]);
      OnStepsConcat(rules, s, StepsOfNode(nodes[0]), StepsOf(nodes[1..]));
      FactNode(rules, s, f, nodes[0]);
      FactContent(rules, FactFilled(s, f, text, ElementsIn(nodes[0])), f.(text := f.text + text), nodes[1..]);
      Assoc(f.text, text, Generic.CharacterData(nodes[1..]));
    }
  }

  lemma {:induction false} FactNode(rules: Rules, s: State, f: FactBuild, node: Node)
    requires InFact(s, f) && !TooDeep(s, DepthOf(node)) && CleanNode(node)
    ensures OnSteps(rules, s, StepsOfNode(node)) == FactFilled(s, f, Generic.DataOf(node), ElementsIn(node))
    decreases node, 0
  {
    if node.Elem? {
      var a := Push(CountElement(s), node.element);
      OnElement(rules, s, node.element, node.kids);
      FactContent(rules, a, f, node.kids);
      FactInnerEnd(rules, s, f, node.element, Generic.CharacterData(node.kids), Elements(node.kids));
    } else {
      OnStepsOne(rules, s, StepsOfNode(node)[0]);
      assert f.text + "" == f.text;
    }
  }

  lemma FactInnerEnd(rules: Rules, s: State, f: FactBuild, e: Element, text: string, elements: nat)
    requires InFact(s, f)
    ensures OnStep(rules, FactFilled(Push(CountElement(s), e), f, text, elements), End)
         == FactFilled(s, f, text, 1 + elements)
  {
    assert (s.stack + [Frame(e.local, None, None)])[..|s.stack|] == s.stack;
  }

  lemma FactIsRead(rules: Rules, s: State, e: Element, kids: seq<Node>, a: State, f: FactBuild, u: State)
    requires a == OnStep(rules, s, Start(e)) && a.openElements == s.openElements + 1
    requires InFact(a, f) && !TooDeep(a, Depth(kids)) && Clean(kids)
    requires u == OnSteps(rules, s, StepsOfNode(Elem(e, kids)))
    ensures u == OnStep(rules, FactFilled(a, f, Generic.CharacterData(kids), Elements(kids)), End)
  {
    hide OnStep;
    OnElement(rules, s, e, kids);
    FactContent(rules, a, f, kids);
  }

  lemma FactOpens(rules: Rules, s: State, e: Element) returns (a: State, f: FactBuild)
    requires Plain(s) && s.stack != [] && rules.xbrl && ReadingOf(e).ReadFact? && s.openElements < MAX_DEPTH
    ensures a == OnStep(rules, s, Start(e)) && a == BeginFact(CountElement(s), e)
    ensures f.text == "" && InFact(a, f) && a.openElements == s.openElements + 1
  {
    a := OnStep(rules, s, Start(e));
    f := a.fact.value;
  }

  lemma FactCloses(rules: Rules, s: State, e: Element, text: string, elements: nat, a: State, f: FactBuild, u: State)
    requires Plain(s) && s.stack != [] && a == BeginFact(CountElement(s), e) && a.fact == Some(f)
    requires u == OnStep(rules, FactFilled(a, f, text, elements), End)
    ensures u == FactSent(Counted(s, 1 + elements), e, text)
  {
    assert (s.stack + [Frame(e.local, None, None)])[..|s.stack|] == s.stack;
    assert "" + text == text;
  }

  predicate InIsland(s: State, i: IslandBuild) {
    s.island == Some(i) && s.skipping == 0 && s.progress == Running && 1 <= i.depth <= |s.stack|
  }

  function IslandFilled(s: State, i: IslandBuild, text: string, elements: nat): State {
    Counted(s, elements).(island := Some(i.(text := i.text + text)))
  }

  lemma {:induction false} IslandContent(rules: Rules, s: State, i: IslandBuild, nodes: seq<Node>)
    requires InIsland(s, i) && !TooDeep(s, Depth(nodes)) && Clean(nodes)
    ensures OnSteps(rules, s, StepsOf(nodes)) == IslandFilled(s, i, IslandText(nodes), Elements(nodes))
    decreases nodes, 0
  {
    if nodes == [] {
      assert i.text + "" == i.text;
    } else {
      var text := IslandTextIn(nodes[0]);
      OnStepsConcat(rules, s, StepsOfNode(nodes[0]), StepsOf(nodes[1..]));
      IslandNode(rules, s, i, nodes[0]);
      IslandContent(rules, IslandFilled(s, i, text, ElementsIn(nodes[0])), i.(text := i.text + text), nodes[1..]);
      Assoc(i.text, text, IslandText(nodes[1..]));
    }
  }

  lemma {:induction false} IslandNode(rules: Rules, s: State, i: IslandBuild, node: Node)
    requires InIsland(s, i) && !TooDeep(s, DepthOf(node)) && CleanNode(node)
    ensures OnSteps(rules, s, StepsOfNode(node)) == IslandFilled(s, i, IslandTextIn(node), ElementsIn(node))
    decreases node, 0
  {
    if node.Elem? {
      var j := i.(text := i.text + " ");
      OnElement(rules, s, node.element, node.kids);
      IslandContent(rules, OnStep(rules, s, Start(node.element)), j, node.kids);
      IslandInnerEnd(rules, s, i, node.element, IslandText(node.kids), Elements(node.kids));
    } else {
      OnStepsOne(rules, s, StepsOfNode(node)[0]);
      assert i.text + "" == i.text;
    }
  }

  lemma IslandInnerEnd(rules: Rules, s: State, i: IslandBuild, e: Element, text: string, elements: nat)
    requires InIsland(s, i) && s.openElements < MAX_DEPTH
    ensures OnStep(rules, IslandFilled(OnStep(rules, s, Start(e)), i.(text := i.text + " "), text, elements), End)
         == IslandFilled(s, i, " " + text + " ", 1 + elements)
  {
    assert (s.stack + [Frame(e.local, None, None)])[..|s.stack|] == s.stack;
    assert i.text + " " + text + " " == i.text + (" " + text + " ");
  }

  /** An island over the state its parent's own text left, once its tag was counted. */
  lemma IslandIsRead(rules: Rules, s: State, t: State, e: Element, kids: seq<Node>, i: IslandBuild, u: State)
    requires !TooDeep(s, 1 + Depth(kids)) && Clean(kids) && t.openElements == s.openElements + 1
    requires Plain(t) && t.stack != [] && BeginIsland(t, e).island == Some(i)
    requires OnStep(rules, s, Start(e)) == BeginIsland(t, e)
    requires u == OnSteps(rules, s, StepsOfNode(Elem(e, kids)))
    ensures u == ReadIsland(Counted(t, Elements(kids)).(openElements := s.openElements), e, kids)
  {
    hide OnStep;
    OnElement(rules, s, e, kids);
    IslandContent(rules, BeginIsland(t, e), i, kids);
    IslandCloses(rules, t, e, IslandText(kids), Elements(kids), i);
  }

  lemma IslandCloses(rules: Rules, t: State, e: Element, text: string, elements: nat, i: IslandBuild)
    requires Plain(t) && t.stack != [] && t.openElements > 0 && BeginIsland(t, e).island == Some(i)
    ensures OnStep(rules, IslandFilled(BeginIsland(t, e), i, text, elements), End)
         == IslandSent(Counted(t, elements).(openElements := t.openElements - 1), e, text + " ")
  {
    assert (t.stack + [Frame(e.local, None, None)])[..|t.stack|] == t.stack;
    assert "" + text == text;
  }

  // ------------------------------------------------------------------------ captures

  /** A captured element, over the state its parent's own text left, once its tag was
      counted. */
  lemma CaptureIsRead(
    rules: Rules, s: State, t: State, e: Element, kids: seq<Node>, spec: Spec, isCaption: bool, flow: Flow, u: State)
    requires !TooDeep(s, 1 + Depth(kids)) && Clean(kids) && t.openElements == s.openElements + 1
    requires Plain(t) && t.stack != []
    requires OnStep(rules, s, Start(e)) == BeginCapture(rules, Push(t, e), spec, e, isCaption)
    requires flow == Poured(t.Open() + [e.local], EMPTY, kids, rules.inline, rules.inlineSpans)
    requires u == OnSteps(rules, s, StepsOfNode(Elem(e, kids)))
    ensures u == OnStep(rules, CaptureToClose(rules, t, e, kids, spec, isCaption, flow), End)
  {
    hide OnStep;
    var a := BeginCapture(rules, Push(t, e), spec, e, isCaption);
    OnElement(rules, s, e, kids);
    PushOpen(t, e);
    assert a.Open() == t.Open() + [e.local];
    ContentIsCaptured(rules, a, a.capture.value, kids, flow);
  }

  /** The state a capture's own end tag is read in. */
  function CaptureToClose(
    rules: Rules, t: State, e: Element, kids: seq<Node>, spec: Spec, isCaption: bool, flow: Flow): State
  {
    var a := BeginCapture(rules, Push(t, e), spec, e, isCaption);
    Filled(a, a.capture.value, flow, AnyCdata(kids), Elements(kids))
  }

  lemma CaptureEnds(
    rules: Rules, t: State, e: Element, kids: seq<Node>, spec: Spec, isCaption: bool, flow: Flow, b: State)
    requires Plain(t) && t.stack != [] && t.openElements > 0
    requires b == CaptureToClose(rules, t, e, kids, spec, isCaption, flow)
    ensures OnStep(rules, b, End) == Pop(FinishCapture(UncountElement(b), b.capture.value))
    ensures b.capture.value == BeginCapture(rules, Push(t, e), spec, e, isCaption).capture.value.(
      flow := flow, fromCdata := AnyCdata(kids))
    ensures UncountElement(b).(capture := None) ==
      Push(Counted(t, Elements(kids)).(openElements := t.openElements - 1), e)
  {
  }

  lemma PushPop(s: State, e: Element)
    requires s.stack != [] && s.progress == Running
    ensures Pop(Push(s, e)) == s
  {
    assert (s.stack + [Frame(e.local, None, None)])[..|s.stack|] == s.stack;
  }

  lemma ItemEnds(rules: Rules, s: State, e: Element, kids: seq<Node>, spec: Spec, flow: Flow, c: CaptureBuild, p: State)
    requires Plain(s) && s.stack != [] && p.(capture := None) == Push(s, e)
    requires flow == Poured(s.Open() + [e.local], EMPTY, kids, rules.inline, rules.inlineSpans)
    requires c == BeginCapture(rules, Push(s, e), spec, e, false).capture.value.(
      flow := flow, fromCdata := AnyCdata(kids))
    ensures Pop(FinishCapture(p, c)) == ReadCapture(rules, s, e, kids, spec)
  {
    PushPop(s, e);
  }

  lemma CaptionEnds(
    rules: Rules, s: State, e: Element, kids: seq<Node>, spec: Spec, flow: Flow, c: CaptureBuild, p: State)
    requires Plain(s) && s.stack != [] && p.(capture := None) == Push(s, e)
    requires flow == Poured(s.Open() + [e.local], EMPTY, kids, rules.inline, rules.inlineSpans)
    requires c == BeginCapture(rules, Push(s, e), spec, e, true).capture.value.(
      flow := flow, fromCdata := AnyCdata(kids))
    ensures Pop(FinishCapture(p, c)) == ReadCaption(rules, s, e, kids)
  {
    PushPop(s, e);
  }

  // ---------------------------------------------------------------------- table content

  /** A table is open, here or further out, with no cell open in it. */
  predicate InTable(s: State, t: TableBuild) {
    && s.table == Some(t) && t.cell.None? && s.island.None? && s.capture.None? && s.fact.None?
    && s.skipping == 0 && s.progress == Running
    && 1 <= t.depth <= |s.stack| && s.stack[|s.stack| - 1].own.None?
  }

  /** The state further on in a table: its rows went out. */
  function TableFilled(s: State, t: TableBuild, rows: seq<Event>, elements: nat): State {
    var counts := Counted(s, elements).counts;
    s.(table := Some(t), counts := counts.(tableRows := counts.tableRows + |rows|), out := s.out + rows)
  }

  lemma TableFilledNot(s: State, t: TableBuild)
    requires s.table == Some(t)
    ensures TableFilled(s, t, [], 0) == s
  {
    assert s.out + [] == s.out;
  }

  lemma TableFilledTwice(s: State, t: TableBuild, x: seq<Event>, m: nat, u: TableBuild, y: seq<Event>, n: nat)
    ensures TableFilled(TableFilled(s, t, x, m), u, y, n) == TableFilled(s, u, x + y, m + n)
  {
    Assoc(s.out, x, y);
  }

  lemma {:induction false} TableContent(
    rules: Rules, s: State, t: TableBuild, nodes: seq<Node>, u: TableBuild, rows: seq<Event>)
    requires InTable(s, t) && !TooDeep(s, Depth(nodes)) && Clean(nodes)
    requires (u, rows) == ReadRows(rules, t, s.Open(), nodes)
    ensures OnSteps(rules, s, StepsOf(nodes)) == TableFilled(s, u, rows, Elements(nodes))
    ensures u.cell.None? && u.depth == t.depth && u.reference == t.reference
    decreases nodes, 0
  {
    hide OnStep;
    if nodes == [] {
      TableFilledNot(s, t);
    } else {
      var (v, first) := ReadRowsIn(rules, t, s.Open(), nodes[0]);
      var (_, rest) := ReadRows(rules, v, s.Open(), nodes[1..]);
      OnStepsConcat(rules, s, StepsOfNode(nodes[0]), StepsOf(nodes[1..]));
      TableNode(rules, s, t, nodes[0], v, first);
      TableContent(rules, TableFilled(s, v, first, ElementsIn(nodes[0])), v, nodes[1..], u, rest);
      TableFilledTwice(s, v, first, ElementsIn(nodes[0]), u, rest, Elements(nodes[1..]));
    }
  }

  lemma {:induction false} TableNode(
    rules: Rules, s: State, t: TableBuild, node: Node, u: TableBuild, rows: seq<Event>)
    requires InTable(s, t) && !TooDeep(s, DepthOf(node)) && CleanNode(node)
    requires (u, rows) == ReadRowsIn(rules, t, s.Open(), node)
    ensures OnSteps(rules, s, StepsOfNode(node)) == TableFilled(s, u, rows, ElementsIn(node))
    ensures u.cell.None? && u.depth == t.depth && u.reference == t.reference
    decreases node, 0
  {
    hide OnStep, OnSteps, OpenCell, CellOf;
    if !node.Elem? {
      TextInTable(rules, s, t, node);
    } else {
      var e, kids := node.element, node.kids;
      var a := OnStep(rules, s, Start(e));
      var b := OnSteps(rules, a, StepsOf(kids));
      OnElement(rules, s, e, kids);
      if e.local in CELL_ELEMENTS {
        CellStarts(rules, s, t, e, OpenCell(t, |s.stack| + 1, e), a);
        CellElement(rules, s, t, e, kids, OpenCell(t, |s.stack| + 1, e), a, b, CellOf(rules, t, s.Open(), e, kids));
      } else {
        var (v, inside) := ReadRows(rules, Entered(t, e), s.Open() + [e.local], kids);
        TableEnters(rules, s, t, e, a);
        StructureNode(rules, s, t, e, kids, v, inside, a, b, OnStep(rules, b, End));
        LeftKeeps(v, e);
      }
    }
  }

  /** Text between the cells of a table is no one's own text. */
  lemma TextInTable(rules: Rules, s: State, t: TableBuild, node: Node)
    requires InTable(s, t) && !node.Elem? && CleanNode(node)
    ensures OnSteps(rules, s, StepsOfNode(node)) == TableFilled(s, t, [], 0)
  {
    OnStepsOne(rules, s, StepsOfNode(node)[0]);
    TableFilledNot(s, t);
  }

  lemma {:induction false} StructureNode(
    rules: Rules, s: State, t: TableBuild, e: Element, kids: seq<Node>, v: TableBuild, inside: seq<Event>,
    a: State, b: State, after: State)
    requires InTable(s, t) && !TooDeep(s, 1 + Depth(kids)) && Clean(kids)
    requires (v, inside) == ReadRows(rules, Entered(t, e), s.Open() + [e.local], kids)
    requires a == Push(CountElement(s), e).(table := Some(Entered(t, e))) && InTable(a, Entered(t, e))
    requires a.Open() == s.Open() + [e.local] && Entered(t, e).depth == t.depth
    requires Entered(t, e).reference == t.reference
    requires b == OnSteps(rules, a, StepsOf(kids)) && after == OnStep(rules, b, End)
    ensures after == TableFilled(s, Left(v, e).0, inside + Left(v, e).1, 1 + Elements(kids))
    ensures v.cell.None? && v.depth == t.depth && v.reference == t.reference
    decreases kids, 1
  {
    hide OnStep;
    TableContent(rules, a, Entered(t, e), kids, v, inside);
    StructureEnds(rules, s, t, e, v, inside, Elements(kids), b, after);
  }

  lemma LeftKeeps(v: TableBuild, e: Element)
    ensures var u := Left(v, e).0; u.cell == v.cell && u.depth == v.depth && u.reference == v.reference
  {
  }

  lemma StructureEnds(
    rules: Rules, s: State, t: TableBuild, e: Element, v: TableBuild, inside: seq<Event>, elements: nat,
    b: State, after: State)
    requires InTable(s, t) && v.cell.None? && v.depth == t.depth
    requires b == TableFilled(Push(CountElement(s), e), v, inside, elements) && after == OnStep(rules, b, End)
    ensures after == TableFilled(s, Left(v, e).0, inside + Left(v, e).1, 1 + elements)
  {
    TableLeaves(rules, s, e, v, inside, elements, b);
  }

  lemma TableEnters(rules: Rules, s: State, t: TableBuild, e: Element, a: State)
    requires InTable(s, t) && s.openElements < MAX_DEPTH && e.local !in CELL_ELEMENTS
    requires a == OnStep(rules, s, Start(e))
    ensures a == Push(CountElement(s), e).(table := Some(Entered(t, e)))
    ensures a.stack == s.stack + [Frame(e.local, None, None)] && InTable(a, Entered(t, e))
    ensures a.Open() == s.Open() + [e.local] && a.openElements == s.openElements + 1
    ensures Entered(t, e).depth == t.depth && Entered(t, e).reference == t.reference
  {
    PushOpen(CountElement(s), e);
  }

  lemma TableLeaves(
    rules: Rules, s: State, e: Element, v: TableBuild, inside: seq<Event>, elements: nat, b: State)
    requires s.stack != [] && b == TableFilled(Push(CountElement(s), e), v, inside, elements)
    requires v.cell.None? && v.depth <= |s.stack| && s.island.None? && s.capture.None? && s.fact.None?
    requires s.skipping == 0 && s.progress == Running
    ensures OnStep(rules, b, End) == TableFilled(s, Left(v, e).0, inside + Left(v, e).1, 1 + elements)
  {
    var c := UncountElement(b);
    var (u, row) := Left(v, e);
    LeftCloses(c, v, e, u, row);
    assert b.stack[..|s.stack|] == s.stack;
    Assoc(s.out, inside, row);
  }

  /** The end tag of a table's own structure, before its frame is dropped. */
  lemma LeftCloses(c: State, v: TableBuild, e: Element, u: TableBuild, row: seq<Event>)
    requires c.stack != [] && c.stack[|c.stack| - 1].local == e.local && c.table == Some(v)
    requires v.cell.None? && v.depth < |c.stack| && (u, row) == Left(v, e)
    ensures TableClose(c, v) == TableFilled(c, u, row, 0)
  {
    assert c.out + [] == c.out;
  }

  lemma CellElement(
    rules: Rules, s: State, t: TableBuild, e: Element, kids: seq<Node>, b: CellBuild, a: State, before: State,
    cell: TableCell)
    requires InTable(s, t) && !TooDeep(a, Depth(kids)) && Clean(kids) && b == OpenCell(t, |s.stack| + 1, e)
    requires a == CellOpened(s, t, e) && InCell(a, t.(cell := Some(b)), b) && b.flow == EMPTY
    requires a.Open() == s.Open() + [e.local] && before == OnSteps(rules, a, StepsOf(kids))
    requires cell == CellOf(rules, t, s.Open(), e, kids)
    ensures OnStep(rules, before, End) == TableFilled(s, WithCell(t, cell), [], 1 + Elements(kids))
  {
    hide OnStep;
    var flow := Poured(s.Open() + [e.local], EMPTY, kids, rules.inline, rules.inlineSpans);
    ContentIsCelled(rules, a, t.(cell := Some(b)), b, kids, flow);
    CellEnds(rules, s, t, e, b, flow, Elements(kids), before, cell);
  }

  lemma CellStarts(rules: Rules, s: State, t: TableBuild, e: Element, b: CellBuild, a: State)
    requires InTable(s, t) && s.openElements < MAX_DEPTH && e.local in CELL_ELEMENTS
    requires b == OpenCell(t, |s.stack| + 1, e) && a == OnStep(rules, s, Start(e))
    ensures a == CellOpened(s, t, e) && InCell(a, t.(cell := Some(b)), b) && b.flow == EMPTY
    ensures a.Open() == s.Open() + [e.local] && a.openElements == s.openElements + 1
  {
    PushOpen(CountElement(s), e);
  }

  lemma CellEnds(
    rules: Rules, s: State, t: TableBuild, e: Element, b: CellBuild, flow: Flow, elements: nat, before: State,
    cell: TableCell)
    requires InTable(s, t) && b == OpenCell(t, |s.stack| + 1, e)
    requires before == CellFilled(CellOpened(s, t, e), t.(cell := Some(b)), b, flow, elements)
    requires cell == TableCell(b.columnIndex, Finished(flow).0, b.columnSpan, b.rowSpan, b.isHeader, Finished(flow).1)
    ensures OnStep(rules, before, End) == TableFilled(s, WithCell(t, cell), [], 1 + elements)
  {
    CellFinishes(rules, before, WithFlow(t, b, flow), b.(flow := flow));
    CellAdded(t, b, flow, cell);
    CellPops(s, e, elements, WithCell(t, cell), UncountElement(before).(table := Some(WithCell(t, cell))));
  }

  lemma CellAdded(t: TableBuild, b: CellBuild, flow: Flow, cell: TableCell)
    requires t.cell.None? && b.columnIndex == if t.row.Some? then t.row.value.nextColumn else 0
    requires cell == TableCell(b.columnIndex, Finished(flow).0, b.columnSpan, b.rowSpan, b.isHeader, Finished(flow).1)
    ensures FinishCell(WithFlow(t, b, flow), b.(flow := flow)) == WithCell(t, cell)
  {
  }

  lemma CellPops(s: State, e: Element, elements: nat, t: TableBuild, before: State)
    requires s.stack != [] && s.progress == Running
    requires before == Push(Counted(s, 1 + elements), e).(table := Some(t))
    ensures Pop(before) == TableFilled(s, t, [], 1 + elements)
  {
    assert before.stack[..|s.stack|] == s.stack;
    assert s.out + [] == s.out;
  }

  /** A table whose row was closed before its content has no row open after it. */
  lemma {:induction false} RowsClose(rules: Rules, t: TableBuild, open: seq<string>, nodes: seq<Node>)
    requires t.row.None?
    ensures ReadRows(rules, t, open, nodes).0.row.None?
    decreases nodes, 0
  {
    if nodes != [] {
      RowsCloseIn(rules, t, open, nodes[0]);
      RowsClose(rules, ReadRowsIn(rules, t, open, nodes[0]).0, open, nodes[1..]);
    }
  }

  lemma {:induction false} RowsCloseIn(rules: Rules, t: TableBuild, open: seq<string>, node: Node)
    requires t.row.None?
    ensures ReadRowsIn(rules, t, open, node).0.row.None?
    decreases node, 0
  {
    if node.Elem? && node.element.local !in CELL_ELEMENTS && node.element.local !in ROW_ELEMENTS {
      RowsClose(rules, Entered(t, node.element), open + [node.element.local], node.kids);
    }
  }

  // ------------------------------------------------------------------ whole elements

  /** An element about to be handled: its tag is counted in t, and not in s. */
  predicate Handled(s: State, t: State) {
    Plain(t) && t.kept.record.None? && t.stack != [] && t.openElements == s.openElements + 1
  }

  lemma TableIsRead(rules: Rules, s: State, t: State, e: Element, kids: seq<Node>, u: State)
    requires Handled(s, t) && !TooDeep(s, 1 + Depth(kids)) && Clean(kids) && e.local !in HEADER_SECTION_ELEMENTS
    requires OnStep(rules, s, Start(e)) == BeginTable(Push(t, e), e)
    requires u == OnSteps(rules, s, StepsOfNode(Elem(e, kids)))
    ensures u == ReadTable(rules, Counted(t, Elements(kids)).(openElements := s.openElements), e, kids)
  {
    hide OnStep;
    var a := BeginTable(Push(t, e), e);
    var (v, rows) := ReadRows(rules, EmptyTable(t), t.Open() + [e.local], kids);
    OnElement(rules, s, e, kids);
    TableReaches(rules, t, e, kids, a, v, rows);
    TableEnds(rules, s, t, e, v, rows, Elements(kids), a, u);
    TableCounted(rules, t, Counted(t, Elements(kids)).(openElements := s.openElements), e, kids);
  }

  /** Elements counted aside, the same table is read. */
  lemma TableCounted(rules: Rules, t: State, c: State, e: Element, kids: seq<Node>)
    requires c.stack == t.stack && c.counts.tables == t.counts.tables
    ensures ReadTable(rules, c, e, kids) ==
      var (v, rows) := ReadRows(rules, EmptyTable(t), t.Open() + [e.local], kids);
      TableSent(c, e, rows, v)
  {
  }

  lemma TableReaches(rules: Rules, t: State, e: Element, kids: seq<Node>, a: State, v: TableBuild, rows: seq<Event>)
    requires Plain(t) && !TooDeep(t, Depth(kids)) && Clean(kids) && a == BeginTable(Push(t, e), e)
    requires (v, rows) == ReadRows(rules, EmptyTable(t), t.Open() + [e.local], kids)
    ensures OnSteps(rules, a, StepsOf(kids)) == TableFilled(a, v, rows, Elements(kids))
    ensures v.row.None? && v.cell.None? && v.depth == |t.stack| + 1 && v.reference == t.counts.tables + 1
  {
    hide OnStep;
    PushOpen(t, e);
    assert a.Open() == t.Open() + [e.local];
    TableContent(rules, a, EmptyTable(t), kids, v, rows);
    RowsClose(rules, EmptyTable(t), t.Open() + [e.local], kids);
  }

  lemma TableEnds(
    rules: Rules, s: State, t: State, e: Element, v: TableBuild, rows: seq<Event>, elements: nat, a: State, u: State)
    requires Handled(s, t) && e.local !in HEADER_SECTION_ELEMENTS && a == BeginTable(Push(t, e), e)
    requires v.row.None? && v.cell.None? && v.depth == |t.stack| + 1 && v.reference == t.counts.tables + 1
    requires u == OnStep(rules, TableFilled(a, v, rows, elements), End)
    ensures u == TableSent(Counted(t, elements).(openElements := s.openElements), e, rows, v)
  {
    hide OnStep;
    var b := TableFilled(a, v, rows, elements);
    TableEndTag(rules, b, v, e);
    assert a.stack[..|t.stack|] == t.stack;
  }

  /** The end tag of the table itself. */
  lemma TableEndTag(rules: Rules, b: State, v: TableBuild, e: Element)
    requires b.table == Some(v) && v.row.None? && v.cell.None? && v.depth == |b.stack| > 0
    requires b.stack[|b.stack| - 1].local == e.local && e.local !in HEADER_SECTION_ELEMENTS
    requires b.island.None? && b.capture.None? && b.fact.None? && b.skipping == 0 && b.progress == Running
    ensures OnStep(rules, b, End) == Pop(FinishTable(UncountElement(b), v))
  {
  }

  lemma DroppedIsRead(rules: Rules, s: State, t: State, e: Element, kids: seq<Node>, u: State)
    requires Handled(s, t) && !TooDeep(s, 1 + Depth(kids))
    requires OnStep(rules, s, Start(e)) == t.(skipping := 1)
    requires u == OnSteps(rules, s, StepsOfNode(Elem(e, kids)))
    ensures u == Counted(t, Elements(kids)).(openElements := s.openElements)
  {
    OnElement(rules, s, e, kids);
    DroppedContent(rules, t.(skipping := 1), kids);
  }

  lemma RecordIsRead(rules: Rules, s: State, t: State, kind: RecordKind, e: Element, kids: seq<Node>, u: State)
    requires Handled(s, t) && !TooDeep(s, 1 + Depth(kids)) && Clean(kids)
    requires OnStep(rules, s, Start(e)) == BeginRecord(t, kind, e)
    requires u == OnSteps(rules, s, StepsOfNode(Elem(e, kids)))
    ensures u == ReadRecord(Counted(t, Tallied(kind, kids)).(openElements := s.openElements), kind, e, kids)
  {
    hide OnStep;
    var v, r := Counted(t, Tallied(kind, kids)).(openElements := s.openElements), Record(kind, e, Heard(StepsOf(kids)));
    OnElement(rules, s, e, kids);
    var b := RecordReaches(rules, s, t, kind, e, kids, v, r);
    RecordEnds(rules, v, r, b);
    RecordSays(v, kind, e, kids, r);
  }

  /** All of a record was read but its own end tag. */
  lemma RecordReaches(
    rules: Rules, s: State, t: State, kind: RecordKind, e: Element, kids: seq<Node>, v: State, r: Record)
    returns (b: State)
    requires Handled(s, t) && !TooDeep(s, 1 + Depth(kids)) && Clean(kids)
    requires v == Counted(t, Tallied(kind, kids)).(openElements := s.openElements)
    requires r == Record(kind, e, Heard(StepsOf(kids)))
    ensures b == OnSteps(rules, BeginRecord(t, kind, e), StepsOf(kids))
    ensures b == v.(openElements := v.openElements + 1, skipping := 1, kept := v.kept.(record := Some(r)))
  {
    hide OnStep;
    var a := BeginRecord(t, kind, e);
    RecordedContent(rules, a, kids);
    assert [] + r.read == r.read;
    b := MoreRead(a, StepsOf(kids), Elements(kids));
  }

  lemma RecordEnds(rules: Rules, v: State, r: Record, b: State)
    requires v.skipping == 0 && v.progress == Running
    requires b == v.(openElements := v.openElements + 1, skipping := 1, kept := v.kept.(record := Some(r)))
    ensures OnStep(rules, b, End) == FinishRecord(v, r)
  {
    var c := v.(kept := v.kept.(record := Some(r)));
    assert UncountElement(b).(skipping := 0) == c;
    FinishForgets(v, c, r);
  }

  /** What a record says does not depend on its having been half read. */
  lemma FinishForgets(v: State, c: State, r: Record)
    requires c == v.(kept := v.kept.(record := Some(r)))
    ensures FinishRecord(c, r) == FinishRecord(v, r)
  {
  }

  lemma RecordSays(v: State, kind: RecordKind, e: Element, kids: seq<Node>, r: Record)
    requires r == Record(kind, e, Heard(StepsOf(kids))) && v.kept.record.None?
    ensures FinishRecord(v, r) == ReadRecord(v, kind, e, kids)
  {
    match kind
    case ContextRecord => ContextIsReading(e, kids);
    case UnitRecord => UnitIsReading(e, kids);
    case NoteRecord(footnote) => NotesAreReading(footnote, kids);
    case MetaRecord(_) =>
  }

  /** Where a tag is counted does not matter to the text its parent's run sends. */
  lemma FlushedThenCounted(s: State, elements: nat, t: State)
    requires t == FlushOwn(CountElement(s), false)
    ensures Counted(t, elements).(openElements := s.openElements) == Counted(FlushOwn(s, false), 1 + elements)
    ensures t.Open() == s.Open() && FlushOwn(s, false).Open() == s.Open()
    ensures Plain(s) && s.kept.record.None? && s.stack != [] ==> Handled(s, t)
  {
    FlushOwnIgnoresCounters(s, CountElement(s));
  }

  lemma PlainTag(rules: Rules, s: State, e: Element, t: State)
    requires Plain(s) && !rules.xbrl && s.openElements < MAX_DEPTH && t == FlushOwn(CountElement(s), false)
    ensures OnStep(rules, s, Start(e)) ==
      if rules.islands && e.namespace == NS_XHTML then BeginIsland(t, e) else Mapped(rules, t, e)
  {
  }

  lemma XbrlTag(rules: Rules, s: State, e: Element)
    requires Plain(s) && rules.xbrl && s.openElements < MAX_DEPTH
    ensures OnStep(rules, s, Start(e)) == XbrlStart(rules, CountElement(s), e)
  {
  }

  /** An element that a rule maps. */
  lemma MappedIsRead(rules: Rules, s: State, e: Element, kids: seq<Node>, u: State)
    requires Sane(rules) && Plain(s) && s.kept.record.None? && s.stack != [] && !rules.xbrl
    requires !AttentionTo(rules, Deciding, s.Open(), e).Deciding? && !TooDeep(s, 1 + Depth(kids))
    requires AttentionTo(rules, Deciding, s.Open(), e).Dropped? || Clean(kids)
    requires u == OnSteps(rules, s, StepsOfNode(Elem(e, kids)))
    ensures u == ReadMapped(rules, FlushOwn(s, false), e, kids)
  {
    hide OnStep;
    var t := FlushOwn(CountElement(s), false);
    FlushedThenCounted(s, Elements(kids), t);
    PlainTag(rules, s, e, t);
    if rules.islands && e.namespace == NS_XHTML {
      IslandIsRead(rules, s, t, e, kids, BeginIsland(t, e).island.value, u);
    } else {
      ActionIsRead(rules, s, t, e, kids, u);
    }
  }

  lemma ActionIsRead(rules: Rules, s: State, t: State, e: Element, kids: seq<Node>, u: State)
    requires Sane(rules) && Handled(s, t) && t == FlushOwn(CountElement(s), false) && !TooDeep(s, 1 + Depth(kids))
    requires OnStep(rules, s, Start(e)) == Mapped(rules, t, e) && !(rules.islands && e.namespace == NS_XHTML)
    requires !MappedTo(rules, rules.action(s.Open(), e)).Deciding?
    requires MappedTo(rules, rules.action(s.Open(), e)).Dropped? || Clean(kids)
    requires u == OnSteps(rules, s, StepsOfNode(Elem(e, kids)))
    ensures u == ReadMapped(rules, FlushOwn(s, false), e, kids)
  {
    hide OnStep;
    var action := rules.action(s.Open(), e);
    FlushedThenCounted(s, Elements(kids), t);
    if action.Table? {
      TableIsRead(rules, s, t, e, kids, u);
    } else if action.Meta? && rules.metadata {
      FlushedThenCounted(s, Tallied(MetaRecord(action.shape), kids), t);
      RecordIsRead(rules, s, t, MetaRecord(action.shape), e, kids, u);
    } else if action.Caption? || action.Capture? {
      CapturedIsRead(rules, s, t, e, kids, u);
    } else {
      DroppedIsRead(rules, s, t, e, kids, u);
    }
  }

  lemma CapturedIsRead(rules: Rules, s: State, t: State, e: Element, kids: seq<Node>, u: State)
    requires Handled(s, t) && !TooDeep(s, 1 + Depth(kids)) && Clean(kids) && t.Open() == s.Open()
    requires OnStep(rules, s, Start(e)) == Mapped(rules, t, e)
    requires u == OnSteps(rules, s, StepsOfNode(Elem(e, kids)))
    ensures var action, v := rules.action(s.Open(), e), Counted(t, Elements(kids)).(openElements := s.openElements);
      && (action.Caption? ==> u == ReadCaption(rules, v, e, kids))
      && (action.Capture? ==> u == ReadCapture(rules, v, e, kids, action.spec))
  {
    hide OnStep;
    var action := rules.action(s.Open(), e);
    if action.Caption? {
      CaptionIsRead(rules, s, t, e, kids, u);
    } else if action.Capture? {
      ItemIsRead(rules, s, t, e, kids, action.spec, u);
    }
  }

  lemma CaptionIsRead(rules: Rules, s: State, t: State, e: Element, kids: seq<Node>, u: State)
    requires Handled(s, t) && !TooDeep(s, 1 + Depth(kids)) && Clean(kids)
    requires OnStep(rules, s, Start(e)) ==
      BeginCapture(rules, Push(t, e), Spec(Document.Label.Caption, "", None, None), e, true)
    requires u == OnSteps(rules, s, StepsOfNode(Elem(e, kids)))
    ensures u == ReadCaption(rules, Counted(t, Elements(kids)).(openElements := s.openElements), e, kids)
  {
    hide OnStep;
    var spec := Spec(Document.Label.Caption, "", None, None);
    var flow := Poured(t.Open() + [e.local], EMPTY, kids, rules.inline, rules.inlineSpans);
    var b := CaptureToClose(rules, t, e, kids, spec, true, flow);
    CaptureIsRead(rules, s, t, e, kids, spec, true, flow, u);
    CaptureEnds(rules, t, e, kids, spec, true, flow, b);
    CaptionEnds(rules, Counted(t, Elements(kids)).(openElements := s.openElements), e, kids, spec, flow,
                b.capture.value, UncountElement(b));
  }

  lemma ItemIsRead(rules: Rules, s: State, t: State, e: Element, kids: seq<Node>, spec: Spec, u: State)
    requires Handled(s, t) && !TooDeep(s, 1 + Depth(kids)) && Clean(kids)
    requires OnStep(rules, s, Start(e)) == BeginCapture(rules, Push(t, e), spec, e, false)
    requires u == OnSteps(rules, s, StepsOfNode(Elem(e, kids)))
    ensures u == ReadCapture(rules, Counted(t, Elements(kids)).(openElements := s.openElements), e, kids, spec)
  {
    hide OnStep;
    var flow := Poured(t.Open() + [e.local], EMPTY, kids, rules.inline, rules.inlineSpans);
    var b := CaptureToClose(rules, t, e, kids, spec, false, flow);
    CaptureIsRead(rules, s, t, e, kids, spec, false, flow, u);
    CaptureEnds(rules, t, e, kids, spec, false, flow, b);
    ItemEnds(rules, Counted(t, Elements(kids)).(openElements := s.openElements), e, kids, spec, flow,
             b.capture.value, UncountElement(b));
  }

  /** An element of an XBRL instance that is read or dropped whole. */
  lemma WholeIsRead(rules: Rules, s: State, e: Element, kids: seq<Node>, u: State)
    requires Plain(s) && s.kept.record.None? && s.stack != [] && rules.xbrl && !ReadingOf(e).Pass?
    requires !TooDeep(s, 1 + Depth(kids)) && (ReadingOf(e).Discard? || Clean(kids))
    requires u == OnSteps(rules, s, StepsOfNode(Elem(e, kids)))
    ensures u == ReadWhole(s, e, kids)
  {
    hide OnStep;
    var t := CountElement(s);
    XbrlTag(rules, s, e);
    if ReadingOf(e).ReadFact? {
      var a, f := FactOpens(rules, s, e);
      FactIsRead(rules, s, e, kids, a, f, u);
      FactCloses(rules, s, e, Generic.CharacterData(kids), Elements(kids), a, f, u);
    } else if ReadingOf(e).Discard? {
      DroppedIsRead(rules, s, t, e, kids, u);
    } else {
      RecordIsRead(rules, s, t, ReadingOf(e).kind, e, kids, u);
    }
  }

  // ------------------------------------------------------------------- whole documents

  /** Every element the rules go on deciding about opens as the reading opens it. */
  lemma ElementDescends(rules: Rules, s: State, e: Element)
    requires Plain(s) && s.openElements < MAX_DEPTH && AttentionTo(rules, Deciding, s.Open(), e).Deciding?
    ensures OnStep(rules, s, Start(e)) == Descended(rules, s, e)
  {
    if !rules.xbrl {
      FlushOwnOpen(CountElement(s), false);
    }
  }

  lemma {:induction false} ContentIsRead(rules: Rules, s: State, nodes: seq<Node>, u: State)
    requires Sane(rules) && StreamFaults.Within(s, Deciding, s.Open(), s.openElements)
    requires FaultIn(rules, Deciding, s.Open(), s.openElements, nodes).None? && u == OnSteps(rules, s, StepsOf(nodes))
    ensures u == ReadAll(rules, s, nodes)
    decreases nodes, 0
  {
    hide OnStep;
    if nodes != [] {
      var k := OnSteps(rules, s, StepsOfNode(nodes[0]));
      OnStepsConcat(rules, s, StepsOfNode(nodes[0]), StepsOf(nodes[1..]));
      NodeFaults(rules, s, nodes[0], Deciding, s.Open(), s.openElements, k);
      OnStepsModes(rules, s, StepsOfNode(nodes[0]));
      NodeIsRead(rules, s, nodes[0], k);
      ContentIsRead(rules, k, nodes[1..], u);
    }
  }

  lemma {:induction false} NodeIsRead(rules: Rules, s: State, node: Node, u: State)
    requires Sane(rules) && StreamFaults.Within(s, Deciding, s.Open(), s.openElements)
    requires FaultOf(rules, Deciding, s.Open(), s.openElements, node).None? && u == OnSteps(rules, s, StepsOfNode(node))
    ensures u == ReadNode(rules, s, node)
    decreases node, 0
  {
    if node.Elem? {
      var e, kids := node.element, node.kids;
      var a := OnStep(rules, s, Start(e));
      OnElement(rules, s, e, kids);
      ElementIsRead(rules, s, e, kids, a, OnSteps(rules, a, StepsOf(kids)), u);
    } else {
      OnStepsOne(rules, s, StepsOfNode(node)[0]);
    }
  }

  lemma {:induction false} ElementIsRead(
    rules: Rules, s: State, e: Element, kids: seq<Node>, a: State, b: State, u: State)
    requires Sane(rules) && StreamFaults.Within(s, Deciding, s.Open(), s.openElements)
    requires FaultOf(rules, Deciding, s.Open(), s.openElements, Elem(e, kids)).None?
    requires a == OnStep(rules, s, Start(e)) && b == OnSteps(rules, a, StepsOf(kids)) && u == OnStep(rules, b, End)
    requires u == OnSteps(rules, s, StepsOfNode(Elem(e, kids)))
    ensures u == ReadElement(rules, s, e, kids)
    decreases kids, 2
  {
    hide OnStep;
    if AttentionTo(rules, Deciding, s.Open(), e).Deciding? {
      var inside := s.Open() + [e.local];
      ElementDescends(rules, s, e);
      EntersDeciding(rules, s, e, a, inside);
      DescentIsRead(rules, a, kids, inside, s.openElements + 1, b, u);
    } else {
      HeldIsRead(rules, s, e, kids, u);
    }
  }

  lemma HeldIsRead(rules: Rules, s: State, e: Element, kids: seq<Node>, u: State)
    requires Sane(rules) && StreamFaults.Within(s, Deciding, s.Open(), s.openElements)
    requires FaultOf(rules, Deciding, s.Open(), s.openElements, Elem(e, kids)).None?
    requires !AttentionTo(rules, Deciding, s.Open(), e).Deciding? && u == OnSteps(rules, s, StepsOfNode(Elem(e, kids)))
    ensures u == if rules.xbrl then ReadWhole(s, e, kids) else ReadMapped(rules, FlushOwn(s, false), e, kids)
  {
    hide OnStep;
    HeldIsDeep(rules, AttentionTo(rules, Deciding, s.Open(), e), s.Open() + [e.local], s.openElements + 1, kids);
    if rules.xbrl {
      WholeIsRead(rules, s, e, kids, u);
    } else {
      MappedIsRead(rules, s, e, kids, u);
    }
  }

  lemma {:induction false} DescentIsRead(
    rules: Rules, a: State, kids: seq<Node>, inside: seq<string>, level: nat, b: State, u: State)
    requires Sane(rules) && StreamFaults.Within(a, Deciding, inside, level) && a.Open() == inside
    requires FaultIn(rules, Deciding, inside, level, kids).None?
    requires b == OnSteps(rules, a, StepsOf(kids)) && u == OnStep(rules, b, End)
    ensures u == Leave(ReadAll(rules, a, kids))
    decreases kids, 1
  {
    hide OnStep;
    ContentIsRead(rules, a, kids, b);
    PlainAfter(rules, a, kids, inside, level, b);
    PlainlyLeft(rules, b, u);
  }

  lemma PlainAfter(rules: Rules, a: State, kids: seq<Node>, inside: seq<string>, level: nat, b: State)
    requires Sane(rules) && StreamFaults.Within(a, Deciding, inside, level)
    requires FaultIn(rules, Deciding, inside, level, kids).None? && b == OnSteps(rules, a, StepsOf(kids))
    ensures Plain(b)
  {
    ContentFaults(rules, a, kids, Deciding, inside, level, b);
  }

  lemma EntersDeciding(rules: Rules, s: State, e: Element, a: State, inside: seq<string>)
    requires Sane(rules) && StreamFaults.Within(s, Deciding, s.Open(), s.openElements) && s.openElements < MAX_DEPTH
    requires AttentionTo(rules, Deciding, s.Open(), e).Deciding? && a == OnStep(rules, s, Start(e))
    requires inside == s.Open() + [e.local]
    ensures StreamFaults.Within(a, Deciding, inside, s.openElements + 1) && a.Open() == inside
    ensures a.openElements == s.openElements + 1
  {
    EntersWithin(rules, s, e, Deciding, s.Open(), s.openElements, a);
  }

  lemma PlainlyLeft(rules: Rules, b: State, u: State)
    requires Plain(b) && u == OnStep(rules, b, End)
    ensures u == Leave(b)
  {
  }

  /** What is claimed, recorded or dropped without a fault is within the nesting bound,
      and clean unless it is dropped. */
  lemma {:induction false} HeldIsDeep(
    rules: Rules, attention: Attention, open: seq<string>, level: nat, nodes: seq<Node>)
    requires !attention.Deciding? && FaultIn(rules, attention, open, level, nodes).None?
    ensures Depth(nodes) > 0 ==> level + Depth(nodes) <= MAX_DEPTH
    ensures attention.Dropped? || Clean(nodes)
    decreases nodes
  {
    if nodes != [] {
      if nodes[0].Elem? {
        HeldIsDeep(rules, attention, open + [nodes[0].element.local], level + 1, nodes[0].kids);
      }
      HeldIsDeep(rules, attention, open, level, nodes[1..]);
    }
  }

  /** A document without a fault: the whole run, every event of it in order, is the
      reading of its tree, whatever the dialect. */
  lemma RunIsReading(rules: Rules, root: Element, kids: seq<Node>)
    requires Sane(rules) && FaultIn(rules, Deciding, [root.local], 1, kids).None?
    ensures Parse(rules, root, StepsOf(kids) + [End]) == ReadDocument(rules, root, kids)
  {
    var b, steps := Begin(rules, root), StepsOf(kids);
    BeginModes(rules, root);
    assert b.Open() == [root.local];
    var t := OnSteps(rules, b, steps);
    ContentIsRead(rules, b, kids, t);
    ContentFaults(rules, b, kids, Deciding, [root.local], 1, t);
    RootCloses(rules, b, steps, t);
  }

  lemma RootCloses(rules: Rules, b: State, steps: seq<Step>, t: State)
    requires t == OnSteps(rules, b, steps) && Plain(t) && |t.stack| == 1
    ensures OnSteps(rules, b, steps + [End] + [Eof]) == Leave(t)
  {
    Assoc(steps, [End], [Eof]);
    OnStepsConcat(rules, b, steps, [End] + [Eof]);
    OnStepsConcat(rules, t, [End], [Eof]);
    OnStepsOne(rules, t, End);
    LastEndCloses(rules, t);
    OverStaysOver(rules, OnStep(rules, t, End), [Eof]);
  }

  // ---------------------------------------------------------------- captions and tables

  lemma {:induction false} ReadAllConcat(rules: Rules, s: State, a: seq<Node>, b: seq<Node>)
    ensures ReadAll(rules, s, a + b) == ReadAll(rules, ReadAll(rules, s, a), b)
    decreases |a|
  {
    if a == [] {
      assert a + b == b;
    } else {
      assert (a + b)[1..] == a[1..] + b;
      ReadAllConcat(rules, ReadNode(rules, s, a[0]), a[1..], b);
    }
  }

  lemma ReadAllOne(rules: Rules, s: State, node: Node)
    ensures ReadAll(rules, s, [node]) == ReadNode(rules, s, node)
  {
    assert [node][1..] == [];
  }

  /** Text between elements sends nothing yet, and no caption goes out for it. */
  lemma {:induction false} TextWaits(rules: Rules, s: State, gap: seq<Node>)
    requires forall i :: 0 <= i < |gap| ==> !gap[i].Elem?
    ensures var t := ReadAll(rules, s, gap);
      t.pending == s.pending && t.out == s.out && t.Open() == s.Open()
    decreases |gap|
  {
    if gap != [] {
      var t := ReadNode(rules, s, gap[0]);
      SameLocals(s.stack, t.stack);
      TextWaits(rules, t, gap[1..]);
    }
  }

  /** An element mapped as a caption, and one mapped as a table. */
  predicate Maps(rules: Rules, open: seq<string>, caption: Element, table: Element) {
    && !rules.xbrl && !(rules.islands && (caption.namespace == NS_XHTML || table.namespace == NS_XHTML))
    && rules.action(open, caption).Caption? && rules.action(open, table).Table?
  }

  /** A caption rides with the next table beside it, however much text lies between the
      two: it is in that table's start, and waits no longer. */
  lemma NextTableTakesCaption(
    rules: Rules, s: State, caption: Element, inside: seq<Node>, gap: seq<Node>, table: Element, kids: seq<Node>)
    returns (before: State)
    requires Maps(rules, s.Open(), caption, table) && TextOf(rules, s.Open() + [caption.local], inside).0 != ""
    requires forall i :: 0 <= i < |gap| ==> !gap[i].Elem?
    ensures ReadAll(rules, s, [Elem(caption, inside)] + gap + [Elem(table, kids)])
         == ReadTable(rules, before, table, kids)
    ensures before.pending.Some? && before.pending.value.text == TextOf(rules, s.Open() + [caption.local], inside).0
    ensures before.pending.value.element == caption && s.out <= before.out
  {
    hide TextOf;
    var t := ReadNode(rules, s, Elem(caption, inside));
    CaptionIsPending(rules, s, caption, inside, t);
    ReadAllConcat(rules, s, [Elem(caption, inside)] + gap, [Elem(table, kids)]);
    ReadAllConcat(rules, s, [Elem(caption, inside)], gap);
    ReadAllOne(rules, s, Elem(caption, inside));
    TextWaits(rules, t, gap);
    var k := ReadAll(rules, t, gap);
    ReadAllOne(rules, k, Elem(table, kids));
    before := Counted(FlushOwn(k, false), 1 + Elements(kids));
    FlushOwnOpen(k, false);
    FlushOwnKeeps(k);
  }

  lemma FlushOwnKeeps(s: State)
    ensures FlushOwn(s, false).pending == s.pending && s.out <= FlushOwn(s, false).out
  {
  }

  lemma CaptionIsPending(rules: Rules, s: State, e: Element, kids: seq<Node>, t: State)
    requires !rules.xbrl && !(rules.islands && e.namespace == NS_XHTML) && rules.action(s.Open(), e).Caption?
    requires TextOf(rules, s.Open() + [e.local], kids).0 != "" && t == ReadNode(rules, s, Elem(e, kids))
    ensures t.pending.Some? && t.pending.value.text == TextOf(rules, s.Open() + [e.local], kids).0
    ensures t.pending.value.element == e && s.out <= t.out && t.Open() == s.Open()
  {
    hide TextOf;
    FlushOwnOpen(s, false);
    FlushOwnKeeps(s);
  }
}
