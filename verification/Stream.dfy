/** The forward pass over one document, from XML steps to the event stream, as a
    function of its state and one step. The class in Driver.dfy is proved against
    it. The dialect's rules are arbitrary functions. */
module Stream {
  import opened Basics
  import opened Wrappers
  import opened Collapse
  import opened Decimal
  import opened Xml
  import opened Flatten
  import opened Records
  import Document

  type Label = Document.Label

  /** How many elements may be open at once. */
  const MAX_DEPTH: nat := 1024

  const NS_XHTML := "http://www.w3.org/1999/xhtml"

  const U32_MAX: nat := 0xFFFF_FFFF

  /** Bounds on what a table element may claim: column declarations and cell spans. */
  const MAX_COLUMN_SPECS: nat := 4096
  const MAX_COLUMN_SPAN: nat := 1000
  const MAX_ROW_SPAN: nat := 65534

  const ROW_ELEMENTS := {"tr", "row"}
  const CELL_ELEMENTS := {"td", "th", "entry", "cell"}
  const HEADER_CELL_ELEMENTS := {"th"}
  const HEADER_SECTION_ELEMENTS := {"thead"}
  const COLUMN_SPEC_ELEMENTS := {"colspec", "col"}

  // ------------------------------------------------------------------------ rules

  /** The label an item goes out under, with the level and ordinal the rules give it. */
  datatype Spec = Spec(kind: Label, role: string, level: Option<nat>, ordinal: Option<nat>)

  datatype Action =
    | Descend
    | Skip
    | Capture(spec: Spec)
    | AttrText(kind: Label, role: string, attr: string)
    | Caption
    | Table
    | Meta(shape: Shape)

  /** A dialect: what its rules answer, given the open ancestors and an element, and
      what the caller asked for. */
  datatype Rules = Rules(
    action: (seq<string>, Element) -> Action,
    inline: InlineRule,
    listContainer: (seq<string>, Element) -> Option<bool>,
    ownText: (seq<string>, Element) -> Option<Spec>,
    sections: set<string>,
    xbrl: bool, doclang: bool, islands: bool, inlineSpans: bool, metadata: bool)

  // ----------------------------------------------------------------------- events

  datatype ListPlacement = ListPlacement(depth: nat, ordered: bool)

  datatype TextItem = TextItem(
    kind: Label, role: string, text: string, level: Option<nat>, ordinal: Option<nat>,
    element: Element, spans: seq<InlineSpan>, list: Option<ListPlacement>, fromCdata: bool)

  datatype TableCell = TableCell(
    columnIndex: nat, text: string, columnSpan: nat, rowSpan: nat, isHeader: bool, spans: seq<InlineSpan>)

  datatype ColumnSpec = ColumnSpec(name: string, width: string)

  datatype RecordCounts = RecordCounts(metaItems: nat, notes: nat, contexts: nat, units: nat)

  datatype Counts = Counts(
    elements: nat, textItems: nat, tables: nat, tableRows: nat, facts: nat, islands: nat, records: RecordCounts)

  const NO_COUNTS := Counts(0, 0, 0, 0, 0, 0, RecordCounts(0, 0, 0, 0))

  /** A table's reference, written t and its number, is modelled as the number. The
      mark on an item says it is a caption that waited for a table in vain; the
      event itself does not carry it. */
  datatype Event =
    | Info(root: Element)
    | Item(index: nat, item: TextItem, waited: bool)
    | TableStart(index: nat, table: nat, caption: Option<string>, element: Element)
    | TableRow(table: nat, row: nat, isHeader: bool, cells: seq<TableCell>)
    | TableEnd(table: nat, rowCount: nat, columnCount: nat, columns: seq<ColumnSpec>)
    | Fact(index: nat, element: Element, context: Option<Context>, unit: Option<Unit>, value: string)
    | Island(index: nat, element: Element, text: string)
    | MetaItem(element: Element, shape: Shape, tree: MetaTree)
    | NoteItem(note: XbrlNote)
    | Status(counts: Counts)

  // ------------------------------------------------------------------------ state

  /** An own-text run being collected: what it will be sent as and what it holds so far. */
  datatype OwnText = OwnText(
    spec: Spec, element: Element, text: string, fromCdata: bool, emitted: bool, attributeText: Option<string>)

  datatype Frame = Frame(local: string, list: Option<bool>, own: Option<OwnText>)

  datatype CaptureBuild = CaptureBuild(
    depth: nat, spec: Spec, element: Element, flow: Flow, list: Option<ListPlacement>, fromCdata: bool, isCaption: bool)

  datatype PendingCaption = PendingCaption(
    text: string, spans: seq<InlineSpan>, element: Element, fromCdata: bool, wrapperDepth: nat)

  datatype CellBuild = CellBuild(
    depth: nat, flow: Flow, columnIndex: nat, columnSpan: nat, rowSpan: nat, isHeader: bool)

  datatype Row = Row(isHeader: bool, cells: seq<TableCell>, nextColumn: nat)

  datatype TableBuild = TableBuild(
    depth: nat, reference: nat, rowIndex: nat, columnCount: nat, headerSections: nat,
    row: Option<Row>, cell: Option<CellBuild>, columns: seq<ColumnSpec>)

  datatype IslandBuild = IslandBuild(depth: nat, element: Element, text: string)

  datatype FactBuild = FactBuild(
    depth: nat, index: nat, element: Element, context: Option<Context>, unit: Option<Unit>, text: string)

  datatype ParseError = Refused | Malformed | Truncated | Ambiguous

  datatype Progress = Running | Closed | Failed(error: ParseError)

  /** What is read whole: the record being read, and what the contexts and units read so
      far declare under their names. */
  datatype Kept = Kept(record: Option<Record>, contexts: map<string, Context>, units: map<string, Unit>)

  /** While skipping is positive the pass is that deep in a subtree no rule maps: one it
      reads as a record, or one it drops. */
  datatype State = State(
    stack: seq<Frame>, openElements: nat, skipping: nat, kept: Kept,
    capture: Option<CaptureBuild>, table: Option<TableBuild>, island: Option<IslandBuild>, fact: Option<FactBuild>,
    pending: Option<PendingCaption>, index: nat, counts: Counts, out: seq<Event>, progress: Progress)
  {
    /** Local names of the open elements, root first. */
    function Open(): seq<string> {
      Locals(stack)
    }
  }

  function Locals(stack: seq<Frame>): (r: seq<string>)
    ensures |r| == |stack|
  {
    seq(|stack|, i requires 0 <= i < |stack| => stack[i].local)
  }

  // -------------------------------------------------------------------- arithmetic

  function Clamp(n: nat, lo: nat, hi: nat): nat {
    if n < lo then lo else if n > hi then hi else n
  }

  function SatU32(n: nat): nat {
    if n <= U32_MAX then n else U32_MAX
  }

  function NumberOf(e: Element, name: string, max: nat): Option<nat> {
    if e.Get(name).Some? then ParseUnsigned(e.Get(name).value, max) else None
  }

  // ----------------------------------------------------------------- emitting items

  function EmitItem(s: State, item: TextItem, waited: bool): State {
    s.(index := s.index + 1, counts := s.counts.(textItems := s.counts.textItems + 1),
       out := s.out + [Item(s.index, item, waited)])
  }

  /** The caption that waits for a table goes out as an item of its own. */
  function FlushPending(s: State): State {
    if s.pending.None? then s
    else
      var p := s.pending.value;
      EmitItem(s.(pending := None),
               TextItem(Document.Label.Caption, "", p.text, None, None, p.element, p.spans, None, p.fromCdata), true)
  }

  // ---------------------------------------------------------------------- own text

  /** Attributes but for namespace declarations, as name="value" pairs. */
  function AttributePairs(attrs: seq<(string, string)>): string {
    if attrs == [] then ""
    else
      var before, (name, value) := AttributePairs(attrs[..|attrs| - 1]), attrs[|attrs| - 1];
      if name == "xmlns" || "xmlns:" <= name then before
      else before + (if before == "" then "" else " ") + name + "=\"" + value + "\""
  }

  function AttributeText(e: Element): Option<string> {
    if AttributePairs(e.attrs) == "" then None else Some(AttributePairs(e.attrs))
  }

  function OwnTextFor(rules: Rules, open: seq<string>, e: Element): Option<OwnText> {
    var spec := rules.ownText(open, e);
    if spec.None? then None else Some(OwnText(spec.value, e, "", false, false, AttributeText(e)))
  }

  /** The innermost element's run of own text ends: it goes out as an item unless it
      is blank. An element that closes and never sent any text sends its attributes. */
  function FlushOwn(s: State, closing: bool): State {
    if s.stack == [] || s.stack[|s.stack| - 1].own.None? then s
    else
      var n := |s.stack| - 1;
      var own := s.stack[n].own.value;
      var text := Collapsed(own.text);
      var attributes := if text == "" && closing && !own.emitted then own.attributeText else None;
      var cleared := own.(text := "", fromCdata := false);
      if text == "" && attributes.None? then
        s.(stack := s.stack[n := s.stack[n].(own := Some(cleared))])
      else
        EmitItem(
          s.(stack := s.stack[n := s.stack[n].(own := Some(cleared.(
            emitted := true, attributeText := if attributes.Some? then None else own.attributeText)))]),
          TextItem(if text == "" then Document.Paragraph else own.spec.kind, own.spec.role,
                   if text == "" then attributes.value else text,
                   own.spec.level, own.spec.ordinal, own.element, [], None, own.fromCdata), false)
  }

  function AppendOwn(s: State, text: string, cdata: bool): State {
    if s.stack == [] || s.stack[|s.stack| - 1].own.None? then s
    else
      var n := |s.stack| - 1;
      var own := s.stack[n].own.value;
      var more := own.(text := own.text + text, fromCdata := own.fromCdata || cdata);
      s.(stack := s.stack[n := s.stack[n].(own := Some(more))])
  }

  // ---------------------------------------------------------------------- captures

  function Push(s: State, e: Element): State {
    s.(stack := s.stack + [Frame(e.local, None, None)])
  }

  function Pop(s: State): State {
    var stack := if s.stack == [] then [] else s.stack[..|s.stack| - 1];
    s.(stack := stack, progress := if stack == [] then Closed else s.progress)
  }

  /** The list an item sits in: how many list containers are open, and the kind of
      the innermost; none when there is no list container at all. */
  function OpenList(stack: seq<Frame>): Option<ListPlacement> {
    if stack == [] then None
    else
      var outer := OpenList(stack[..|stack| - 1]);
      var list := stack[|stack| - 1].list;
      if list.None? then outer
      else Some(ListPlacement(if outer.Some? then outer.value.depth + 1 else 1, list.value))
  }

  function SectionsOpen(stack: seq<Frame>, sections: set<string>): nat {
    if stack == [] then 0
    else SectionsOpen(stack[..|stack| - 1], sections) + if stack[|stack| - 1].local in sections then 1 else 0
  }

  function BeginCapture(rules: Rules, s: State, spec: Spec, e: Element, isCaption: bool): State {
    var level :=
      if spec.level.None? && spec.kind.SectionHeader? then Some(Max(SectionsOpen(s.stack, rules.sections), 1))
      else spec.level;
    var list := if spec.kind.ListItem? then OpenList(s.stack) else None;
    s.(capture := Some(CaptureBuild(|s.stack|, spec.(level := level), e, Flatten.EMPTY, list, false, isCaption)))
  }

  function FinishCapture(s: State, c: CaptureBuild): State {
    var (text, spans) := Finished(c.flow);
    var t := s.(capture := None);
    if text == "" then t
    else if c.isCaption then
      FlushPending(t).(pending := Some(
        PendingCaption(text, spans, c.element, c.fromCdata, if c.depth > 0 then c.depth - 1 else 0)))
    else
      EmitItem(
        t, TextItem(c.spec.kind, c.spec.role, text, c.spec.level, c.spec.ordinal, c.element, spans, c.list,
          c.fromCdata),
        false)
  }

  function CaptureStart(rules: Rules, s: State, c: CaptureBuild, e: Element): State {
    Push(s.(capture := Some(c.(flow := c.flow.Enter(s.Open(), e, rules.inline, rules.inlineSpans)))), e)
  }

  function CaptureEnd(s: State, c: CaptureBuild): State {
    Pop(if |s.stack| == c.depth then FinishCapture(s, c)
        else s.(capture := Some(c.(flow := c.flow.Close(|s.stack|)))))
  }

  // ------------------------------------------------------------------------ tables

  function BeginTable(s: State, e: Element): State {
    var n := s.counts.tables + 1;
    var caption := if s.pending.Some? then Some(s.pending.value.text) else None;
    s.(pending := None,
       table := Some(TableBuild(|s.stack|, n, 0, 0, 0, None, None, [])),
       counts := s.counts.(tables := n),
       index := s.index + 1,
       out := s.out + [TableStart(s.index, n, caption, e)])
  }

  function ColumnsDeclared(e: Element): seq<ColumnSpec> {
    var span := NumberOf(e, "span", 0xFFFF_FFFF_FFFF_FFFF);
    var width := if e.Get("colwidth").Some? then e.Get("colwidth") else e.Get("width");
    seq(Clamp(if span.Some? then span.value else 1, 1, MAX_COLUMN_SPECS), _ =>
      ColumnSpec(if e.Get("colname").Some? then e.Get("colname").value else "",
                 if width.Some? then width.value else ""))
  }

  function AddColumns(columns: seq<ColumnSpec>, more: seq<ColumnSpec>): seq<ColumnSpec> {
    if |columns| >= MAX_COLUMN_SPECS then columns else Take(columns + more, MAX_COLUMN_SPECS)
  }

  function ColumnSpan(e: Element): nat {
    var span := NumberOf(e, "colspan", U32_MAX);
    Clamp(if span.Some? then span.value else 1, 1, MAX_COLUMN_SPAN)
  }

  /** rowspan, or the extra rows that morerows counts and one, or one row. */
  function RowSpan(e: Element): nat {
    var span, extra := NumberOf(e, "rowspan", U32_MAX), NumberOf(e, "morerows", U32_MAX);
    Clamp(if span.Some? then span.value else if extra.Some? then SatU32(extra.value + 1) else 1, 1, MAX_ROW_SPAN)
  }

  function OpenCell(t: TableBuild, depth: nat, e: Element): CellBuild {
    CellBuild(depth, Flatten.EMPTY, if t.row.Some? then t.row.value.nextColumn else 0, ColumnSpan(e), RowSpan(e),
              e.local in HEADER_CELL_ELEMENTS || t.headerSections > 0)
  }

  function StructureStart(t: TableBuild, depth: nat, e: Element): TableBuild {
    if e.local in COLUMN_SPEC_ELEMENTS then t.(columns := AddColumns(t.columns, ColumnsDeclared(e)))
    else if e.local in HEADER_SECTION_ELEMENTS then t.(headerSections := t.headerSections + 1)
    else if e.local in ROW_ELEMENTS then t.(row := Some(Row(t.headerSections > 0, [], 0)))
    else if e.local in CELL_ELEMENTS then t.(cell := Some(OpenCell(t, depth, e)))
    else t
  }

  function TableChild(rules: Rules, s: State, t: TableBuild, e: Element): State {
    var t' :=
      if t.cell.Some? then
        t.(cell := Some(t.cell.value.(flow := t.cell.value.flow.Enter(s.Open(), e, rules.inline, rules.inlineSpans))))
      else StructureStart(t, |s.stack| + 1, e);
    Push(s.(table := Some(t')), e)
  }

  /** A cell closes: it joins the open row, if there is one. */
  function FinishCell(t: TableBuild, c: CellBuild): TableBuild {
    var (text, spans) := Finished(c.flow);
    var cell := TableCell(c.columnIndex, text, c.columnSpan, c.rowSpan, c.isHeader, spans);
    t.(cell := None,
       row := if t.row.None? then None
              else Some(t.row.value.(cells := t.row.value.cells + [cell],
                                     nextColumn := SatU32(c.columnIndex + c.columnSpan))))
  }

  /** The column a row reaches. */
  function RowWidth(cells: seq<TableCell>): nat {
    if cells == [] then 0
    else
      var last := cells[|cells| - 1];
      Max(RowWidth(cells[..|cells| - 1]), SatU32(last.columnIndex + last.columnSpan))
  }

  predicate AllHeaders(cells: seq<TableCell>) {
    forall i :: 0 <= i < |cells| ==> cells[i].isHeader
  }

  function FinishRow(s: State, t: TableBuild, row: Row): State {
    var t' := t.(row := None);
    if row.cells == [] then s.(table := Some(t'))
    else
      s.(table := Some(t'.(columnCount := Max(t.columnCount, RowWidth(row.cells)), rowIndex := t.rowIndex + 1)),
         counts := s.counts.(tableRows := s.counts.tableRows + 1),
         out := s.out + [TableRow(t.reference, t.rowIndex, row.isHeader || AllHeaders(row.cells), row.cells)])
  }

  function FinishTable(s: State, t: TableBuild): State {
    s.(table := None, out := s.out + [TableEnd(t.reference, t.rowIndex, t.columnCount, t.columns)])
  }

  /** An end tag inside a table: of markup in a cell, of the cell, of a header
      section, of a row, or of the table itself. */
  function TableClose(s: State, t: TableBuild): State {
    if t.cell.Some? && |s.stack| != t.cell.value.depth then
      s.(table := Some(t.(cell := Some(t.cell.value.(flow := t.cell.value.flow.Close(|s.stack|))))))
    else if t.cell.Some? then s.(table := Some(FinishCell(t, t.cell.value)))
    else
      var closing := if s.stack == [] then "" else s.stack[|s.stack| - 1].local;
      if closing in HEADER_SECTION_ELEMENTS then
        s.(table := Some(t.(headerSections := if t.headerSections > 0 then t.headerSections - 1 else 0)))
      else if closing in ROW_ELEMENTS && t.row.Some? then FinishRow(s, t, t.row.value)
      else if |s.stack| == t.depth then FinishTable(s, t)
      else s
  }

  // --------------------------------------------------------------- islands and facts

  function BeginIsland(s: State, e: Element): State {
    var t := Push(s, e);
    t.(island := Some(IslandBuild(|t.stack|, e, "")))
  }

  function IslandEnd(s: State, i: IslandBuild): State {
    var text := i.text + " ";
    Pop(if |s.stack| == i.depth then
          s.(island := None, counts := s.counts.(islands := s.counts.islands + 1), index := s.index + 1,
             out := s.out + [Island(s.index, i.element, Collapsed(text))])
        else s.(island := Some(i.(text := text))))
  }

  function BeginFact(s: State, e: Element): State {
    var t := Push(s, e);
    var context, unit := Named(s.kept.contexts, e.Get("contextRef")), Named(s.kept.units, e.Get("unitRef"));
    t.(index := s.index + 1, fact := Some(FactBuild(|t.stack|, s.index, e, context, unit, "")))
  }

  /** What was declared under the name a fact refers to, so far. */
  function Named<T>(declared: map<string, T>, name: Option<string>): Option<T> {
    if name.Some? && name.value in declared then Some(declared[name.value]) else None
  }

  function FactEnd(s: State, f: FactBuild): State {
    Pop(if |s.stack| == f.depth then
          s.(fact := None, counts := s.counts.(facts := s.counts.facts + 1),
             out := s.out + [Fact(f.index, f.element, f.context, f.unit, Collapsed(f.text))])
        else s)
  }

  function XbrlStart(rules: Rules, s: State, e: Element): State {
    match ReadingOf(e)
    case ReadFact => BeginFact(s, e)
    case ReadRecord(kind) => BeginRecord(s, kind, e)
    case Discard => s.(skipping := 1)
    case Pass => Push(s, e)
  }

  // ------------------------------------------------------------------------ records

  function BeginRecord(s: State, kind: RecordKind, e: Element): State {
    s.(skipping := 1, kept := s.kept.(record := Some(Record(kind, e, []))))
  }

  /** A step of a subtree that is not mapped; a record keeps it. */
  function Noted(s: State, step: Step): State {
    if s.kept.record.None? then s
    else
      var r := s.kept.record.value;
      s.(kept := s.kept.(record := Some(r.(read := r.read + [step]))))
  }

  /** A record's own end tag: what it says goes out, or is kept for the facts. */
  function FinishRecord(s: State, r: Record): State {
    var kept, n := s.kept.(record := None), s.counts.records;
    match r.kind
    case ContextRecord =>
      var c := ContextOf(r.element, r.read);
      Keep(s, kept.(contexts := kept.contexts[c.id := c]), n.(contexts := n.contexts + 1))
    case UnitRecord =>
      var u := UnitOf(r.element, r.read);
      Keep(s, kept.(units := kept.units[u.id := u]), n.(units := n.units + 1))
    case NoteRecord(footnote) =>
      var notes := NotesOf(footnote, r.read);
      Keep(s, kept, n.(notes := n.notes + |notes|)).(out := s.out + NoteItems(notes))
    case MetaRecord(shape) =>
      Keep(s, kept, n.(metaItems := n.metaItems + 1)).(out := s.out + [MetaItem(r.element, shape, TreeOf(r.read))])
  }

  function Keep(s: State, kept: Kept, counts: RecordCounts): State {
    s.(kept := kept, counts := s.counts.(records := counts))
  }

  function NoteItems(notes: seq<XbrlNote>): (items: seq<Event>)
    ensures |items| == |notes|
  {
    seq(|notes|, i requires 0 <= i < |notes| => NoteItem(notes[i]))
  }

  /** The end tag of the subtree itself: the pass goes on after it. */
  function EndUnmapped(s: State): State {
    var t := s.(skipping := 0);
    if t.kept.record.None? then t else FinishRecord(t, t.kept.record.value)
  }

  // --------------------------------------------------------------------- the pass

  function Enter(rules: Rules, s: State, e: Element): State {
    s.(stack := s.stack + [Frame(e.local, rules.listContainer(s.Open(), e), OwnTextFor(rules, s.Open(), e))])
  }

  function AttributeItem(rules: Rules, s: State, kind: Label, role: string, attr: string, e: Element): State {
    var t := Push(s, e);
    var u := if rules.doclang && kind.Picture? then FlushPending(t) else t;
    var text := if e.Get(attr).Some? then Collapsed(e.Get(attr).value) else "";
    if text == "" then u else EmitItem(u, TextItem(kind, role, text, None, None, e, [], None, false), false)
  }

  /** An element where nothing is open but plain structure: the dialect decides. */
  function Mapped(rules: Rules, s: State, e: Element): State {
    match rules.action(s.Open(), e)
    case Descend => Enter(rules, s, e)
    case Skip => s.(skipping := 1)
    case Table => BeginTable(Push(s, e), e)
    case Caption => BeginCapture(rules, Push(s, e), Spec(Document.Label.Caption, "", None, None), e, true)
    case Capture(spec) => BeginCapture(rules, Push(s, e), spec, e, false)
    case AttrText(kind, role, attr) => AttributeItem(rules, s, kind, role, attr, e)
    case Meta(shape) => if rules.metadata then BeginRecord(s, MetaRecord(shape), e) else s.(skipping := 1)
  }

  function PlainStart(rules: Rules, s: State, e: Element): State {
    var t := FlushOwn(s, false);
    if rules.islands && e.namespace == NS_XHTML then BeginIsland(t, e) else Mapped(rules, t, e)
  }

  function OnStart(rules: Rules, s: State, e: Element): State {
    if s.island.Some? then Push(s.(island := Some(s.island.value.(text := s.island.value.text + " "))), e)
    else if s.capture.Some? then CaptureStart(rules, s, s.capture.value, e)
    else if s.fact.Some? then Push(s, e)
    else if s.table.Some? then TableChild(rules, s, s.table.value, e)
    else if rules.xbrl then XbrlStart(rules, s, e)
    else PlainStart(rules, s, e)
  }

  function PlainEnd(s: State): State {
    var t := if s.pending.Some? && |s.stack| == s.pending.value.wrapperDepth then FlushPending(s) else s;
    Pop(FlushOwn(t, true))
  }

  function OnEnd(s: State): State {
    if s.island.Some? then IslandEnd(s, s.island.value)
    else if s.capture.Some? then CaptureEnd(s, s.capture.value)
    else if s.fact.Some? then FactEnd(s, s.fact.value)
    else if s.table.Some? then Pop(TableClose(s, s.table.value))
    else PlainEnd(s)
  }

  function OnText(s: State, text: string, cdata: bool): State {
    if s.island.Some? then s.(island := Some(s.island.value.(text := s.island.value.text + text)))
    else if s.capture.Some? then
      var c := s.capture.value;
      s.(capture := Some(c.(flow := c.flow.Append(text), fromCdata := c.fromCdata || cdata)))
    else if s.fact.Some? then s.(fact := Some(s.fact.value.(text := s.fact.value.text + text)))
    else if s.table.Some? && s.table.value.cell.Some? then
      var t := s.table.value;
      s.(table := Some(t.(cell := Some(t.cell.value.(flow := t.cell.value.flow.Append(text))))))
    else AppendOwn(s, text, cdata)
  }

  function Fail(s: State, error: ParseError): State {
    s.(progress := Failed(error))
  }

  function CountElement(s: State): State {
    s.(openElements := s.openElements + 1, counts := s.counts.(elements := s.counts.elements + 1))
  }

  /** An element inside a subtree that is not mapped is open; whether it counts as
      visited depends on what the subtree is read for. */
  function CountUnmapped(s: State): State {
    if s.kept.record.Some? && !s.kept.record.value.kind.Tallied() then s.(openElements := s.openElements + 1)
    else CountElement(s)
  }

  function UncountElement(s: State): State {
    s.(openElements := if s.openElements > 0 then s.openElements - 1 else 0)
  }

  /** One step. In a subtree that is dropped only tags matter, and even a declaration is
      passed over; a record is read step by step, and refuses one. */
  function OnStep(rules: Rules, s: State, step: Step): State {
    if s.progress != Running then s
    else
      match step
      case Start(e) =>
        if s.openElements >= MAX_DEPTH then Fail(s, Refused)
        else if s.skipping > 0 then Noted(CountUnmapped(s), step).(skipping := s.skipping + 1)
        else OnStart(rules, CountElement(s), e)
      case End =>
        if s.skipping > 1 then Noted(UncountElement(s), step).(skipping := s.skipping - 1)
        else if s.skipping == 1 then EndUnmapped(UncountElement(s))
        else OnEnd(UncountElement(s))
      case Text(text) => if s.skipping > 0 then Noted(s, step) else OnText(s, text, false)
      case CData(text) => if s.skipping > 0 then Noted(s, step) else OnText(s, text, true)
      case GeneralRef(name, resolved) =>
        if s.skipping > 0 then Noted(s, step) else OnText(s, ReferenceText(name, resolved), false)
      case Ignorable => s
      case Declaration => OnStray(s)
      case DocType(_, _) => OnStray(s)
      case Eof => Fail(s, Truncated)
  }

  /** A declaration or DOCTYPE inside the root is refused, except in a dropped subtree. */
  function OnStray(s: State): State {
    if s.skipping > 0 && s.kept.record.None? then s else Fail(s, Malformed)
  }

  function OnSteps(rules: Rules, s: State, steps: seq<Step>): State
    decreases |steps|
  {
    if steps == [] then s else OnSteps(rules, OnStep(rules, s, steps[0]), steps[1..])
  }

  /** The state once the root's start tag was read and announced. */
  function Begin(rules: Rules, root: Element): State {
    State([Frame(root.local, None, OwnTextFor(rules, [], root))], 1, 0, Kept(None, map[], map[]),
          None, None, None, None, None, 0, NO_COUNTS.(elements := 1), [Info(root)], Running)
  }

  /** The trailer, once the root has closed. */
  function Finish(s: State): State {
    if s.progress == Closed then s.(out := s.out + [Status(s.counts)]) else s
  }

  /** A whole run over the steps that follow the root's start tag; the reader goes on
      answering end of input once there are no more. */
  function Parse(rules: Rules, root: Element, steps: seq<Step>): State {
    Finish(OnSteps(rules, Begin(rules, root), steps + [Eof]))
  }
}
