/** The fold from the event stream into one Document, as a function of its state
    and one event. The class in DocumentFold.dfy is proved against it. */
module Fold {
  import opened Wrappers
  import opened Document
  import opened Grid

  // ----------------------------------------------------------------------- events

  datatype TextEvent = TextEvent(
    kind: Label, text: string, level: Option<nat>, ordinal: Option<nat>, elementId: Option<string>,
    spans: seq<WireSpan>, listDepth: Option<nat>, enumerated: bool)
  {
    function Level(): nat {
      if level.Some? then level.value else 1
    }

    /** The depth its list must have; an item that states none, or zero, counts as depth 1. */
    function Depth(): nat {
      if listDepth.Some? && listDepth.value > 1 then listDepth.value else 1
    }

    predicate Ordered() {
      enumerated || ordinal.Some?
    }

    predicate Chrome() {
      kind.PageHeader? || kind.PageFooter?
    }
  }

  /** The eleven display values of a fact row; column 3 is the context. */
  type FactColumns = s: seq<string> | |s| == 11 witness seq(11, _ => "")

  const FACT_HEADINGS: FactColumns :=
    ["concept", "entity_scheme", "entity", "context", "period", "unit", "value", "decimals", "precision", "sign", "nil"]

  const CONTEXT_COLUMN := 3

  datatype Event =
    | Text(item: TextEvent)
    | TableStart(tableRef: string, caption: Option<string>, elementId: Option<string>)
    | TableRow(tableRef: string, isHeader: bool, cells: seq<WireCell>)
    | TableEnd(tableRef: string)
    | Fact(columns: FactColumns, dimensions: seq<(string, string)>)
    | Citation(text: string, ordinal: Option<nat>, elementId: Option<string>)
    | Footnote(text: string, name: string)
    | HtmlIsland(text: string)
    | Unmapped

  function PlainText(kind: Label, text: string, ordinal: Option<nat>, elementId: Option<string>): TextEvent {
    TextEvent(kind, text, None, ordinal, elementId, [], None, false)
  }

  // ------------------------------------------------------------------------ state

  datatype Heading = Heading(level: nat, ref: Ref)

  datatype OpenList = OpenList(depth: nat, ordered: bool, ref: Ref)

  datatype PendingTable = PendingTable(
    reference: string, parent: Ref, captions: seq<Ref>, elementId: Option<string>, layout: Layout)

  datatype State = State(
    doc: Document,
    headings: seq<Heading>,
    lists: seq<OpenList>,
    table: Option<PendingTable>,
    factsTable: Option<nat>,
    anchors: map<string, Ref>,
    spanSlotsLeft: nat)

  const FRESH := State(EMPTY, [], [], None, None, map[], MAX_SPAN_SLOTS)

  // ------------------------------------------------------------------- primitives

  /** The last header of the stack, and the body when the stack is empty. */
  function CurrentParent(headings: seq<Heading>): Ref {
    if headings == [] then Body else headings[|headings| - 1].ref
  }

  /** The headers a header of this level leaves open. */
  function CloseHeadings(headings: seq<Heading>, level: nat): seq<Heading> {
    if headings != [] && headings[|headings| - 1].level >= level
    then CloseHeadings(headings[..|headings| - 1], level)
    else headings
  }

  /** The list groups an item of this depth and kind leaves open. */
  function CloseLists(lists: seq<OpenList>, depth: nat, ordered: bool): seq<OpenList> {
    if lists != [] && ClosedBy(lists[|lists| - 1], depth, ordered)
    then CloseLists(lists[..|lists| - 1], depth, ordered)
    else lists
  }

  /** Deeper than the item, or as deep and of the other kind. */
  predicate ClosedBy(open: OpenList, depth: nat, ordered: bool) {
    open.depth > depth || (open.depth == depth && open.ordered != ordered)
  }

  /** An identifier is entered once, for the item that claims it while it is free. */
  function ClaimAnchor(anchors: map<string, Ref>, elementId: Option<string>, ref: Ref): map<string, Ref> {
    if elementId.None? || elementId.value == "" || elementId.value in anchors then anchors
    else anchors[elementId.value := ref]
  }

  // ------------------------------------------------------------------------ lists

  function OpenListGroup(f: State, depth: nat, ordered: bool): State {
    var parent := if f.lists == [] then CurrentParent(f.headings) else f.lists[|f.lists| - 1].ref;
    var self := Groups(|f.doc.groups|);
    var doc := f.doc.(groups := f.doc.groups + [GroupItem(self, parent, ListGroup(ordered), [])]);
    f.(doc := doc.LinkChild(parent, self), lists := f.lists + [OpenList(depth, ordered, self)])
  }

  /** The state with a group open for the item, which is its last open list. */
  function EnsureList(f: State, depth: nat, ordered: bool): (g: State)
    ensures g.lists != []
  {
    var closed := f.(lists := CloseLists(f.lists, depth, ordered));
    if closed.lists == [] || closed.lists[|closed.lists| - 1].depth < depth
    then OpenListGroup(closed, depth, ordered)
    else closed
  }

  // ------------------------------------------------------------------------- text

  /** The state a text item is placed in: a header closes the headers it ends, a
      list item has its group open, any other body content ends the lists. */
  function Opened(f: State, item: TextEvent): State {
    var g := if item.kind.SectionHeader? then f.(headings := CloseHeadings(f.headings, item.Level())) else f;
    if item.Chrome() then g
    else if item.kind.ListItem? then EnsureList(g, item.Depth(), item.Ordered())
    else g.(lists := [])
  }

  function ParentFor(g: State, item: TextEvent): Ref
    requires item.kind.ListItem? ==> g.lists != []
  {
    if item.Chrome() then Furniture
    else if item.kind.ListItem? then g.lists[|g.lists| - 1].ref
    else CurrentParent(g.headings)
  }

  function NewText(item: TextEvent, self: Ref, parent: Ref): TextItem {
    TextItem(
      self, parent, if item.Chrome() then FurnitureLayer else BodyLayer, item.kind,
      if item.kind.SectionHeader? then Sat(item.Level()) else 0,
      item.kind.ListItem? && item.Ordered(),
      item.text, item.elementId, if item.kind.Code? then [] else InlineSpans(item.spans), [])
  }

  function PlaceText(g: State, item: TextEvent): State
    requires item.kind.ListItem? ==> g.lists != []
  {
    var parent, self := ParentFor(g, item), Texts(|g.doc.texts|);
    var doc := g.doc.(texts := g.doc.texts + [NewText(item, self, parent)]);
    g.(doc := doc.LinkChild(parent, self),
       anchors := ClaimAnchor(g.anchors, item.elementId, self),
       headings := if item.kind.SectionHeader? then g.headings + [Heading(item.Level(), self)] else g.headings)
  }

  function PushText(f: State, item: TextEvent): State {
    PlaceText(Opened(f, item), item)
  }

  // -------------------------------------------------------------- islands, pictures

  function PushIslandSource(f: State, group: Ref, text: string): State {
    var self := Texts(|f.doc.texts|);
    var item := TextItem(self, group, BodyLayer, Paragraph, 0, false, text, None, [], []);
    f.(doc := f.doc.(texts := f.doc.texts + [item]).LinkChild(group, self))
  }

  function OpenIsland(f: State): State {
    var parent, self := CurrentParent(f.headings), Groups(|f.doc.groups|);
    var doc := f.doc.(groups := f.doc.groups + [GroupItem(self, parent, IslandGroup, [])]);
    f.(lists := [], doc := doc.LinkChild(parent, self))
  }

  function OnHtmlIsland(f: State, text: string): State {
    var self := Groups(|f.doc.groups|);
    var g := PushIslandSource(OpenIsland(f), self, text);
    g.(doc := g.doc.(attachments := g.doc.attachments + [self]))
  }

  function PushPicture(f: State, item: TextEvent): State {
    var parent, self := CurrentParent(f.headings), Pictures(|f.doc.pictures|);
    var doc := f.doc.(pictures := f.doc.pictures + [PictureItem(self, parent, [], item.elementId, [])]);
    f.(lists := [], doc := doc.LinkChild(parent, self), anchors := ClaimAnchor(f.anchors, item.elementId, self))
  }

  // ----------------------------------------------------------------------- tables

  function NewTable(self: Ref, p: PendingTable): TableItem {
    TableItem(self, p.parent, p.captions, p.elementId, p.layout.grid, p.layout.cells,
              Sat(|p.layout.grid|), p.layout.numCols, [])
  }

  function AppendTable(f: State, p: PendingTable): State {
    var self := Tables(|f.doc.tables|);
    var doc := f.doc.(tables := f.doc.tables + [NewTable(self, p)]);
    f.(doc := doc.LinkChild(p.parent, self), anchors := ClaimAnchor(f.anchors, p.elementId, self))
  }

  /** Close the open table, if there is one. */
  function FinishTable(f: State): State {
    if f.table.None? then f else AppendTable(f.(table := None), f.table.value)
  }

  function CaptionText(text: string): TextEvent {
    PlainText(Caption, text, None, None)
  }

  function OnTableStart(f: State, tableRef: string, caption: Option<string>, elementId: Option<string>): State {
    var g := FinishTable(f.(lists := []));
    var captioned := caption.Some? && caption.value != "";
    var h := if captioned then PushText(g, CaptionText(caption.value)) else g;
    var captions := if captioned then [Texts(|g.doc.texts|)] else [];
    h.(table := Some(PendingTable(tableRef, CurrentParent(h.headings), captions, elementId, NO_ROWS)))
  }

  function OnTableRow(f: State, tableRef: string, isHeader: bool, cells: seq<WireCell>): State {
    if f.table.None? || f.table.value.reference != tableRef then f
    else
      var p := f.table.value;
      var (layout, left) := LayRow(p.layout, cells, isHeader, f.spanSlotsLeft);
      f.(table := Some(p.(layout := layout)), spanSlotsLeft := left)
  }

  function OnTableEnd(f: State, tableRef: string): State {
    if f.table.None? || f.table.value.reference != tableRef then f else FinishTable(f)
  }

  // ------------------------------------------------------------------------ facts

  function FactCell(row: nat, column: nat, text: string, header: bool, ref: Option<Ref>): Cell {
    Cell(1, 1, row, row + 1, column, column + 1, text, header, [], ref)
  }

  function FactRow(row: nat, columns: FactColumns, header: bool, dimensions: Option<Ref>): (cells: seq<Cell>)
    ensures |cells| == 11
    ensures forall i :: 0 <= i < |cells| ==>
      cells[i].colSpan == 1 && cells[i].rowSpan == 1 && cells[i].spans == [] && cells[i].ref in {None, dimensions}
  {
    seq(11, i requires 0 <= i < 11 =>
      FactCell(row, i, columns[i], header, if i == CONTEXT_COLUMN then dimensions else None))
  }

  function OpenFactsTable(f: State): State {
    var parent, n := CurrentParent(f.headings), |f.doc.tables|;
    var header := FactRow(0, FACT_HEADINGS, true, None);
    var table := TableItem(Tables(n), parent, [], None, [header], header, 1, 11, []);
    f.(doc := f.doc.(tables := f.doc.tables + [table]).LinkChild(parent, Tables(n)), factsTable := Some(n))
  }

  /** A fact's dimensions as a key-value item, when it has any. */
  function PushDimensions(f: State, dimensions: seq<(string, string)>): State {
    if dimensions == [] then f
    else
      var parent, self := CurrentParent(f.headings), KeyValues(|f.doc.keyValues|);
      var doc := f.doc.(keyValues := f.doc.keyValues + [KeyValueItem(self, parent, dimensions, [])]);
      f.(doc := doc.LinkChild(parent, self))
  }

  function AddFactRow(f: State, index: nat, columns: FactColumns, dimensions: Option<Ref>): State {
    if index >= |f.doc.tables| then f
    else
      var t := f.doc.tables[index];
      var row := FactRow(Sat(|t.grid|), columns, false, dimensions);
      var t' := t.(grid := t.grid + [row], cells := t.cells + row, numRows := Sat(|t.grid| + 1));
      f.(doc := f.doc.(tables := f.doc.tables[index := t']))
  }

  /** The fact table is open, created on the first fact. */
  function EnsureFactsTable(f: State): (g: State)
    ensures g.factsTable.Some?
  {
    if f.factsTable.Some? then f.(lists := []) else OpenFactsTable(f.(lists := []))
  }

  function OnFact(f: State, columns: FactColumns, dimensions: seq<(string, string)>): State {
    var g := EnsureFactsTable(f);
    var h := PushDimensions(g, dimensions);
    AddFactRow(h, g.factsTable.value, columns,
               if dimensions == [] then None else Some(KeyValues(|g.doc.keyValues|)))
  }

  // ---------------------------------------------------------------- the whole fold

  function OnText(f: State, item: TextEvent): State {
    if item.kind.Picture? then PushPicture(f, item) else PushText(f, item)
  }

  function CitationText(text: string, ordinal: Option<nat>, elementId: Option<string>): TextEvent {
    PlainText(Reference, text, ordinal, elementId)
  }

  function OnCitation(f: State, text: string, ordinal: Option<nat>, elementId: Option<string>): State {
    if text == "" then f else PushText(f, CitationText(text, ordinal, elementId))
  }

  function FootnoteText(text: string, name: string): TextEvent {
    PlainText(Label.Footnote, text, None, if name == "" then None else Some(name))
  }

  function OnFootnote(f: State, text: string, name: string): State {
    if text == "" then f else PushText(f, FootnoteText(text, name))
  }

  function Consume(f: State, e: Event): State {
    match e
    case Text(item) => OnText(f, item)
    case TableStart(r, caption, id) => OnTableStart(f, r, caption, id)
    case TableRow(r, isHeader, cells) => OnTableRow(f, r, isHeader, cells)
    case TableEnd(r) => OnTableEnd(f, r)
    case Fact(columns, dimensions) => OnFact(f, columns, dimensions)
    case Citation(text, ordinal, id) => OnCitation(f, text, ordinal, id)
    case Footnote(text, name) => OnFootnote(f, text, name)
    case HtmlIsland(text) => OnHtmlIsland(f, text)
    case Unmapped => f
  }

  /** A run of the fold: the state after the events, first to last. */
  function FoldAll(events: seq<Event>): State
    decreases |events|
  {
    if events == [] then FRESH else Consume(FoldAll(events[..|events| - 1]), events[|events| - 1])
  }

  // ------------------------------------------------------------- cross-references

  function Resolve(anchors: map<string, Ref>, span: Span): Span {
    if span.target.Some? && span.target.value.Key? && span.target.value.name in anchors
    then span.(target := Some(Item(anchors[span.target.value.name])))
    else span
  }

  function ResolveAll(anchors: map<string, Ref>, spans: seq<Span>): (r: seq<Span>)
    ensures |r| == |spans|
  {
    seq(|spans|, i requires 0 <= i < |spans| => Resolve(anchors, spans[i]))
  }

  function ResolveText(anchors: map<string, Ref>, t: TextItem): TextItem {
    if t.kind.Code? then t else t.(spans := ResolveAll(anchors, t.spans))
  }

  function ResolveCells(anchors: map<string, Ref>, cells: seq<Cell>): (r: seq<Cell>)
    ensures |r| == |cells|
  {
    seq(|cells|, i requires 0 <= i < |cells| => cells[i].(spans := ResolveAll(anchors, cells[i].spans)))
  }

  function ResolveTable(anchors: map<string, Ref>, t: TableItem): TableItem {
    t.(cells := ResolveCells(anchors, t.cells),
       grid := seq(|t.grid|, i requires 0 <= i < |t.grid| => ResolveCells(anchors, t.grid[i])))
  }

  /** The document with its anchors stated and every run in it resolved. */
  function Publish(doc: Document, anchors: map<string, Ref>): Document {
    doc.(anchors := anchors,
         texts := seq(|doc.texts|, i requires 0 <= i < |doc.texts| => ResolveText(anchors, doc.texts[i])),
         tables := seq(|doc.tables|, i requires 0 <= i < |doc.tables| => ResolveTable(anchors, doc.tables[i])))
  }

  /** The finished document: an open table is kept, and references resolved. */
  function Taken(f: State): Document {
    var g := FinishTable(f);
    Publish(g.doc, g.anchors)
  }

  /** What is left in the fold after its document was taken; the span budget is
      not renewed. */
  function AfterTake(f: State): State {
    FRESH.(spanSlotsLeft := f.spanSlotsLeft)
  }
}
