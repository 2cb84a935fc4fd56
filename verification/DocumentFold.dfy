/** The fold as the program runs it: one object whose fields every event updates,
    each method proved against the fold's specification. */
module DocumentFold {
  import opened Basics
  import opened Wrappers
  import opened Document
  import opened Grid
  import opened Fold
  import opened FoldLinks
  import Integrity

  class DocumentFold {
    var document: Document
    var headings: seq<Heading>
    var lists: seq<OpenList>
    var table: Option<PendingTable>
    var factsTable: Option<nat>
    var anchors: map<string, Ref>
    var spanSlotsLeft: nat

    ghost function View(): State
      reads this
    {
      State(document, headings, lists, table, factsTable, anchors, spanSlotsLeft)
    }

    ghost predicate Valid()
      reads this
    {
      Inv(View())
    }

    constructor ()
      ensures View() == FRESH && Valid()
    {
      document, headings, lists, table, factsTable := EMPTY, [], [], None, None;
      anchors, spanSlotsLeft := map[], MAX_SPAN_SLOTS;
      new;
      FoldAllInv([]);
    }

    // ----------------------------------------------------------------- primitives

    method CloseOpenHeadings(level: nat)
      modifies this`headings
      ensures headings == CloseHeadings(old(headings), level)
    {
      while headings != [] && headings[|headings| - 1].level >= level
        invariant CloseHeadings(headings, level) == CloseHeadings(old(headings), level)
        decreases |headings|
      {
        headings := headings[..|headings| - 1];
      }
    }

    /** The parent's half of a link, in place. */
    method LinkChild(parent: Ref, child: Ref)
      modifies this`document
      ensures document == old(document).LinkChild(parent, child)
    {
      if parent == Body {
        document := document.(body := document.body + [child]);
      } else if parent == Furniture {
        document := document.(furniture := document.furniture + [child]);
      } else if parent.Groups? {
        if parent.n < |document.groups| {
          var g := document.groups[parent.n];
          document := document.(groups := document.groups[parent.n := g.(children := g.children + [child])]);
        }
      } else if parent.Texts? && parent.n < |document.texts| && document.texts[parent.n].kind.SectionHeader? {
        var t := document.texts[parent.n];
        document := document.(texts := document.texts[parent.n := t.(children := t.children + [child])]);
      }
    }

    method Claim(elementId: Option<string>, ref: Ref)
      modifies this`anchors
      ensures anchors == ClaimAnchor(old(anchors), elementId, ref)
    {
      if elementId.Some? && elementId.value != "" {
        if elementId.value !in anchors {
          anchors := anchors[elementId.value := ref];
        }
      }
    }

    // ---------------------------------------------------------------------- lists

    method OpenGroup(depth: nat, ordered: bool)
      modifies this`document, this`lists
      ensures View() == OpenListGroup(old(View()), depth, ordered)
    {
      var parent := if lists == [] then CurrentParent(headings) else lists[|lists| - 1].ref;
      var self := Groups(|document.groups|);
      document := document.(groups := document.groups + [GroupItem(self, parent, ListGroup(ordered), [])]);
      LinkChild(parent, self);
      lists := lists + [OpenList(depth, ordered, self)];
    }

    /** Closes the lists this item ends, opens one if none fits, and returns its group. */
    method ListParent(item: TextEvent) returns (parent: Ref)
      modifies this`document, this`lists
      ensures View() == EnsureList(old(View()), item.Depth(), item.Ordered())
      ensures lists != [] && parent == lists[|lists| - 1].ref
    {
      var depth, ordered := item.Depth(), item.Ordered();
      while lists != [] && ClosedBy(lists[|lists| - 1], depth, ordered)
        invariant document == old(document)
        invariant CloseLists(lists, depth, ordered) == CloseLists(old(lists), depth, ordered)
        decreases |lists|
      {
        lists := lists[..|lists| - 1];
      }
      if lists == [] || lists[|lists| - 1].depth < depth {
        OpenGroup(depth, ordered);
      }
      parent := lists[|lists| - 1].ref;
    }

    // ----------------------------------------------------------------------- text

    /** The state a text item is placed in, and the parent it goes under. */
    method OpenFor(item: TextEvent) returns (parent: Ref)
      modifies this
      ensures View() == Opened(old(View()), item) && parent == ParentFor(View(), item)
    {
      if item.kind.SectionHeader? {
        CloseOpenHeadings(item.Level());
      }
      parent := Furniture;
      if item.Chrome() {
      } else if item.kind.ListItem? {
        parent := ListParent(item);
      } else {
        lists := [];
        parent := CurrentParent(headings);
      }
    }

    method PushTextItem(item: TextEvent) returns (self: Ref)
      modifies this
      ensures View() == PushText(old(View()), item)
      ensures self == Texts(|old(document.texts)|)
    {
      hide Opened;
      OpenedKeepsTexts(View(), item);
      var parent := OpenFor(item);
      self := Texts(|document.texts|);
      document := document.(texts := document.texts + [NewText(item, self, parent)]);
      Claim(item.elementId, self);
      LinkChild(parent, self);
      if item.kind.SectionHeader? {
        headings := headings + [Heading(item.Level(), self)];
      }
    }

    // ------------------------------------------------------------ islands, pictures

    /** Adds the text of an island as the child of the given group. */
    method PushIslandText(group: Ref, text: string)
      modifies this`document
      ensures View() == PushIslandSource(old(View()), group, text)
    {
      var self := Texts(|document.texts|);
      var item := TextItem(self, group, BodyLayer, Paragraph, 0, false, text, None, [], []);
      document := document.(texts := document.texts + [item]);
      LinkChild(group, self);
    }

    method TakeIsland(text: string)
      modifies this
      ensures View() == OnHtmlIsland(old(View()), text)
    {
      lists := [];
      var parent := CurrentParent(headings);
      var self := Groups(|document.groups|);
      document := document.(groups := document.groups + [GroupItem(self, parent, IslandGroup, [])]);
      LinkChild(parent, self);
      PushIslandText(self, text);
      document := document.(attachments := document.attachments + [self]);
    }

    method PushPictureItem(item: TextEvent)
      modifies this
      ensures View() == PushPicture(old(View()), item)
    {
      lists := [];
      var parent := CurrentParent(headings);
      var self := Pictures(|document.pictures|);
      document := document.(pictures := document.pictures + [PictureItem(self, parent, [], item.elementId, [])]);
      Claim(item.elementId, self);
      LinkChild(parent, self);
    }

    // --------------------------------------------------------------------- tables

    /** Give the open table, if any, its arena slot and its link. */
    method AppendOpenTable()
      modifies this
      ensures View() == FinishTable(old(View()))
    {
      if table.Some? {
        var pending := table.value;
        table := None;
        var self := Tables(|document.tables|);
        document := document.(tables := document.tables + [NewTable(self, pending)]);
        Claim(pending.elementId, self);
        LinkChild(pending.parent, self);
      }
    }

    method TakeTableStart(tableRef: string, caption: Option<string>, elementId: Option<string>)
      modifies this
      ensures View() == OnTableStart(old(View()), tableRef, caption, elementId)
    {
      lists := [];
      AppendOpenTable();
      var captions := [];
      if caption.Some? && caption.value != "" {
        var self := PushTextItem(CaptionText(caption.value));
        captions := [self];
      }
      table := Some(PendingTable(tableRef, CurrentParent(headings), captions, elementId, NO_ROWS));
    }

    /** The layout and budget after one more row, as Grid.LayRow gives them. */
    method TakeTableRow(tableRef: string, isHeader: bool, wires: seq<WireCell>)
      requires Valid()
      modifies this
      ensures View() == OnTableRow(old(View()), tableRef, isHeader, wires)
    {
      if table.None? || table.value.reference != tableRef {
        return;
      }
      var layout, left := LayWireRow(table.value.layout, wires, isHeader, spanSlotsLeft);
      table := Some(table.value.(layout := layout));
      spanSlotsLeft := left;
    }

    method TakeTableEnd(tableRef: string)
      modifies this
      ensures View() == OnTableEnd(old(View()), tableRef)
    {
      if table.Some? && table.value.reference == tableRef {
        AppendOpenTable();
      }
    }

    // ---------------------------------------------------------------------- facts

    method OpenFacts()
      modifies this`document, this`factsTable
      ensures View() == OpenFactsTable(old(View()))
    {
      var parent := CurrentParent(headings);
      var n := |document.tables|;
      var header := FactRow(0, FACT_HEADINGS, true, None);
      var item := TableItem(Tables(n), parent, [], None, [header], header, 1, 11, []);
      document := document.(tables := document.tables + [item]);
      LinkChild(parent, Tables(n));
      factsTable := Some(n);
    }

    method PushFactDimensions(dimensions: seq<(string, string)>) returns (ref: Option<Ref>)
      modifies this`document
      ensures View() == PushDimensions(old(View()), dimensions)
      ensures ref == if dimensions == [] then None else Some(KeyValues(|old(document.keyValues)|))
    {
      if dimensions == [] {
        return None;
      }
      var self := KeyValues(|document.keyValues|);
      var parent := CurrentParent(headings);
      document := document.(keyValues := document.keyValues + [KeyValueItem(self, parent, dimensions, [])]);
      LinkChild(parent, self);
      ref := Some(self);
    }

    method TakeFact(columns: FactColumns, dimensions: seq<(string, string)>)
      modifies this
      ensures View() == OnFact(old(View()), columns, dimensions)
    {
      lists := [];
      if factsTable.None? {
        OpenFacts();
      }
      assert View() == EnsureFactsTable(old(View()));
      var index := factsTable.value;
      var ref := PushFactDimensions(dimensions);
      if index >= |document.tables| {
        return;
      }
      var t := document.tables[index];
      var row := FactRow(Sat(|t.grid|), columns, false, ref);
      t := t.(cells := t.cells + row, grid := t.grid + [row]);
      document := document.(tables := document.tables[index := t.(numRows := Sat(|t.grid|))]);
    }

    // ------------------------------------------------------------- the event loop

    method Consume(e: Event)
      requires Valid()
      modifies this
      ensures Valid() && View() == Fold.Consume(old(View()), e)
    {
      Dispatch(e);
      ConsumeInv(old(View()), e);
    }

    method Dispatch(e: Event)
      requires Valid()
      modifies this
      ensures View() == Fold.Consume(old(View()), e)
    {
      match e {
        case Text(item) =>
          if item.kind.Picture? {
            PushPictureItem(item);
          } else {
            var _ := PushTextItem(item);
          }
        case TableStart(r, caption, id) => TakeTableStart(r, caption, id);
        case TableRow(r, isHeader, cells) => TakeTableRow(r, isHeader, cells);
        case TableEnd(r) => TakeTableEnd(r);
        case Fact(columns, dimensions) => TakeFact(columns, dimensions);
        case Citation(text, ordinal, id) =>
          if text != "" {
            var _ := PushTextItem(CitationText(text, ordinal, id));
          }
        case Footnote(text, name) =>
          if text != "" {
            var _ := PushTextItem(FootnoteText(text, name));
          }
        case HtmlIsland(text) => TakeIsland(text);
        case Unmapped =>
      }
    }

    /** Fold.Publish, computed by loops over the texts and over both copies of the cells. */
    method PublishAnchors()
      modifies this`document
      ensures document == Publish(old(document), anchors)
    {
      var texts := document.texts;
      for i := 0 to |texts|
        invariant document == old(document) && |texts| == |old(document.texts)|
        invariant forall k :: 0 <= k < |texts| ==>
          texts[k] == if k < i then ResolveText(anchors, old(document.texts)[k]) else old(document.texts)[k]
      {
        if !texts[i].kind.Code? {
          var spans := ResolveTargets(anchors, texts[i].spans);
          texts := texts[i := texts[i].(spans := spans)];
        }
      }
      document := document.(texts := texts);
      var tables := document.tables;
      for i := 0 to |tables|
        invariant document == old(document).(texts := texts) && |tables| == |old(document.tables)|
        invariant forall k :: 0 <= k < |tables| ==>
          tables[k] == if k < i then ResolveTable(anchors, old(document.tables)[k]) else old(document.tables)[k]
      {
        var cells := ResolveCellTargets(anchors, tables[i].cells);
        var grid := tables[i].grid;
        for j := 0 to |grid|
          invariant document == old(document).(texts := texts) && |grid| == |tables[i].grid|
          invariant forall k :: 0 <= k < |grid| ==>
            grid[k] == if k < j then ResolveCells(anchors, tables[i].grid[k]) else tables[i].grid[k]
        {
          var row := ResolveCellTargets(anchors, grid[j]);
          grid := grid[j := row];
        }
        tables := tables[i := tables[i].(cells := cells, grid := grid)];
      }
      document := document.(tables := tables, anchors := anchors);
      assert document == Publish(old(document), anchors);
    }

    /** Returns Fold.Taken and resets the object to Fold.AfterTake, where only the rest of
        the span budget survives. */
    method Take() returns (taken: Document)
      requires Valid()
      modifies this
      ensures taken == Taken(old(View()))
      ensures View() == AfterTake(old(View())) && Valid()
    {
      AppendOpenTable();
      PublishAnchors();
      taken := document;
      document, headings, lists, table, factsTable, anchors := EMPTY, [], [], None, None, map[];
      FoldAllInv([]);
    }
  }

  /** Lay a wire row: the cells one after another over the slots still taken. */
  method LayWireRow(
    layout: Layout, wires: seq<WireCell>, headerRow: bool, budget: nat) returns (next: Layout, left: nat)
    requires Bounded(layout.occupied)
    ensures (next, left) == LayRow(layout, wires, headerRow, budget)
  {
    var rowIndex := Sat(|layout.grid|);
    var s := RowState(Prune(layout.occupied, rowIndex), 0, [], budget, layout.numCols);
    ghost var start := s;
    for i := 0 to |wires|
      invariant s.column <= I32_MAX && Bounded(s.occupied)
      invariant PlaceRow(s, rowIndex, wires[i..], headerRow) == PlaceRow(start, rowIndex, wires, headerRow)
    {
      s := LayWireCell(s, rowIndex, wires[i], headerRow);
    }
    next := Layout(layout.grid + [s.cells], layout.cells + s.cells, s.occupied, s.numCols);
    left := s.budget;
  }

  /** One cell: find the first free column, honour the spans while the budget
      lasts, and take every slot they cover. */
  method LayWireCell(s: RowState, row: nat, wire: WireCell, headerRow: bool) returns (t: RowState)
    requires s.column <= I32_MAX && Bounded(s.occupied)
    ensures t == PlaceCell(s, row, wire, headerRow) && t.column <= I32_MAX && Bounded(t.occupied)
  {
    var column, left := s.column, s.budget;
    while (row, column) in s.occupied
      invariant column <= I32_MAX
      invariant FirstFree(s.occupied, row, column) == FirstFree(s.occupied, row, s.column)
      decreases I32_MAX - column
    {
      column := column + 1;
    }
    SpanBudget(wire, left);
    var colSpan, rowSpan := Sat(Max(wire.columnSpan, 1)), Sat(Max(wire.rowSpan, 1));
    var extra := colSpan * rowSpan - 1;
    if extra > left {
      colSpan, rowSpan := 1, 1;
    } else {
      left := left - extra;
    }
    var endRow, endCol := Sat(row + rowSpan), Sat(column + colSpan);
    var occupied := TakeSlots(s.occupied, row, endRow, column, endCol);
    var cell := Cell(rowSpan, colSpan, row, endRow, column, endCol, wire.text,
                     headerRow || wire.isHeader, InlineSpans(wire.spans), None);
    t := RowState(occupied, endCol, s.cells + [cell], left, Max(s.numCols, endCol));
  }

  /** Insert every slot of a rectangle, one by one. */
  method TakeSlots(occupied: set<Slot>, row: nat, endRow: nat, column: nat, endCol: nat) returns (taken: set<Slot>)
    ensures taken == occupied + Rect(row, endRow, column, endCol)
  {
    taken := occupied;
    var r := row;
    while r < endRow
      invariant row <= r && (r <= endRow || taken == occupied)
      invariant taken == occupied + Rect(row, r, column, endCol)
    {
      var c := column;
      while c < endCol
        invariant column <= c && (c <= endCol || c == column)
        invariant taken == occupied + Rect(row, r, column, endCol) + Rect(r, r + 1, column, c)
      {
        taken := taken + {(r, c)};
        c := c + 1;
      }
      r := r + 1;
    }
  }

  /** The runs of one list after Fold.ResolveAll, computed by a loop. */
  method ResolveTargets(anchors: map<string, Ref>, spans: seq<Span>) returns (resolved: seq<Span>)
    ensures resolved == ResolveAll(anchors, spans)
  {
    resolved := spans;
    for i := 0 to |spans|
      invariant |resolved| == |spans|
      invariant forall k :: 0 <= k < |spans| ==> resolved[k] == if k < i then Resolve(anchors, spans[k]) else spans[k]
    {
      match resolved[i].target {
        case Some(Key(name)) =>
          if name in anchors {
            resolved := resolved[i := resolved[i].(target := Some(Item(anchors[name])))];
          }
        case _ =>
      }
    }
  }

  method ResolveCellTargets(anchors: map<string, Ref>, cells: seq<Cell>) returns (resolved: seq<Cell>)
    ensures resolved == ResolveCells(anchors, cells)
  {
    resolved := cells;
    for i := 0 to |cells|
      invariant |resolved| == |cells|
      invariant forall k :: 0 <= k < |cells| ==>
        resolved[k] == if k < i then cells[k].(spans := ResolveAll(anchors, cells[k].spans)) else cells[k]
    {
      var spans := ResolveTargets(anchors, resolved[i].spans);
      resolved := resolved[i := resolved[i].(spans := spans)];
    }
  }

  /** Any event sequence at all folds into a document the merge contract accepts:
      the program's own check finds nothing wrong with it. */
  method FoldStream(events: seq<Event>) returns (document: Document)
    ensures document == Taken(FoldAll(events))
    ensures Linked(document) && Integrity.Sound(document)
  {
    var fold := new DocumentFold();
    for i := 0 to |events|
      invariant fold.Valid() && fold.View() == FoldAll(events[..i])
    {
      assert events[..i + 1][..i] == events[..i];
      fold.Consume(events[i]);
    }
    assert events[..|events|] == events;
    document := fold.Take();
    TakenIsLinked(events);
    LinkedIsSound(document);
  }

  lemma LinkedIsSound(d: Document)
    requires Linked(d) && Pointing(d)
    ensures Integrity.Sound(d)
  {
  }

  /** The test every fold is put to, on every stream. */
  method FoldAndCheck(events: seq<Event>) returns (errors: seq<Integrity.Error>)
    ensures errors == []
  {
    var document := FoldStream(events);
    errors := Integrity.IntegrityErrors(document);
  }
}
