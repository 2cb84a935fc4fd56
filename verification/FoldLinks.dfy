/** What every event keeps: references name arena positions, parents and children
    name each other, and everything the fold remembers is in the document. */
module FoldLinks {
  import opened Wrappers
  import opened Document
  import opened Grid
  import opened Fold

  // ------------------------------------------------------------------------ links

  ghost predicate NoDuplicates(s: seq<Ref>) {
    forall i, j :: 0 <= i < j < |s| ==> s[i] != s[j]
  }

  /** Every item is named by its position and listed exactly once, by the one
      parent it names. */
  ghost predicate Linked(d: Document) {
    && (forall r: Ref :: d.Has(r) && !r.Root() ==>
          d.SelfOf(r) == r && d.Container(d.ParentOf(r)) && r in d.Children(d.ParentOf(r)))
    && (forall p: Ref, c: Ref :: c in d.Children(p) ==> d.Has(c) && !c.Root() && d.ParentOf(c) == p)
    && (forall p: Ref :: NoDuplicates(d.Children(p)))
  }

  lemma LinkedAdds(d: Document, d': Document, c: Ref, p: Ref)
    requires Linked(d) && Adds(d, d', c, p)
    ensures Linked(d')
  {
    NamedOnceAdds(d, d', c, p);
    ListedAdds(d, d', c, p);
    assert c !in d.Children(p);
  }

  lemma NamedOnceAdds(d: Document, d': Document, c: Ref, p: Ref)
    requires Linked(d) && Adds(d, d', c, p)
    ensures forall r: Ref :: d'.Has(r) && !r.Root() ==>
      d'.SelfOf(r) == r && d'.Container(d'.ParentOf(r)) && r in d'.Children(d'.ParentOf(r))
  {
    assert d'.Children(p) == d.Children(p) + [c];
    forall r: Ref | d'.Has(r) && !r.Root()
      ensures d'.SelfOf(r) == r && d'.Container(d'.ParentOf(r)) && r in d'.Children(d'.ParentOf(r))
    {
      if r != c {
        assert d.Has(r) && r in d.Children(d.ParentOf(r));
      }
    }
  }

  lemma ListedAdds(d: Document, d': Document, c: Ref, p: Ref)
    requires Linked(d) && Adds(d, d', c, p)
    ensures forall q: Ref, x: Ref :: x in d'.Children(q) ==> d'.Has(x) && !x.Root() && d'.ParentOf(x) == q
  {
    forall q: Ref, x: Ref | x in d'.Children(q) ensures d'.Has(x) && !x.Root() && d'.ParentOf(x) == q {
      if q == p && x == c {
        assert d'.ParentOf(c) == p && !c.Root();
      } else {
        assert x in d.Children(q);
      }
    }
  }

  lemma LinkedSame(d: Document, d': Document)
    requires Linked(d) && SameLinks(d, d')
    ensures Linked(d')
  {
    forall r: Ref | d'.Has(r) && !r.Root()
      ensures d'.SelfOf(r) == r && d'.Container(d'.ParentOf(r)) && r in d'.Children(d'.ParentOf(r))
    {
      assert d.Has(r) && r in d.Children(d.ParentOf(r));
    }
    forall q: Ref, x: Ref | x in d'.Children(q) ensures d'.Has(x) && !x.Root() && d'.ParentOf(x) == q {
      assert x in d.Children(q);
    }
  }

  // --------------------------------------------------------------------- pointers

  /** Captions, cell references and attachments all point at items. */
  ghost predicate Pointing(d: Document) {
    && AllIn(d, d.attachments)
    && (forall i :: 0 <= i < |d.tables| ==> AllIn(d, d.tables[i].captions) && CellRefsIn(d, d.tables[i].cells))
    && (forall i :: 0 <= i < |d.pictures| ==> AllIn(d, d.pictures[i].captions))
  }

  /** Nothing that was in d has gone. */
  ghost predicate Grown(d: Document, d': Document) {
    && (forall r: Ref :: d.Has(r) ==> d'.Has(r))
    && (forall r: Ref :: d.Container(r) ==> d'.Container(r))
  }

  ghost predicate Inv(f: State) {
    && Linked(f.doc)
    && Pointing(f.doc)
    && (forall i :: 0 <= i < |f.headings| ==> f.headings[i].ref.Texts? && f.doc.Container(f.headings[i].ref))
    && (forall i :: 0 <= i < |f.lists| ==> f.lists[i].ref.Groups? && f.doc.Container(f.lists[i].ref))
    && (f.factsTable.Some? ==> f.factsTable.value < |f.doc.tables|)
    && (f.table.Some? ==>
          && f.doc.Container(f.table.value.parent) && !f.table.value.parent.Furniture?
          && AllIn(f.doc, f.table.value.captions)
          && CellRefsIn(f.doc, f.table.value.layout.cells)
          && Bounded(f.table.value.layout.occupied))
    && (forall k :: k in f.anchors ==> f.doc.Has(f.anchors[k]) && !f.anchors[k].Root())
  }

  /** The fold's own memory survives a change of document that loses nothing. */
  lemma MemoryKept(f: State, d': Document)
    requires Inv(f) && Grown(f.doc, d') && Linked(d') && Pointing(d') && |d'.tables| >= |f.doc.tables|
    ensures Inv(f.(doc := d'))
  {
  }

  lemma PointingKept(d: Document, d': Document)
    requires Pointing(d) && Grown(d, d') && d'.attachments == d.attachments && d'.tables == d.tables
    requires forall i :: 0 <= i < |d'.pictures| ==> d'.pictures[i].captions == [] || d'.pictures[i] in d.pictures
    ensures Pointing(d')
  {
  }

  lemma PointingAppended(d: Document, d': Document, t: TableItem)
    requires Pointing(d) && Grown(d, d') && d'.attachments == d.attachments && d'.pictures == d.pictures
    requires d'.tables == d.tables + [t] && AllIn(d, t.captions) && CellRefsIn(d, t.cells)
    ensures Pointing(d')
  {
    forall i | 0 <= i < |d'.tables| ensures AllIn(d', d'.tables[i].captions) && CellRefsIn(d', d'.tables[i].cells) {
      if i < |d.tables| {
        assert AllIn(d, d.tables[i].captions) && CellRefsIn(d, d.tables[i].cells);
      }
    }
  }

  lemma CurrentParentIsContainer(f: State)
    requires Inv(f)
    ensures f.doc.Container(CurrentParent(f.headings)) && !CurrentParent(f.headings).Furniture?
    ensures !CurrentParent(f.headings).Groups?
  {
  }

  lemma {:induction false} CloseHeadingsPrefix(headings: seq<Heading>, level: nat)
    ensures CloseHeadings(headings, level) <= headings
    decreases |headings|
  {
    if headings != [] && headings[|headings| - 1].level >= level {
      CloseHeadingsPrefix(headings[..|headings| - 1], level);
    }
  }

  lemma {:induction false} CloseListsPrefix(lists: seq<OpenList>, depth: nat, ordered: bool)
    ensures CloseLists(lists, depth, ordered) <= lists
    decreases |lists|
  {
    if lists != [] && ClosedBy(lists[|lists| - 1], depth, ordered) {
      CloseListsPrefix(lists[..|lists| - 1], depth, ordered);
    }
  }

  // ---------------------------------------------------------- one item at a time

  lemma OpenListGroupInv(f: State, depth: nat, ordered: bool)
    requires Inv(f)
    ensures var parent := if f.lists == [] then CurrentParent(f.headings) else f.lists[|f.lists| - 1].ref;
      Adds(f.doc, OpenListGroup(f, depth, ordered).doc, Groups(|f.doc.groups|), parent)
    ensures Inv(OpenListGroup(f, depth, ordered))
  {
    var parent := if f.lists == [] then CurrentParent(f.headings) else f.lists[|f.lists| - 1].ref;
    CurrentParentIsContainer(f);
    var self := Groups(|f.doc.groups|);
    GroupAdds(f.doc, GroupItem(self, parent, ListGroup(ordered), []));
    var g := OpenListGroup(f, depth, ordered);
    LinkedAdds(f.doc, g.doc, self, parent);
    PointingKept(f.doc, g.doc);
    MemoryKept(f, g.doc);
  }

  lemma OpenedInv(f: State, item: TextEvent)
    requires Inv(f)
    ensures Inv(Opened(f, item))
  {
    var g := if item.kind.SectionHeader? then f.(headings := CloseHeadings(f.headings, item.Level())) else f;
    CloseHeadingsPrefix(f.headings, item.Level());
    assert Inv(g);
    if !item.Chrome() && item.kind.ListItem? {
      CloseListsPrefix(g.lists, item.Depth(), item.Ordered());
      var closed := g.(lists := CloseLists(g.lists, item.Depth(), item.Ordered()));
      assert Inv(closed);
      OpenListGroupInv(closed, item.Depth(), item.Ordered());
    }
  }

  lemma ClaimAnchorIn(d: Document, anchors: map<string, Ref>, elementId: Option<string>, ref: Ref)
    requires d.Has(ref) && !ref.Root()
    requires forall k :: k in anchors ==> d.Has(anchors[k]) && !anchors[k].Root()
    ensures var after := ClaimAnchor(anchors, elementId, ref);
      forall k :: k in after ==> d.Has(after[k]) && !after[k].Root()
  {
  }

  lemma PlaceTextAdds(g: State, item: TextEvent)
    requires Inv(g) && (item.kind.ListItem? ==> g.lists != [])
    ensures Adds(g.doc, PlaceText(g, item).doc, Texts(|g.doc.texts|), ParentFor(g, item))
    ensures Linked(PlaceText(g, item).doc) && Inv(g.(doc := PlaceText(g, item).doc))
  {
    CurrentParentIsContainer(g);
    var parent, self := ParentFor(g, item), Texts(|g.doc.texts|);
    TextAdds(g.doc, NewText(item, self, parent));
    var d' := PlaceText(g, item).doc;
    LinkedAdds(g.doc, d', self, parent);
    PointingKept(g.doc, d');
    MemoryKept(g, d');
  }

  lemma HeaderIsContainer(g: State, item: TextEvent)
    requires Inv(g) && item.kind.SectionHeader?
    ensures PlaceText(g, item).doc.Container(Texts(|g.doc.texts|))
  {
    CurrentParentIsContainer(g);
    var parent, self := ParentFor(g, item), Texts(|g.doc.texts|);
    var m := g.doc.(texts := g.doc.texts + [NewText(item, self, parent)]);
    assert m.Container(self);
    match parent {
      case Texts(n) => assert n != |g.doc.texts|;
      case _ =>
    }
  }

  lemma PlaceTextInv(g: State, item: TextEvent)
    requires Inv(g) && (item.kind.ListItem? ==> g.lists != [])
    ensures Inv(PlaceText(g, item))
  {
    PlaceTextAdds(g, item);
    var h := g.(doc := PlaceText(g, item).doc);
    var self := Texts(|g.doc.texts|);
    ClaimAnchorIn(h.doc, g.anchors, item.elementId, self);
    var h' := h.(anchors := ClaimAnchor(g.anchors, item.elementId, self));
    assert Inv(h');
    if item.kind.SectionHeader? {
      HeaderIsContainer(g, item);
      assert PlaceText(g, item) == h'.(headings := h'.headings + [Heading(item.Level(), self)]);
    } else {
      assert PlaceText(g, item) == h';
    }
  }

  lemma PushTextInv(f: State, item: TextEvent)
    requires Inv(f)
    ensures Inv(PushText(f, item)) && PushText(f, item).doc.Has(Texts(|f.doc.texts|))
  {
    OpenedInv(f, item);
    OpenedKeepsTexts(f, item);
    PlaceTextInv(Opened(f, item), item);
    PlaceTextAdds(Opened(f, item), item);
  }

  lemma OpenedKeepsTexts(f: State, item: TextEvent)
    ensures |Opened(f, item).doc.texts| == |f.doc.texts|
  {
  }

  lemma OpenIslandInv(f: State)
    requires Inv(f)
    ensures Adds(f.doc, OpenIsland(f).doc, Groups(|f.doc.groups|), CurrentParent(f.headings))
    ensures Inv(OpenIsland(f))
  {
    CurrentParentIsContainer(f);
    var parent, self := CurrentParent(f.headings), Groups(|f.doc.groups|);
    GroupAdds(f.doc, GroupItem(self, parent, IslandGroup, []));
    var g := OpenIsland(f);
    LinkedAdds(f.doc, g.doc, self, parent);
    PointingKept(f.doc, g.doc);
    MemoryKept(f, g.doc);
  }

  lemma PushIslandSourceInv(f: State, group: Ref, text: string)
    requires Inv(f) && f.doc.Container(group)
    ensures Adds(f.doc, PushIslandSource(f, group, text).doc, Texts(|f.doc.texts|), group)
    ensures Inv(PushIslandSource(f, group, text))
  {
    var self := Texts(|f.doc.texts|);
    TextAdds(f.doc, TextItem(self, group, BodyLayer, Paragraph, 0, false, text, None, [], []));
    var g := PushIslandSource(f, group, text);
    LinkedAdds(f.doc, g.doc, self, group);
    PointingKept(f.doc, g.doc);
    MemoryKept(f, g.doc);
  }

  lemma AttachInv(f: State, ref: Ref)
    requires Inv(f) && f.doc.Has(ref)
    ensures SameLinks(f.doc, f.doc.(attachments := f.doc.attachments + [ref]))
    ensures Inv(f.(doc := f.doc.(attachments := f.doc.attachments + [ref])))
  {
    var d' := f.doc.(attachments := f.doc.attachments + [ref]);
    LinkedSame(f.doc, d');
    MemoryKept(f, d');
  }

  lemma OnHtmlIslandInv(f: State, text: string)
    requires Inv(f)
    ensures Inv(OnHtmlIsland(f, text))
  {
    var self := Groups(|f.doc.groups|);
    OpenIslandInv(f);
    PushIslandSourceInv(OpenIsland(f), self, text);
    AttachInv(PushIslandSource(OpenIsland(f), self, text), self);
  }

  lemma PushPictureInv(f: State, item: TextEvent)
    requires Inv(f)
    ensures Adds(f.doc, PushPicture(f, item).doc, Pictures(|f.doc.pictures|), CurrentParent(f.headings))
    ensures Inv(PushPicture(f, item))
  {
    CurrentParentIsContainer(f);
    var parent, self := CurrentParent(f.headings), Pictures(|f.doc.pictures|);
    PictureAdds(f.doc, PictureItem(self, parent, [], item.elementId, []));
    var g := PushPicture(f, item);
    LinkedAdds(f.doc, g.doc, self, parent);
    PointingKept(f.doc, g.doc);
    MemoryKept(f, g.doc);
    ClaimAnchorIn(g.doc, f.anchors, item.elementId, self);
  }

  lemma AppendTableInv(f: State, p: PendingTable)
    requires Inv(f) && f.doc.Container(p.parent)
    requires AllIn(f.doc, p.captions) && CellRefsIn(f.doc, p.layout.cells)
    ensures Adds(f.doc, AppendTable(f, p).doc, Tables(|f.doc.tables|), p.parent)
    ensures Inv(AppendTable(f, p))
  {
    var self := Tables(|f.doc.tables|);
    TableAdds(f.doc, NewTable(self, p));
    var g := AppendTable(f, p);
    LinkedAdds(f.doc, g.doc, self, p.parent);
    PointingAppended(f.doc, g.doc, NewTable(self, p));
    MemoryKept(f, g.doc);
    ClaimAnchorIn(g.doc, f.anchors, p.elementId, self);
  }

  lemma FinishTableInv(f: State)
    requires Inv(f)
    ensures Inv(FinishTable(f)) && FinishTable(f).table.None?
    ensures FinishTable(f).headings == f.headings && FinishTable(f).lists == f.lists
  {
    if f.table.Some? {
      AppendTableInv(f.(table := None), f.table.value);
    }
  }

  lemma OpenedTableInv(f: State, p: PendingTable)
    requires Inv(f) && p.parent == CurrentParent(f.headings) && p.layout == NO_ROWS && AllIn(f.doc, p.captions)
    ensures Inv(f.(table := Some(p)))
  {
    CurrentParentIsContainer(f);
  }

  lemma ListsEndedInv(f: State)
    requires Inv(f)
    ensures Inv(f.(lists := []))
  {
  }

  lemma OnTableStartInv(f: State, tableRef: string, caption: Option<string>, elementId: Option<string>)
    requires Inv(f)
    ensures Inv(OnTableStart(f, tableRef, caption, elementId))
  {
    var g := FinishTable(f.(lists := []));
    ListsEndedInv(f);
    FinishTableInv(f.(lists := []));
    var p := OnTableStart(f, tableRef, caption, elementId).table.value;
    if caption.Some? && caption.value != "" {
      PushTextInv(g, CaptionText(caption.value));
      OpenedTableInv(PushText(g, CaptionText(caption.value)), p);
    } else {
      OpenedTableInv(g, p);
    }
  }

  predicate NoRefs(cells: seq<Cell>) {
    forall i :: 0 <= i < |cells| ==> cells[i].ref.None?
  }

  lemma {:induction false} PlaceRowNoRefs(s: RowState, row: nat, wires: seq<WireCell>, headerRow: bool)
    requires s.column <= I32_MAX && NoRefs(s.cells)
    ensures NoRefs(PlaceRow(s, row, wires, headerRow).cells)
    decreases |wires|
  {
    if wires != [] {
      PlaceRowNoRefs(PlaceCell(s, row, wires[0], headerRow), row, wires[1..], headerRow);
    }
  }

  lemma LayRowNoRefs(lay: Layout, wires: seq<WireCell>, headerRow: bool, budget: nat)
    ensures var next := LayRow(lay, wires, headerRow, budget).0;
      && lay.cells <= next.cells
      && (forall i :: |lay.cells| <= i < |next.cells| ==> next.cells[i].ref.None?)
      && (Bounded(lay.occupied) ==> Bounded(next.occupied))
  {
    var row := Sat(|lay.grid|);
    var s := RowState(Prune(lay.occupied, row), 0, [], budget, lay.numCols);
    PlaceRowNoRefs(s, row, wires, headerRow);
    if Bounded(lay.occupied) {
      PlaceRowBounded(s, row, wires, headerRow);
    }
    var laid := PlaceRow(s, row, wires, headerRow).cells;
    forall i | |lay.cells| <= i < |lay.cells + laid| ensures (lay.cells + laid)[i].ref.None? {
      assert (lay.cells + laid)[i] == laid[i - |lay.cells|];
    }
  }

  lemma OnTableRowInv(f: State, tableRef: string, isHeader: bool, cells: seq<WireCell>)
    requires Inv(f)
    ensures Inv(OnTableRow(f, tableRef, isHeader, cells))
  {
    if f.table.Some? && f.table.value.reference == tableRef {
      var lay := f.table.value.layout;
      LayRowNoRefs(lay, cells, isHeader, f.spanSlotsLeft);
      assert CellRefsIn(f.doc, LayRow(lay, cells, isHeader, f.spanSlotsLeft).0.cells);
    }
  }

  lemma OpenFactsTableInv(f: State)
    requires Inv(f)
    ensures Adds(f.doc, OpenFactsTable(f).doc, Tables(|f.doc.tables|), CurrentParent(f.headings))
    ensures Inv(OpenFactsTable(f))
  {
    CurrentParentIsContainer(f);
    var parent, self := CurrentParent(f.headings), Tables(|f.doc.tables|);
    var header := FactRow(0, FACT_HEADINGS, true, None);
    var table := TableItem(self, parent, [], None, [header], header, 1, 11, []);
    TableAdds(f.doc, table);
    var g := OpenFactsTable(f);
    LinkedAdds(f.doc, g.doc, self, parent);
    PointingAppended(f.doc, g.doc, table);
    MemoryKept(f, g.doc);
  }

  lemma PushDimensionsInv(f: State, dimensions: seq<(string, string)>)
    requires Inv(f)
    ensures dimensions != [] ==>
      Adds(f.doc, PushDimensions(f, dimensions).doc, KeyValues(|f.doc.keyValues|), CurrentParent(f.headings))
    ensures Inv(PushDimensions(f, dimensions))
  {
    if dimensions != [] {
      CurrentParentIsContainer(f);
      var parent, self := CurrentParent(f.headings), KeyValues(|f.doc.keyValues|);
      KeyValueAdds(f.doc, KeyValueItem(self, parent, dimensions, []));
      var g := PushDimensions(f, dimensions);
      LinkedAdds(f.doc, g.doc, self, parent);
      PointingKept(f.doc, g.doc);
      MemoryKept(f, g.doc);
    }
  }

  lemma AddFactRowInv(f: State, index: nat, columns: FactColumns, dimensions: Option<Ref>)
    requires Inv(f) && (dimensions.Some? ==> f.doc.Has(dimensions.value))
    ensures SameLinks(f.doc, AddFactRow(f, index, columns, dimensions).doc)
    ensures Inv(AddFactRow(f, index, columns, dimensions))
  {
    if index < |f.doc.tables| {
      var g := AddFactRow(f, index, columns, dimensions);
      var t := f.doc.tables[index];
      var row := FactRow(Sat(|t.grid|), columns, false, dimensions);
      LinkedSame(f.doc, g.doc);
      forall i | 0 <= i < |g.doc.tables|
        ensures AllIn(g.doc, g.doc.tables[i].captions) && CellRefsIn(g.doc, g.doc.tables[i].cells)
      {
        assert g.doc.tables[i].captions == f.doc.tables[i].captions;
        assert i == index ==> g.doc.tables[i].cells == t.cells + row;
      }
      MemoryKept(f, g.doc);
    }
  }

  lemma OnFactInv(f: State, columns: FactColumns, dimensions: seq<(string, string)>)
    requires Inv(f)
    ensures Inv(OnFact(f, columns, dimensions))
  {
    assert Inv(f.(lists := []));
    OpenFactsTableInv(f.(lists := []));
    var g := EnsureFactsTable(f);
    PushDimensionsInv(g, dimensions);
    AddFactRowInv(PushDimensions(g, dimensions), g.factsTable.value, columns,
                  if dimensions == [] then None else Some(KeyValues(|g.doc.keyValues|)));
  }

  lemma OnTextInv(f: State, item: TextEvent)
    requires Inv(f)
    ensures Inv(OnText(f, item))
  {
    PushPictureInv(f, item);
    PushTextInv(f, item);
  }

  lemma OnTableEndInv(f: State, tableRef: string)
    requires Inv(f)
    ensures Inv(OnTableEnd(f, tableRef))
  {
    FinishTableInv(f);
  }

  lemma OnCitationInv(f: State, text: string, ordinal: Option<nat>, elementId: Option<string>)
    requires Inv(f)
    ensures Inv(OnCitation(f, text, ordinal, elementId))
  {
    PushTextInv(f, CitationText(text, ordinal, elementId));
  }

  lemma OnFootnoteInv(f: State, text: string, name: string)
    requires Inv(f)
    ensures Inv(OnFootnote(f, text, name))
  {
    PushTextInv(f, FootnoteText(text, name));
  }

  /** Every event, in whatever state it arrives, keeps the invariant. */
  lemma ConsumeInv(f: State, e: Event)
    requires Inv(f)
    ensures Inv(Consume(f, e))
  {
    if e.Text? {
      OnTextInv(f, e.item);
    } else if e.TableStart? {
      OnTableStartInv(f, e.tableRef, e.caption, e.elementId);
    } else if e.TableRow? {
      OnTableRowInv(f, e.tableRef, e.isHeader, e.cells);
    } else if e.TableEnd? {
      OnTableEndInv(f, e.tableRef);
    } else if e.Fact? {
      OnFactInv(f, e.columns, e.dimensions);
    } else if e.Citation? {
      OnCitationInv(f, e.text, e.ordinal, e.elementId);
    } else if e.Footnote? {
      OnFootnoteInv(f, e.text, e.name);
    } else if e.HtmlIsland? {
      OnHtmlIslandInv(f, e.text);
    }
  }

  lemma {:induction false} FoldAllInv(events: seq<Event>)
    ensures Inv(FoldAll(events))
    decreases |events|
  {
    if events != [] {
      FoldAllInv(events[..|events| - 1]);
      ConsumeInv(FoldAll(events[..|events| - 1]), events[|events| - 1]);
    }
  }

  lemma PublishLinks(d: Document, anchors: map<string, Ref>)
    ensures SameLinks(d, Publish(d, anchors))
    ensures Pointing(d) ==> Pointing(Publish(d, anchors))
  {
    var e := Publish(d, anchors);
    assert forall i :: 0 <= i < |d.texts| ==> e.texts[i] == ResolveText(anchors, d.texts[i]);
    if Pointing(d) {
      forall i | 0 <= i < |e.tables| ensures AllIn(e, e.tables[i].captions) && CellRefsIn(e, e.tables[i].cells) {
        assert e.tables[i] == ResolveTable(anchors, d.tables[i]);
      }
    }
  }

  /** The finished document of any event sequence is linked and points at nothing
      it does not hold, with a table left open, facts in the middle of a table,
      islands and header level zero included. */
  lemma TakenIsLinked(events: seq<Event>)
    ensures Linked(Taken(FoldAll(events))) && Pointing(Taken(FoldAll(events)))
  {
    FoldAllInv(events);
    FinishTableInv(FoldAll(events));
    var g := FinishTable(FoldAll(events));
    PublishLinks(g.doc, g.anchors);
    LinkedSame(g.doc, Publish(g.doc, g.anchors));
  }
}
