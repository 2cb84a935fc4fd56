/** Where everything but texts hangs in a finished document: each picture, island,
    dimension list and table off the header that was the latest of the stream when
    it came. */
module FoldContent {
  import opened Basics
  import opened Wrappers
  import opened Document
  import opened Fold
  import opened FoldLinks
  import opened FoldHeadings

  /** An island: where its placeholder hangs, and what the placeholder lists. */
  datatype Island = Island(parent: Ref, children: seq<Ref>)

  /** What hangs where, arena by arena in arena order, with the table that is open
      and whether facts have their table. */
  datatype Hung = Hung(
    pictures: seq<Ref>, keyValues: seq<Ref>, islands: seq<Island>, tables: seq<Ref>,
    open: Option<(string, Ref)>, facts: bool)
  {
    function Closed(): Hung {
      if open.None? then this else this.(tables := tables + [open.value.1], open := None)
    }
  }

  const NONE_HUNG := Hung([], [], [], [], None, false)

  function FactsOpened(x: Hung, latest: Ref): Hung {
    if x.facts then x else x.(tables := x.tables + [latest], facts := true)
  }

  function DimensionsAdded(x: Hung, dimensions: seq<(string, string)>, latest: Ref): Hung {
    if dimensions == [] then x else x.(keyValues := x.keyValues + [latest])
  }

  /** What an event adds, given the latest header and how many texts there are: a
      table is fixed to the header open at its start, though it joins its arena only
      at its end, and the fact table to the one open at the first fact. */
  function Hang(x: Hung, e: Event, latest: Ref, texts: nat): Hung {
    match e
    case Text(item) => if item.kind.Picture? then x.(pictures := x.pictures + [latest]) else x
    case TableStart(r, _, _) => x.Closed().(open := Some((r, latest)))
    case TableEnd(r) => if x.open.Some? && x.open.value.0 == r then x.Closed() else x
    case Fact(_, dimensions) => DimensionsAdded(FactsOpened(x, latest), dimensions, latest)
    case HtmlIsland(_) => x.(islands := x.islands + [Island(latest, [Texts(texts)])])
    case _ => x
  }

  /** What hangs where after a stream, by searching back for the latest header at
      every event. */
  function HungBy(events: seq<Event>): Hung
    decreases |events|
  {
    if events == [] then NONE_HUNG
    else
      var before := events[..|events| - 1];
      Hang(HungBy(before), events[|events| - 1], LatestHeader(History(before)), |History(before)|)
  }

  // ------------------------------------------------------------- read off a document

  function PictureParents(pictures: seq<PictureItem>): seq<Ref> {
    if pictures == [] then []
    else PictureParents(pictures[..|pictures| - 1]) + [pictures[|pictures| - 1].parent]
  }

  function KeyValueParents(items: seq<KeyValueItem>): seq<Ref> {
    if items == [] then [] else KeyValueParents(items[..|items| - 1]) + [items[|items| - 1].parent]
  }

  function TableParents(tables: seq<TableItem>): seq<Ref> {
    if tables == [] then [] else TableParents(tables[..|tables| - 1]) + [tables[|tables| - 1].parent]
  }

  /** The islands among the groups, in order. */
  function Islands(groups: seq<GroupItem>): seq<Island> {
    if groups == [] then []
    else
      var last := groups[|groups| - 1];
      Islands(groups[..|groups| - 1])
      + if last.kind.IslandGroup? then [Island(last.parent, last.children)] else []
  }

  function HungOf(d: Document, open: Option<(string, Ref)>, facts: bool): Hung {
    Hung(
      PictureParents(d.pictures), KeyValueParents(d.keyValues), Islands(d.groups), TableParents(d.tables),
      open, facts)
  }

  function OpenOf(table: Option<PendingTable>): Option<(string, Ref)> {
    if table.None? then None else Some((table.value.reference, table.value.parent))
  }

  function HungIn(f: State): Hung {
    HungOf(f.doc, OpenOf(f.table), f.factsTable.Some?)
  }

  // -------------------------------------------------------------------- what is kept

  /** Groups that differ only in what the lists among them hold say the same islands. */
  lemma {:induction false} IslandsSame(a: seq<GroupItem>, b: seq<GroupItem>)
    requires |a| == |b|
    requires forall i :: 0 <= i < |a| ==> a[i].kind == b[i].kind
    requires forall i :: 0 <= i < |a| ==> a[i].kind.IslandGroup? ==> a[i] == b[i]
    ensures Islands(a) == Islands(b)
    decreases |a|
  {
    if a != [] {
      IslandsSame(a[..|a| - 1], b[..|b| - 1]);
    }
  }

  lemma IslandsSnoc(a: seq<GroupItem>, g: GroupItem)
    ensures Islands(a + [g]) == Islands(a) + if g.kind.IslandGroup? then [Island(g.parent, g.children)] else []
  {
    assert (a + [g])[..|a|] == a;
  }

  lemma LinkHung(d: Document, p: Ref, c: Ref, open: Option<(string, Ref)>, facts: bool)
    requires NoIsland(d, p)
    ensures HungOf(d.LinkChild(p, c), open, facts) == HungOf(d, open, facts)
  {
    IslandsSame(d.groups, d.LinkChild(p, c).groups);
  }

  lemma ListGroupHung(d: Document, g: GroupItem, p: Ref, open: Option<(string, Ref)>, facts: bool)
    requires NoIsland(d, p) && !g.kind.IslandGroup?
    ensures HungOf(d.(groups := d.groups + [g]).LinkChild(p, g.selfRef), open, facts) == HungOf(d, open, facts)
  {
    IslandsSnoc(d.groups, g);
    LinkHung(d.(groups := d.groups + [g]), p, g.selfRef, open, facts);
  }

  lemma PictureHung(d: Document, p: PictureItem, open: Option<(string, Ref)>, facts: bool)
    requires NoIsland(d, p.parent)
    ensures HungOf(d.(pictures := d.pictures + [p]).LinkChild(p.parent, p.selfRef), open, facts)
      == HungOf(d, open, facts).(pictures := PictureParents(d.pictures) + [p.parent])
  {
    assert (d.pictures + [p])[..|d.pictures|] == d.pictures;
    LinkHung(d.(pictures := d.pictures + [p]), p.parent, p.selfRef, open, facts);
  }

  lemma KeyValueHung(d: Document, k: KeyValueItem, open: Option<(string, Ref)>, facts: bool)
    requires NoIsland(d, k.parent)
    ensures HungOf(d.(keyValues := d.keyValues + [k]).LinkChild(k.parent, k.selfRef), open, facts)
      == HungOf(d, open, facts).(keyValues := KeyValueParents(d.keyValues) + [k.parent])
  {
    assert (d.keyValues + [k])[..|d.keyValues|] == d.keyValues;
    LinkHung(d.(keyValues := d.keyValues + [k]), k.parent, k.selfRef, open, facts);
  }

  lemma TableHung(d: Document, t: TableItem, open: Option<(string, Ref)>, facts: bool)
    requires NoIsland(d, t.parent)
    ensures HungOf(d.(tables := d.tables + [t]).LinkChild(t.parent, t.selfRef), open, facts)
      == HungOf(d, open, facts).(tables := TableParents(d.tables) + [t.parent])
  {
    assert (d.tables + [t])[..|d.tables|] == d.tables;
    LinkHung(d.(tables := d.tables + [t]), t.parent, t.selfRef, open, facts);
  }

  lemma {:induction false} TablesSame(a: seq<TableItem>, b: seq<TableItem>)
    requires |a| == |b| && forall i :: 0 <= i < |a| ==> a[i].parent == b[i].parent
    ensures TableParents(a) == TableParents(b)
    decreases |a|
  {
    if a != [] {
      TablesSame(a[..|a| - 1], b[..|b| - 1]);
    }
  }

  /** No list, and nothing that content could be put under, is an island. */
  ghost predicate Steady(f: State) {
    && ListKinds(f) && !CurrentParent(f.headings).Groups?
    && (f.table.Some? ==> !f.table.value.parent.Groups?)
  }

  lemma ListParentNoIsland(f: State)
    requires Steady(f)
    ensures f.lists != [] ==> NoIsland(f.doc, f.lists[|f.lists| - 1].ref)
  {
  }

  lemma OpenListGroupHung(f: State, depth: nat, ordered: bool)
    requires f.lists != [] ==> NoIsland(f.doc, f.lists[|f.lists| - 1].ref)
    requires !CurrentParent(f.headings).Groups?
    ensures HungIn(OpenListGroup(f, depth, ordered)) == HungIn(f)
  {
    var parent := if f.lists == [] then CurrentParent(f.headings) else f.lists[|f.lists| - 1].ref;
    var g := GroupItem(Groups(|f.doc.groups|), parent, ListGroup(ordered), []);
    ListGroupHung(f.doc, g, parent, OpenOf(f.table), f.factsTable.Some?);
  }

  lemma EnsureListHung(f: State, depth: nat, ordered: bool)
    requires Steady(f)
    ensures HungIn(EnsureList(f, depth, ordered)) == HungIn(f)
  {
    var closed := f.(lists := CloseLists(f.lists, depth, ordered));
    CloseListsPrefix(f.lists, depth, ordered);
    KeptKinds(f, closed);
    ListParentNoIsland(closed);
    OpenListGroupHung(closed, depth, ordered);
  }

  lemma OpenedHung(f: State, item: TextEvent)
    requires Steady(f)
    ensures HungIn(Opened(f, item)) == HungIn(f)
  {
    if item.kind.ListItem? {
      EnsureListHung(f, item.Depth(), item.Ordered());
    }
  }

  lemma PlaceTextHung(g: State, item: TextEvent)
    requires item.kind.ListItem? ==> g.lists != []
    requires NoIsland(g.doc, ParentFor(g, item))
    ensures HungIn(PlaceText(g, item)) == HungIn(g)
  {
    var parent, self := ParentFor(g, item), Texts(|g.doc.texts|);
    var m := g.doc.(texts := g.doc.texts + [NewText(item, self, parent)]);
    LinkHung(m, parent, self, OpenOf(g.table), g.factsTable.Some?);
  }

  /** What a text is put under is no island. */
  lemma TextParentNoIsland(f: State, item: TextEvent, h: seq<Made>)
    requires Placed(f, h)
    ensures NoIsland(Opened(f, item).doc, ParentFor(Opened(f, item), item))
  {
    OpenedPlaced(f, item, h);
    LatestIsNoGroup(h, item.Level());
  }

  lemma PlacedIsSteady(f: State, h: seq<Made>)
    requires Placed(f, h)
    ensures Steady(f) && CurrentParent(f.headings) == LatestHeader(h) && |f.doc.texts| == |h|
  {
    LatestIsNoGroup(h, 0);
  }

  lemma PushTextHung(f: State, item: TextEvent, h: seq<Made>)
    requires Placed(f, h)
    ensures HungIn(PushText(f, item)) == HungIn(f)
  {
    PlacedIsSteady(f, h);
    OpenedHung(f, item);
    TextParentNoIsland(f, item, h);
    PlaceTextHung(Opened(f, item), item);
  }

  // ------------------------------------------------------------------ event by event

  lemma PushPictureHung(f: State, item: TextEvent, latest: Ref)
    requires !latest.Groups? && latest == CurrentParent(f.headings)
    ensures HungIn(PushPicture(f, item)) == HungIn(f).(pictures := HungIn(f).pictures + [latest])
  {
    var p := PictureItem(Pictures(|f.doc.pictures|), latest, [], item.elementId, []);
    PictureHung(f.doc, p, OpenOf(f.table), f.factsTable.Some?);
  }

  lemma FinishTableHung(f: State)
    requires f.table.Some? ==> !f.table.value.parent.Groups?
    ensures HungIn(FinishTable(f)) == HungIn(f).Closed()
  {
    if f.table.Some? {
      TableHung(f.doc, NewTable(Tables(|f.doc.tables|), f.table.value), None, f.factsTable.Some?);
    }
  }

  lemma CaptionKeepsHeadings(g: State, text: string)
    ensures PushText(g, CaptionText(text)).headings == g.headings
  {
  }

  lemma OnTableStartHung(f: State, tableRef: string, caption: Option<string>, id: Option<string>, h: seq<Made>)
    requires Placed(f, h)
    ensures HungIn(OnTableStart(f, tableRef, caption, id)) ==
      HungIn(f).Closed().(open := Some((tableRef, LatestHeader(h))))
  {
    hide PushText;
    var start := f.(lists := []);
    var g := FinishTable(start);
    assert HungIn(g) == HungIn(f).Closed() by {
      FinishTableHung(start);
    }
    assert Placed(g, h) by {
      OtherPlaced(f, start, h);
      FinishTablePlaced(start, h);
    }
    PlacedIsSteady(g, h);
    if caption.Some? && caption.value != "" {
      PushTextHung(g, CaptionText(caption.value), h);
      CaptionKeepsHeadings(g, caption.value);
      TableOpenHung(PushText(g, CaptionText(caption.value)), tableRef, LatestHeader(h),
                    OnTableStart(f, tableRef, caption, id));
    } else {
      TableOpenHung(g, tableRef, LatestHeader(h), OnTableStart(f, tableRef, caption, id));
    }
  }

  lemma TableOpenHung(g: State, tableRef: string, latest: Ref, k: State)
    requires k.doc == g.doc && k.factsTable == g.factsTable
    requires k.table.Some? && k.table.value.reference == tableRef && k.table.value.parent == latest
    ensures HungIn(k) == HungIn(g).(open := Some((tableRef, latest)))
  {
  }

  lemma EnsureFactsTableHung(f: State, latest: Ref)
    requires !latest.Groups? && latest == CurrentParent(f.headings)
    ensures HungIn(EnsureFactsTable(f)) == FactsOpened(HungIn(f), latest)
  {
    if f.factsTable.None? {
      var header := FactRow(0, FACT_HEADINGS, true, None);
      var table := TableItem(Tables(|f.doc.tables|), latest, [], None, [header], header, 1, 11, []);
      TableHung(f.doc, table, OpenOf(f.table), true);
    }
  }

  lemma PushDimensionsHung(f: State, dimensions: seq<(string, string)>, latest: Ref)
    requires !latest.Groups? && latest == CurrentParent(f.headings)
    ensures HungIn(PushDimensions(f, dimensions)) == DimensionsAdded(HungIn(f), dimensions, latest)
  {
    if dimensions != [] {
      var item := KeyValueItem(KeyValues(|f.doc.keyValues|), latest, dimensions, []);
      KeyValueHung(f.doc, item, OpenOf(f.table), f.factsTable.Some?);
    }
  }

  lemma AddFactRowHung(f: State, index: nat, columns: FactColumns, dimensions: Option<Ref>)
    ensures HungIn(AddFactRow(f, index, columns, dimensions)) == HungIn(f)
  {
    TablesSame(f.doc.tables, AddFactRow(f, index, columns, dimensions).doc.tables);
  }

  lemma FactRowHung(g: State, columns: FactColumns, dimensions: seq<(string, string)>, ref: Option<Ref>, latest: Ref)
    requires g.factsTable.Some? && !latest.Groups? && latest == CurrentParent(g.headings)
    ensures HungIn(AddFactRow(PushDimensions(g, dimensions), g.factsTable.value, columns, ref))
      == DimensionsAdded(HungIn(g), dimensions, latest)
  {
    PushDimensionsHung(g, dimensions, latest);
    AddFactRowHung(PushDimensions(g, dimensions), g.factsTable.value, columns, ref);
  }

  lemma FactsTableKeepsHeadings(f: State)
    ensures EnsureFactsTable(f).headings == f.headings
  {
  }

  lemma OnFactHung(f: State, columns: FactColumns, dimensions: seq<(string, string)>, latest: Ref)
    requires !latest.Groups? && latest == CurrentParent(f.headings)
    ensures HungIn(OnFact(f, columns, dimensions))
      == DimensionsAdded(FactsOpened(HungIn(f), latest), dimensions, latest)
  {
    var g := EnsureFactsTable(f);
    EnsureFactsTableHung(f, latest);
    FactsTableKeepsHeadings(f);
    var ref := if dimensions == [] then None else Some(KeyValues(|g.doc.keyValues|));
    FactRowHung(g, columns, dimensions, ref, latest);
  }

  /** The groups after an island: those before, and its placeholder with its text. */
  lemma IslandGroups(f: State, text: string, latest: Ref)
    requires !latest.Groups? && latest == CurrentParent(f.headings)
    ensures OnHtmlIsland(f, text).doc.groups ==
      f.doc.groups + [GroupItem(Groups(|f.doc.groups|), latest, IslandGroup, [Texts(|f.doc.texts|)])]
  {
    var n, g := |f.doc.groups|, OpenIsland(f);
    var empty := GroupItem(Groups(n), latest, IslandGroup, []);
    assert g.doc.groups == f.doc.groups + [empty] && |g.doc.texts| == |f.doc.texts|;
    var full := empty.(children := [Texts(|f.doc.texts|)]);
    assert empty.children + [Texts(|f.doc.texts|)] == full.children;
    assert PushIslandSource(g, Groups(n), text).doc.groups == g.doc.groups[n := full];
    assert (f.doc.groups + [empty])[n := full] == f.doc.groups + [full];
  }

  lemma IslandLeavesOthers(f: State, text: string, latest: Ref)
    requires !latest.Groups? && latest == CurrentParent(f.headings)
    ensures var d, g := f.doc, OnHtmlIsland(f, text);
      && g.doc.pictures == d.pictures && g.doc.keyValues == d.keyValues && g.doc.tables == d.tables
      && g.table == f.table && g.factsTable == f.factsTable
  {
  }

  lemma OnHtmlIslandHung(f: State, text: string, latest: Ref)
    requires !latest.Groups? && latest == CurrentParent(f.headings)
    ensures HungIn(OnHtmlIsland(f, text)) ==
      HungIn(f).(islands := HungIn(f).islands + [Island(latest, [Texts(|f.doc.texts|)])])
  {
    IslandGroups(f, text, latest);
    IslandLeavesOthers(f, text, latest);
    IslandsSnoc(f.doc.groups, GroupItem(Groups(|f.doc.groups|), latest, IslandGroup, [Texts(|f.doc.texts|)]));
  }

  lemma OnTextHung(f: State, item: TextEvent, h: seq<Made>)
    requires Placed(f, h)
    ensures HungIn(OnText(f, item)) == Hang(HungIn(f), Text(item), LatestHeader(h), |h|)
  {
    if item.kind.Picture? {
      PlacedIsSteady(f, h);
      PushPictureHung(f, item, LatestHeader(h));
    } else {
      PushTextHung(f, item, h);
    }
  }

  lemma ConsumeHung(f: State, e: Event, h: seq<Made>)
    requires Placed(f, h)
    ensures HungIn(Consume(f, e)) == Hang(HungIn(f), e, LatestHeader(h), |h|)
  {
    hide PushText, FinishTable, Placed, HungIn;
    if e.Text? {
      OnTextHung(f, e.item, h);
    } else if e.TableStart? {
      OnTableStartHung(f, e.tableRef, e.caption, e.elementId, h);
    } else if e.Citation? {
      PushTextHung(f, CitationText(e.text, e.ordinal, e.elementId), h);
    } else if e.Footnote? {
      PushTextHung(f, FootnoteText(e.text, e.name), h);
    } else {
      PlacedIsSteady(f, h);
      ConsumeOtherHung(f, e, LatestHeader(h));
    }
  }

  lemma ConsumeOtherHung(f: State, e: Event, latest: Ref)
    requires Steady(f) && latest == CurrentParent(f.headings)
    requires e.TableRow? || e.TableEnd? || e.Fact? || e.HtmlIsland? || e.Unmapped?
    ensures HungIn(Consume(f, e)) == Hang(HungIn(f), e, latest, |f.doc.texts|)
  {
    if e.TableEnd? {
      FinishTableHung(f);
    } else if e.Fact? {
      OnFactHung(f, e.columns, e.dimensions, latest);
    } else if e.HtmlIsland? {
      OnHtmlIslandHung(f, e.text, latest);
    }
  }

  lemma {:induction false} FoldAllHung(events: seq<Event>)
    ensures HungIn(FoldAll(events)) == HungBy(events)
    decreases |events|
  {
    if events != [] {
      var before := events[..|events| - 1];
      FoldAllHung(before);
      FoldAllPlaced(before);
      ConsumeHung(FoldAll(before), events[|events| - 1], History(before));
    }
  }

  // ------------------------------------------------------------------ the whole stream

  /** Pictures, dimension lists, islands and tables of a document hang as told. */
  predicate HangsAs(d: Document, x: Hung) {
    && PictureParents(d.pictures) == x.pictures
    && KeyValueParents(d.keyValues) == x.keyValues
    && TableParents(d.tables) == x.tables
    && Islands(d.groups) == x.islands
  }

  lemma HungInDocument(g: State)
    ensures HangsAs(Publish(g.doc, g.anchors), HungIn(g))
  {
    var d := Publish(g.doc, g.anchors);
    forall i | 0 <= i < |d.tables| ensures d.tables[i].parent == g.doc.tables[i].parent {
      assert d.tables[i] == ResolveTable(g.anchors, g.doc.tables[i]);
    }
    TablesSame(d.tables, g.doc.tables);
  }

  /** In the finished document of any stream the k-th picture, dimension list, island
      and table hang off the header that was the latest when the event came that made
      the k-th of them: for a table its start, for the fact table the first fact. A
      placeholder lists its island's text and nothing else. */
  lemma ContentHangsOffLatestHeader(events: seq<Event>)
    ensures HangsAs(Taken(FoldAll(events)), HungBy(events).Closed())
  {
    FoldAllHung(events);
    FoldAllPlaced(events);
    PlacedIsSteady(FoldAll(events), History(events));
    FinishTableHung(FoldAll(events));
    HungInDocument(FinishTable(FoldAll(events)));
  }

  /** The open headers are strictly increasing in level, over any stream. */
  lemma OpenHeadersIncrease(events: seq<Event>, i: nat, j: nat)
    requires i < j < |FoldAll(events).headings|
    ensures FoldAll(events).headings[i].level < FoldAll(events).headings[j].level
  {
    FoldAllPlaced(events);
  }
}
