/** Nothing said is lost on the way into a document: its texts are those of the
    stream, in order, and each table holds its own rows cell for cell. */
module FoldSays {
  import opened Wrappers
  import opened Document
  import opened Grid
  import opened Fold
  import FoldHeadings
  import FoldTables

  // ------------------------------------------------------------------------ texts

  /** What a text says: its label, its characters and its runs. */
  datatype Saying = Saying(kind: Label, text: string, runs: seq<Span>)

  function SayingOf(t: TextItem): Saying {
    Saying(t.kind, t.text, t.spans)
  }

  /** What an item asks a text to say; code carries no runs. */
  function Asked(item: TextEvent): Saying {
    Saying(item.kind, item.text, if item.kind.Code? then [] else InlineSpans(item.spans))
  }

  /** What an event adds to the texts. */
  function SaidBy(e: Event): seq<Saying> {
    match e
    case Text(item) => if item.kind.Picture? then [] else [Asked(item)]
    case TableStart(_, caption, _) =>
      if caption.Some? && caption.value != "" then [Saying(Caption, caption.value, [])] else []
    case Citation(text, _, _) => if text == "" then [] else [Saying(Reference, text, [])]
    case Footnote(text, _) => if text == "" then [] else [Saying(Label.Footnote, text, [])]
    case HtmlIsland(text) => [Saying(Paragraph, text, [])]
    case _ => []
  }

  function Said(events: seq<Event>): seq<Saying>
    decreases |events|
  {
    if events == [] then [] else Said(events[..|events| - 1]) + SaidBy(events[|events| - 1])
  }

  predicate Speak(texts: seq<TextItem>, said: seq<Saying>) {
    |texts| == |said| && forall i :: 0 <= i < |texts| ==> SayingOf(texts[i]) == said[i]
  }

  lemma LinkSpeaks(d: Document, p: Ref, c: Ref, said: seq<Saying>)
    requires Speak(d.texts, said)
    ensures Speak(d.LinkChild(p, c).texts, said)
  {
  }

  lemma AddedSpeaks(d: Document, t: TextItem, p: Ref, said: seq<Saying>)
    requires Speak(d.texts, said)
    ensures Speak(d.(texts := d.texts + [t]).LinkChild(p, t.selfRef).texts, said + [SayingOf(t)])
  {
    LinkSpeaks(d.(texts := d.texts + [t]), p, t.selfRef, said + [SayingOf(t)]);
  }

  lemma OpenedSpeaks(f: State, item: TextEvent, said: seq<Saying>)
    requires Speak(f.doc.texts, said)
    ensures Speak(Opened(f, item).doc.texts, said)
  {
    if item.kind.ListItem? {
      var closed := f.(lists := CloseLists(f.lists, item.Depth(), item.Ordered()));
      OpenListSpeaks(closed, item.Depth(), item.Ordered(), said);
    }
  }

  lemma OpenListSpeaks(f: State, depth: nat, ordered: bool, said: seq<Saying>)
    requires Speak(f.doc.texts, said)
    ensures Speak(OpenListGroup(f, depth, ordered).doc.texts, said)
  {
    var parent := if f.lists == [] then CurrentParent(f.headings) else f.lists[|f.lists| - 1].ref;
    var self := Groups(|f.doc.groups|);
    var g := GroupItem(self, parent, ListGroup(ordered), []);
    LinkSpeaks(f.doc.(groups := f.doc.groups + [g]), parent, self, said);
  }

  lemma PushTextSpeaks(f: State, item: TextEvent, said: seq<Saying>)
    requires Speak(f.doc.texts, said)
    ensures Speak(PushText(f, item).doc.texts, said + [Asked(item)])
  {
    OpenedSpeaks(f, item, said);
    var g := Opened(f, item);
    var t := NewText(item, Texts(|g.doc.texts|), ParentFor(g, item));
    AddedSpeaks(g.doc, t, ParentFor(g, item), said);
  }

  lemma IslandSpeaks(f: State, text: string, said: seq<Saying>)
    requires Speak(f.doc.texts, said)
    ensures Speak(OnHtmlIsland(f, text).doc.texts, said + [Saying(Paragraph, text, [])])
  {
    var parent, self, g := CurrentParent(f.headings), Groups(|f.doc.groups|), OpenIsland(f);
    LinkSpeaks(f.doc.(groups := f.doc.groups + [GroupItem(self, parent, IslandGroup, [])]), parent, self, said);
    var t := TextItem(Texts(|g.doc.texts|), self, BodyLayer, Paragraph, 0, false, text, None, [], []);
    AddedSpeaks(g.doc, t, self, said);
  }

  lemma FinishTableSpeaks(f: State, said: seq<Saying>)
    requires Speak(f.doc.texts, said)
    ensures Speak(FinishTable(f).doc.texts, said)
  {
    if f.table.Some? {
      var p, self := f.table.value, Tables(|f.doc.tables|);
      LinkSpeaks(f.doc.(tables := f.doc.tables + [NewTable(self, p)]), p.parent, self, said);
    }
  }

  lemma TableStartSpeaks(f: State, e: Event, said: seq<Saying>)
    requires e.TableStart? && Speak(f.doc.texts, said)
    ensures Speak(Consume(f, e).doc.texts, said + SaidBy(e))
  {
    FinishTableSpeaks(f.(lists := []), said);
    var g := FinishTable(f.(lists := []));
    if e.caption.Some? && e.caption.value != "" {
      PushTextSpeaks(g, CaptionText(e.caption.value), said);
    } else {
      assert said + [] == said;
    }
  }

  lemma PictureSpeaks(f: State, item: TextEvent, said: seq<Saying>)
    requires Speak(f.doc.texts, said)
    ensures Speak(PushPicture(f, item).doc.texts, said)
  {
    var parent, self := CurrentParent(f.headings), Pictures(|f.doc.pictures|);
    var p := PictureItem(self, parent, [], item.elementId, []);
    LinkSpeaks(f.doc.(pictures := f.doc.pictures + [p]), parent, self, said);
  }

  lemma FactsTableSpeaks(f: State, said: seq<Saying>)
    requires Speak(f.doc.texts, said)
    ensures Speak(EnsureFactsTable(f).doc.texts, said)
  {
    var parent, n := CurrentParent(f.headings), |f.doc.tables|;
    var header := FactRow(0, FACT_HEADINGS, true, None);
    var table := TableItem(Tables(n), parent, [], None, [header], header, 1, 11, []);
    LinkSpeaks(f.doc.(tables := f.doc.tables + [table]), parent, Tables(n), said);
  }

  lemma DimensionsSpeak(f: State, dimensions: seq<(string, string)>, said: seq<Saying>)
    requires Speak(f.doc.texts, said)
    ensures Speak(PushDimensions(f, dimensions).doc.texts, said)
  {
    var parent, self := CurrentParent(f.headings), KeyValues(|f.doc.keyValues|);
    var item := KeyValueItem(self, parent, dimensions, []);
    LinkSpeaks(f.doc.(keyValues := f.doc.keyValues + [item]), parent, self, said);
  }

  lemma FactSpeaks(f: State, columns: FactColumns, dimensions: seq<(string, string)>, said: seq<Saying>)
    requires Speak(f.doc.texts, said)
    ensures Speak(OnFact(f, columns, dimensions).doc.texts, said)
  {
    FactsTableSpeaks(f, said);
    DimensionsSpeak(EnsureFactsTable(f), dimensions, said);
  }

  lemma ConsumeSpeaks(f: State, e: Event, said: seq<Saying>)
    requires Speak(f.doc.texts, said)
    ensures Speak(Consume(f, e).doc.texts, said + SaidBy(e))
  {
    assert said + [] == said;
    if e.Text? {
      if e.item.kind.Picture? {
        PictureSpeaks(f, e.item, said);
      } else {
        PushTextSpeaks(f, e.item, said);
      }
    } else if e.TableStart? {
      TableStartSpeaks(f, e, said);
    } else if e.TableEnd? {
      FinishTableSpeaks(f, said);
    } else if e.Fact? {
      FactSpeaks(f, e.columns, e.dimensions, said);
    } else if e.Citation? {
      PushTextSpeaks(f, CitationText(e.text, e.ordinal, e.elementId), said);
    } else if e.Footnote? {
      PushTextSpeaks(f, FootnoteText(e.text, e.name), said);
    } else if e.HtmlIsland? {
      IslandSpeaks(f, e.text, said);
    }
  }

  lemma {:induction false} FoldAllSpeaks(events: seq<Event>)
    ensures Speak(FoldAll(events).doc.texts, Said(events))
    decreases |events|
  {
    if events != [] {
      var before := events[..|events| - 1];
      FoldAllSpeaks(before);
      ConsumeSpeaks(FoldAll(before), events[|events| - 1], Said(before));
    }
  }

  /** The same with every run pointing at what answers to it. */
  function Answered(anchors: map<string, Ref>, said: Saying): Saying {
    said.(runs := if said.kind.Code? then said.runs else ResolveAll(anchors, said.runs))
  }

  predicate SpeakAnswered(d: Document, said: seq<Saying>) {
    && |d.texts| == |said|
    && (forall i :: 0 <= i < |said| ==> SayingOf(d.texts[i]) == Answered(d.anchors, said[i]))
  }

  /** The texts of the finished document of any stream are exactly what its events
      say, in the order they say it, with their runs resolved. */
  lemma TextsSayTheStream(events: seq<Event>)
    ensures SpeakAnswered(Taken(FoldAll(events)), Said(events))
  {
    FoldAllSpeaks(events);
    FinishTableSpeaks(FoldAll(events), Said(events));
    PublishedSpeaks(FinishTable(FoldAll(events)), Said(events));
  }

  lemma PublishedSpeaks(g: State, said: seq<Saying>)
    requires Speak(g.doc.texts, said)
    ensures SpeakAnswered(Publish(g.doc, g.anchors), said)
  {
    var d := Publish(g.doc, g.anchors);
    forall i | 0 <= i < |said| ensures SayingOf(d.texts[i]) == Answered(d.anchors, said[i]) {
      assert d.texts[i] == ResolveText(g.anchors, g.doc.texts[i]);
    }
  }

  // ----------------------------------------------------------------------- tables

  /** Where a table's rows come from: rows sent for it, or facts under the headings. */
  datatype Source = Wire(rows: seq<(seq<WireCell>, bool)>) | Facts(facts: seq<FactColumns>)

  /** The sources of the tables of a stream, in arena order, the rows of the table
      still open, and which table holds the facts. */
  datatype Sources = Sources(
    done: seq<Source>, open: Option<(string, seq<(seq<WireCell>, bool)>)>, facts: Option<nat>)
  {
    function Closed(): Sources {
      if open.None? then this else this.(done := done + [Wire(open.value.1)], open := None)
    }
  }

  function WithFact(x: Sources, columns: FactColumns): Sources {
    if x.facts.None? then x.(done := x.done + [Facts([FACT_HEADINGS, columns])], facts := Some(|x.done|))
    else
      var n := x.facts.value;
      if n < |x.done| && x.done[n].Facts? then x.(done := x.done[n := Facts(x.done[n].facts + [columns])]) else x
  }

  /** What an event adds to the tables: a row counts only for the table open under
      the name it states. */
  function Sourced(x: Sources, e: Event): Sources {
    match e
    case TableStart(r, _, _) => x.Closed().(open := Some((r, [])))
    case TableRow(r, isHeader, cells) =>
      if x.open.Some? && x.open.value.0 == r then x.(open := Some((r, x.open.value.1 + [(cells, isHeader)]))) else x
    case TableEnd(r) => if x.open.Some? && x.open.value.0 == r then x.Closed() else x
    case Fact(columns, _) => WithFact(x, columns)
    case _ => x
  }

  function SourcesOf(events: seq<Event>): Sources
    decreases |events|
  {
    if events == [] then Sources([], None, None)
    else Sourced(SourcesOf(events[..|events| - 1]), events[|events| - 1])
  }

  /** A row of the fact table shows these values. */
  predicate RowShows(cells: seq<Cell>, columns: FactColumns) {
    |cells| == 11 && forall j :: 0 <= j < 11 ==> cells[j].text == columns[j]
  }

  predicate Holds(grid: seq<seq<Cell>>, source: Source) {
    match source
    case Wire(rows) => GridFits(grid, rows)
    case Facts(rows) => |grid| == |rows| && forall i :: 0 <= i < |rows| ==> RowShows(grid[i], rows[i])
  }

  predicate AllHold(tables: seq<TableItem>, done: seq<Source>) {
    |tables| == |done| && forall i :: 0 <= i < |done| ==> Holds(tables[i].grid, done[i])
  }

  predicate Sourcing(f: State, x: Sources) {
    && AllHold(f.doc.tables, x.done)
    && f.factsTable == x.facts && (x.facts.Some? ==> x.facts.value < |x.done| && x.done[x.facts.value].Facts?)
    && f.table.Some? == x.open.Some?
    && (f.table.Some? ==>
          && f.table.value.reference == x.open.value.0
          && GridFits(f.table.value.layout.grid, x.open.value.1))
  }

  lemma FinishTableSources(f: State, x: Sources)
    requires Sourcing(f, x)
    ensures Sourcing(FinishTable(f), x.Closed())
  {
    if f.table.Some? {
      var p, self := f.table.value, Tables(|f.doc.tables|);
      FoldTables.LinkKeepsTables(f.doc.(tables := f.doc.tables + [NewTable(self, p)]), p.parent, self);
      assert FinishTable(f).doc.tables == f.doc.tables + [NewTable(self, p)];
    }
  }

  lemma TableStartSources(f: State, e: Event, x: Sources)
    requires e.TableStart? && Sourcing(f, x)
    ensures Sourcing(Consume(f, e), Sourced(x, e))
  {
    FinishTableSources(f.(lists := []), x);
    var g := FinishTable(f.(lists := []));
    if e.caption.Some? {
      FoldTables.PushTextTables(g, CaptionText(e.caption.value));
    }
  }

  lemma TableRowSources(f: State, e: Event, x: Sources)
    requires e.TableRow? && Sourcing(f, x)
    ensures Sourcing(Consume(f, e), Sourced(x, e))
  {
    if f.table.Some? && f.table.value.reference == e.tableRef {
      LayRowFits(f.table.value.layout, x.open.value.1, (e.cells, e.isHeader), f.spanSlotsLeft);
    }
  }

  /** The fact table is there, with at least its headings. */
  lemma FactsTableSources(f: State, x: Sources) returns (y: Sources)
    requires Sourcing(f, x)
    ensures Sourcing(EnsureFactsTable(f), y) && y.facts.Some? && y.open == x.open
    ensures y == if x.facts.Some? then x else x.(done := x.done + [Facts([FACT_HEADINGS])], facts := Some(|x.done|))
  {
    y := x;
    if f.factsTable.None? {
      y := x.(done := x.done + [Facts([FACT_HEADINGS])], facts := Some(|x.done|));
      var parent, n := CurrentParent(f.headings), |f.doc.tables|;
      var header := FactRow(0, FACT_HEADINGS, true, None);
      var table := TableItem(Tables(n), parent, [], None, [header], header, 1, 11, []);
      FoldTables.LinkKeepsTables(f.doc.(tables := f.doc.tables + [table]), parent, Tables(n));
      assert RowShows(header, FACT_HEADINGS);
      var g := EnsureFactsTable(f);
      assert g.doc.tables == f.doc.tables + [table] && g.table == f.table;
    }
  }

  lemma FactRowSources(f: State, columns: FactColumns, ref: Option<Ref>, x: Sources)
    requires Sourcing(f, x) && x.facts.Some?
    ensures Sourcing(AddFactRow(f, x.facts.value, columns, ref), WithFact(x, columns))
  {
    var n := x.facts.value;
    var t := f.doc.tables[n];
    var row := FactRow(Sat(|t.grid|), columns, false, ref);
    assert RowShows(row, columns);
    assert Holds(t.grid + [row], Facts(x.done[n].facts + [columns])) by {
      assert Holds(t.grid, x.done[n]);
    }
  }

  lemma FactSources(f: State, e: Event, x: Sources)
    requires e.Fact? && Sourcing(f, x)
    ensures Sourcing(Consume(f, e), Sourced(x, e))
  {
    var y := FactsTableSources(f, x);
    var g := EnsureFactsTable(f);
    FoldTables.PushDimensionsTables(g, e.dimensions);
    var ref := if e.dimensions == [] then None else Some(KeyValues(|g.doc.keyValues|));
    FactRowSources(PushDimensions(g, e.dimensions), e.columns, ref, y);
    assert [FACT_HEADINGS] + [e.columns] == [FACT_HEADINGS, e.columns];
    assert WithFact(y, e.columns) == WithFact(x, e.columns);
  }

  /** Events that are no part of a table leave the tables alone. */
  lemma OtherSources(f: State, e: Event)
    requires e.Text? || e.Citation? || e.Footnote? || e.HtmlIsland? || e.Unmapped?
    ensures FoldTables.SameTables(f, Consume(f, e))
  {
    if e.Text? {
      if e.item.kind.Picture? {
        FoldTables.PictureTables(f, e.item);
      } else {
        FoldTables.PushTextTables(f, e.item);
      }
    } else if e.Citation? {
      FoldTables.PushTextTables(f, CitationText(e.text, e.ordinal, e.elementId));
    } else if e.Footnote? {
      FoldTables.PushTextTables(f, FootnoteText(e.text, e.name));
    } else if e.HtmlIsland? {
      FoldTables.IslandTables(f, e.text);
    }
  }

  lemma ConsumeSources(f: State, e: Event, x: Sources)
    requires Sourcing(f, x)
    ensures Sourcing(Consume(f, e), Sourced(x, e))
  {
    if e.TableStart? {
      TableStartSources(f, e, x);
    } else if e.TableRow? {
      TableRowSources(f, e, x);
    } else if e.TableEnd? {
      FinishTableSources(f, x);
    } else if e.Fact? {
      FactSources(f, e, x);
    } else {
      OtherSources(f, e);
    }
  }

  lemma {:induction false} FoldAllSources(events: seq<Event>)
    ensures Sourcing(FoldAll(events), SourcesOf(events))
    decreases |events|
  {
    if events != [] {
      var before := events[..|events| - 1];
      FoldAllSources(before);
      ConsumeSources(FoldAll(before), events[|events| - 1], SourcesOf(before));
    }
  }

  /** A cell fits its wire cell once its runs are taken for unresolved. */
  predicate FitsAnswered(cell: Cell, wire: WireCell, headerRow: bool, anchors: map<string, Ref>) {
    && Fits(cell.(spans := InlineSpans(wire.spans)), wire, headerRow)
    && cell.spans == ResolveAll(anchors, InlineSpans(wire.spans))
  }

  predicate RowAnswered(cells: seq<Cell>, wires: seq<WireCell>, headerRow: bool, anchors: map<string, Ref>) {
    |cells| == |wires| && forall j :: 0 <= j < |cells| ==> FitsAnswered(cells[j], wires[j], headerRow, anchors)
  }

  predicate HoldsAnswered(grid: seq<seq<Cell>>, source: Source, anchors: map<string, Ref>) {
    match source
    case Wire(rows) =>
      |grid| == |rows| && forall i :: 0 <= i < |grid| ==> RowAnswered(grid[i], rows[i].0, rows[i].1, anchors)
    case Facts(_) => Holds(grid, source)
  }

  predicate AllHoldAnswered(d: Document, done: seq<Source>) {
    |d.tables| == |done| && forall i :: 0 <= i < |done| ==> HoldsAnswered(d.tables[i].grid, done[i], d.anchors)
  }

  lemma RowIsAnswered(cells: seq<Cell>, wires: seq<WireCell>, headerRow: bool, anchors: map<string, Ref>)
    requires RowFits(cells, wires, headerRow)
    ensures RowAnswered(ResolveCells(anchors, cells), wires, headerRow, anchors)
  {
    forall j | 0 <= j < |cells| ensures FitsAnswered(ResolveCells(anchors, cells)[j], wires[j], headerRow, anchors) {
      assert Fits(cells[j], wires[j], headerRow);
    }
  }

  lemma TableIsAnswered(t: TableItem, source: Source, anchors: map<string, Ref>)
    requires Holds(t.grid, source)
    ensures HoldsAnswered(ResolveTable(anchors, t).grid, source, anchors)
  {
    var grid := ResolveTable(anchors, t).grid;
    if source.Wire? {
      forall i | 0 <= i < |grid| ensures RowAnswered(grid[i], source.rows[i].0, source.rows[i].1, anchors) {
        RowIsAnswered(t.grid[i], source.rows[i].0, source.rows[i].1, anchors);
      }
    } else {
      forall i | 0 <= i < |grid| ensures RowShows(grid[i], source.facts[i]) {
        assert RowShows(t.grid[i], source.facts[i]);
      }
    }
  }

  /** Every table of the finished document of any stream holds exactly the rows sent
      for it, cell for cell in order, with their runs resolved, and the fact table
      its headings and then one row a fact. */
  lemma TablesHoldTheirRows(events: seq<Event>)
    ensures AllHoldAnswered(Taken(FoldAll(events)), SourcesOf(events).Closed().done)
  {
    FoldAllSources(events);
    FinishTableSources(FoldAll(events), SourcesOf(events));
    PublishedHolds(FinishTable(FoldAll(events)), SourcesOf(events).Closed().done);
  }

  lemma PublishedHolds(g: State, done: seq<Source>)
    requires AllHold(g.doc.tables, done)
    ensures AllHoldAnswered(Publish(g.doc, g.anchors), done)
  {
    var d := Publish(g.doc, g.anchors);
    forall i | 0 <= i < |done| ensures HoldsAnswered(d.tables[i].grid, done[i], d.anchors) {
      assert d.tables[i] == ResolveTable(g.anchors, g.doc.tables[i]) && Holds(g.doc.tables[i].grid, done[i]);
      TableIsAnswered(g.doc.tables[i], done[i], g.anchors);
    }
  }
}
