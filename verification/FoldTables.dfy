/** The tables of a finished document: every one is laid by the table model, and
    all their spans together stay within one budget. */
module FoldTables {
  import opened Basics
  import opened Wrappers
  import opened Document
  import opened Grid
  import opened Fold
  import opened FoldAnchors

  // ------------------------------------------------------------------- the budget

  /** Slots the spans of all tables claim beyond one per cell. */
  function ClaimedByAll(tables: seq<TableItem>): nat {
    if tables == [] then 0
    else ClaimedByAll(tables[..|tables| - 1]) + Claimed(tables[|tables| - 1].cells)
  }

  function ClaimedByPending(table: Option<PendingTable>): nat {
    if table.Some? then Claimed(table.value.layout.cells) else 0
  }

  /** Nothing is spent but on spans, and every span is paid for. */
  predicate Budgeted(f: State) {
    f.spanSlotsLeft + ClaimedByAll(f.doc.tables) + ClaimedByPending(f.table) == MAX_SPAN_SLOTS
  }

  lemma ClaimedSnoc(tables: seq<TableItem>, t: TableItem)
    ensures ClaimedByAll(tables + [t]) == ClaimedByAll(tables) + Claimed(t.cells)
  {
    assert (tables + [t])[..|tables|] == tables;
  }

  lemma {:induction false} ClaimedUpdate(tables: seq<TableItem>, n: nat, t: TableItem)
    requires n < |tables| && Claimed(t.cells) == Claimed(tables[n].cells)
    ensures ClaimedByAll(tables[n := t]) == ClaimedByAll(tables)
    decreases |tables|
  {
    var m := |tables| - 1;
    if n == m {
      assert tables[n := t][..m] == tables[..m];
    } else {
      assert tables[n := t][..m] == tables[..m][n := t];
      ClaimedUpdate(tables[..m], n, t);
    }
  }

  lemma {:induction false} UnspannedClaimNothing(cells: seq<Cell>)
    requires forall i :: 0 <= i < |cells| ==> cells[i].colSpan == 1 && cells[i].rowSpan == 1
    ensures Claimed(cells) == 0
    decreases |cells|
  {
    if cells != [] {
      UnspannedClaimNothing(cells[..|cells| - 1]);
    }
  }

  // ------------------------------------------------------------------- the layout

  /** The greatest column any cell ends at. */
  predicate Widest(cells: seq<Cell>, n: nat) {
    && (forall i :: 0 <= i < |cells| ==> cells[i].endCol <= n)
    && (n == 0 || exists i :: 0 <= i < |cells| && cells[i].endCol == n)
  }

  /** A grid as the table model asks: cells placed around those before them, and as
      many rows and columns as stated. */
  ghost predicate Tabular(grid: seq<seq<Cell>>, cells: seq<Cell>, numRows: nat, numCols: nat) {
    && WellLaid(Layout(grid, cells, {}, 0))
    && numRows == Sat(|grid|)
    && Widest(cells, numCols)
  }

  /** Cell j of row i is one slot, at row i and column j. */
  predicate Plain(t: TableItem) {
    && t.cells == Concat(t.grid) && t.numCols == 11 && t.numRows == Sat(|t.grid|)
    && (forall i :: 0 <= i < |t.grid| ==> PlainRow(t.grid[i], Sat(i)))
  }

  predicate PlainRow(row: seq<Cell>, n: nat) {
    && |row| == 11
    && (forall j :: 0 <= j < 11 ==>
          && row[j].startRow == n && row[j].endRow == n + 1
          && row[j].startCol == j && row[j].endCol == j + 1
          && row[j].colSpan == 1 && row[j].rowSpan == 1)
  }

  /** The open table is rows laid one after another, from the budget it found. */
  ghost predicate LaidSoFar(p: PendingTable, left: nat) {
    exists rows: seq<(seq<WireCell>, bool)>, budget: nat :: LaidFrom(p, left, rows, budget)
  }

  predicate LaidFrom(p: PendingTable, left: nat, rows: seq<(seq<WireCell>, bool)>, budget: nat) {
    LayRows(NO_ROWS, rows, budget) == (p.layout, left)
  }

  ghost predicate TableLaid(t: TableItem) {
    Tabular(t.grid, t.cells, t.numRows, t.numCols)
  }

  ghost predicate TablesLaid(tables: seq<TableItem>, facts: Option<nat>) {
    forall i :: 0 <= i < |tables| ==> if facts == Some(i) then Plain(tables[i]) else TableLaid(tables[i])
  }

  ghost predicate Sized(f: State) {
    && Budgeted(f)
    && TablesLaid(f.doc.tables, f.factsTable)
    && (f.factsTable.Some? ==> f.factsTable.value < |f.doc.tables|)
    && (f.table.Some? ==> LaidSoFar(f.table.value, f.spanSlotsLeft))
  }

  lemma {:induction false} LayRowsSnoc(
    lay: Layout, rows: seq<(seq<WireCell>, bool)>, row: (seq<WireCell>, bool), budget: nat)
    ensures LayRows(lay, rows + [row], budget)
         == LayRow(LayRows(lay, rows, budget).0, row.0, row.1, LayRows(lay, rows, budget).1)
    decreases |rows|
  {
    if rows == [] {
      assert [row][1..] == [];
    } else {
      var (next, left) := LayRow(lay, rows[0].0, rows[0].1, budget);
      LayRowsSnoc(next, rows[1..], row, left);
      assert (rows + [row])[1..] == rows[1..] + [row];
    }
  }

  lemma {:induction false} PlaceRowWidest(
    s: RowState, row: nat, wires: seq<WireCell>, headerRow: bool, before: seq<Cell>)
    requires s.column <= I32_MAX && Widest(before + s.cells, s.numCols)
    ensures var t := PlaceRow(s, row, wires, headerRow); Widest(before + t.cells, t.numCols)
    decreases |wires|
  {
    if wires != [] {
      var t := PlaceCell(s, row, wires[0], headerRow);
      WidestSnoc(before + s.cells, t.cells[|s.cells|], s.numCols);
      assert before + t.cells == before + s.cells + [t.cells[|s.cells|]];
      PlaceRowWidest(t, row, wires[1..], headerRow, before);
    }
  }

  lemma WidestSnoc(cells: seq<Cell>, c: Cell, n: nat)
    requires Widest(cells, n)
    ensures Widest(cells + [c], Max(n, c.endCol))
  {
    if c.endCol >= n {
      assert (cells + [c])[|cells|].endCol == Max(n, c.endCol);
    } else {
      var i :| 0 <= i < |cells| && cells[i].endCol == n;
      assert (cells + [c])[i].endCol == n;
    }
  }

  lemma {:induction false} LayRowsWidest(lay: Layout, rows: seq<(seq<WireCell>, bool)>, budget: nat)
    requires Widest(lay.cells, lay.numCols)
    ensures Widest(LayRows(lay, rows, budget).0.cells, LayRows(lay, rows, budget).0.numCols)
    decreases |rows|
  {
    if rows != [] {
      var row := Sat(|lay.grid|);
      var s := RowState(Prune(lay.occupied, row), 0, [], budget, lay.numCols);
      assert lay.cells + [] == lay.cells;
      PlaceRowWidest(s, row, rows[0].0, rows[0].1, lay.cells);
      var (next, left) := LayRow(lay, rows[0].0, rows[0].1, budget);
      LayRowsWidest(next, rows[1..], left);
    }
  }

  lemma PendingIsTabular(p: PendingTable, left: nat)
    requires LaidSoFar(p, left)
    ensures Tabular(p.layout.grid, p.layout.cells, Sat(|p.layout.grid|), p.layout.numCols)
  {
    var rows, budget :| LaidFrom(p, left, rows, budget);
    TablesAreWellLaid(rows, budget);
    LayRowsWidest(NO_ROWS, rows, budget);
    assert WellLaid(p.layout);
  }

  // ---------------------------------------------------------------- event by event

  lemma LinkKeepsTables(d: Document, p: Ref, c: Ref)
    ensures d.LinkChild(p, c).tables == d.tables
  {
  }

  /** Steps that touch no table. */
  predicate SameTables(f: State, g: State) {
    && g.doc.tables == f.doc.tables && g.table == f.table
    && g.factsTable == f.factsTable && g.spanSlotsLeft == f.spanSlotsLeft
  }

  lemma PushTextTables(f: State, item: TextEvent)
    ensures SameTables(f, PushText(f, item))
  {
    OpenedTables(f, item);
    PlaceTextTables(Opened(f, item), item);
  }

  lemma OpenedTables(f: State, item: TextEvent)
    ensures SameTables(f, Opened(f, item))
  {
  }

  lemma PlaceTextTables(g: State, item: TextEvent)
    requires item.kind.ListItem? ==> g.lists != []
    ensures SameTables(g, PlaceText(g, item))
  {
  }

  lemma SameTablesSized(f: State, g: State)
    requires Sized(f) && SameTables(f, g)
    ensures Sized(g)
  {
  }

  lemma FinishTableSized(f: State)
    requires Sized(f)
    ensures Sized(FinishTable(f)) && FinishTable(f).table.None?
    ensures FinishTable(f).factsTable == f.factsTable && FinishTable(f).spanSlotsLeft == f.spanSlotsLeft
  {
    if f.table.Some? {
      var p, self := f.table.value, Tables(|f.doc.tables|);
      NewTableLaid(self, p, f.spanSlotsLeft);
      LinkKeepsTables(f.doc.(tables := f.doc.tables + [NewTable(self, p)]), p.parent, self);
      AppendSized(f, NewTable(self, p), FinishTable(f));
    }
  }

  lemma NewTableLaid(self: Ref, p: PendingTable, left: nat)
    requires LaidSoFar(p, left)
    ensures TableLaid(NewTable(self, p))
  {
    PendingIsTabular(p, left);
  }

  lemma AppendSized(f: State, t: TableItem, g: State)
    requires Sized(f) && f.table.Some? && TableLaid(t) && t.cells == f.table.value.layout.cells
    requires g.doc.tables == f.doc.tables + [t] && g.table == None
    requires g.factsTable == f.factsTable && g.spanSlotsLeft == f.spanSlotsLeft
    ensures Sized(g)
  {
    ClaimedSnoc(f.doc.tables, t);
    TablesLaidSnoc(f.doc.tables, t, f.factsTable);
  }

  lemma TablesLaidSnoc(tables: seq<TableItem>, t: TableItem, facts: Option<nat>)
    requires TablesLaid(tables, facts) && TableLaid(t) && facts != Some(|tables|)
    ensures TablesLaid(tables + [t], facts)
  {
  }

  lemma OnTableStartSized(f: State, tableRef: string, caption: Option<string>, elementId: Option<string>)
    requires Sized(f)
    ensures Sized(OnTableStart(f, tableRef, caption, elementId))
  {
    var e := f.(lists := []);
    SameTablesSized(f, e);
    FinishTableSized(e);
    var g := FinishTable(e);
    if caption.Some? {
      PushTextTables(g, CaptionText(caption.value));
    }
    OpenTableSized(g, OnTableStart(f, tableRef, caption, elementId));
  }

  lemma OpenTableSized(g: State, h: State)
    requires Sized(g) && g.table.None? && h.table.Some? && h.table.value.layout == NO_ROWS
    requires h.doc.tables == g.doc.tables && h.factsTable == g.factsTable && h.spanSlotsLeft == g.spanSlotsLeft
    ensures Sized(h)
  {
    assert LaidFrom(h.table.value, h.spanSlotsLeft, [], h.spanSlotsLeft);
  }

  lemma OnTableRowSized(f: State, tableRef: string, isHeader: bool, cells: seq<WireCell>)
    requires Sized(f)
    ensures Sized(OnTableRow(f, tableRef, isHeader, cells))
  {
    if f.table.Some? && f.table.value.reference == tableRef {
      var p := f.table.value;
      var g := OnTableRow(f, tableRef, isHeader, cells);
      var rows, budget :| LaidFrom(p, f.spanSlotsLeft, rows, budget);
      LayRowsSnoc(NO_ROWS, rows, (cells, isHeader), budget);
      assert LaidFrom(g.table.value, g.spanSlotsLeft, rows + [(cells, isHeader)], budget);
      LayRowSpends(p.layout, cells, isHeader, f.spanSlotsLeft);
    }
  }

  lemma FactRowIsPlain(row: nat, columns: FactColumns, header: bool, dimensions: Option<Ref>)
    ensures PlainRow(FactRow(row, columns, header, dimensions), row)
    ensures Claimed(FactRow(row, columns, header, dimensions)) == 0
  {
    UnspannedClaimNothing(FactRow(row, columns, header, dimensions));
  }

  lemma PlainSnoc(t: TableItem, row: seq<Cell>, t': TableItem)
    requires Plain(t) && PlainRow(row, Sat(|t.grid|))
    requires t'.grid == t.grid + [row] && t'.cells == t.cells + row && t'.numRows == Sat(|t.grid| + 1)
      && t'.numCols == t.numCols
    ensures Plain(t')
  {
    assert t'.grid[..|t.grid|] == t.grid;
  }

  lemma EnsureFactsTableSized(f: State)
    requires Sized(f)
    ensures Sized(EnsureFactsTable(f)) && EnsureFactsTable(f).factsTable.value < |EnsureFactsTable(f).doc.tables|
  {
    var e, n := f.(lists := []), |f.doc.tables|;
    if f.factsTable.None? {
      var header := FactRow(0, FACT_HEADINGS, true, None);
      var t := TableItem(Tables(n), CurrentParent(f.headings), [], None, [header], header, 1, 11, []);
      FactRowIsPlain(0, FACT_HEADINGS, true, None);
      HeaderIsPlain(t, header);
      ClaimedSnoc(f.doc.tables, t);
      var g := OpenFactsTable(e);
      LinkKeepsTables(f.doc.(tables := f.doc.tables + [t]), CurrentParent(f.headings), Tables(n));
      assert g.doc.tables == f.doc.tables + [t];
      FactsTableLaid(f.doc.tables, t);
    }
  }

  lemma HeaderIsPlain(t: TableItem, header: seq<Cell>)
    requires PlainRow(header, 0) && t.grid == [header] && t.cells == header && t.numRows == 1 && t.numCols == 11
    ensures Plain(t)
  {
    assert [header][..0] == [] && Concat([]) == [];
    assert Concat([header]) == [] + header;
  }

  lemma FactsTableLaid(tables: seq<TableItem>, t: TableItem)
    requires TablesLaid(tables, None) && Plain(t)
    ensures TablesLaid(tables + [t], Some(|tables|))
  {
  }

  lemma PushDimensionsTables(f: State, dimensions: seq<(string, string)>)
    ensures SameTables(f, PushDimensions(f, dimensions))
  {
  }

  lemma AddFactRowSized(f: State, columns: FactColumns, dimensions: Option<Ref>)
    requires Sized(f) && f.factsTable.Some?
    ensures Sized(AddFactRow(f, f.factsTable.value, columns, dimensions))
  {
    var index := f.factsTable.value;
    var t := f.doc.tables[index];
    var row := FactRow(Sat(|t.grid|), columns, false, dimensions);
    var t' := t.(grid := t.grid + [row], cells := t.cells + row, numRows := Sat(|t.grid| + 1));
    FactRowIsPlain(Sat(|t.grid|), columns, false, dimensions);
    assert Plain(t);
    PlainSnoc(t, row, t');
    ClaimedConcat(t.cells, row);
    FactsReplaced(f, AddFactRow(f, index, columns, dimensions), index, t');
  }

  /** Only the fact table is another, which claims as much as before. */
  lemma FactsReplaced(f: State, g: State, index: nat, t: TableItem)
    requires Sized(f) && f.factsTable == Some(index) && index < |f.doc.tables|
    requires Plain(t) && Claimed(t.cells) == Claimed(f.doc.tables[index].cells)
    requires g.doc.tables == f.doc.tables[index := t] && g.table == f.table
    requires g.factsTable == f.factsTable && g.spanSlotsLeft == f.spanSlotsLeft
    ensures Sized(g)
  {
    hide Plain, TableLaid, Claimed, LaidSoFar;
    ClaimedUpdate(f.doc.tables, index, t);
  }

  lemma OnFactSized(f: State, columns: FactColumns, dimensions: seq<(string, string)>)
    requires Sized(f)
    ensures Sized(OnFact(f, columns, dimensions))
  {
    EnsureFactsTableSized(f);
    var g := EnsureFactsTable(f);
    PushDimensionsTables(g, dimensions);
    var h := PushDimensions(g, dimensions);
    SameTablesSized(g, h);
    AddFactRowSized(h, columns, if dimensions == [] then None else Some(KeyValues(|g.doc.keyValues|)));
  }

  lemma ConsumeSized(f: State, e: Event)
    requires Sized(f)
    ensures Sized(Consume(f, e))
  {
    if e.Text? {
      if e.item.kind.Picture? {
        PictureTables(f, e.item);
        SameTablesSized(f, PushPicture(f, e.item));
      } else {
        PushTextTables(f, e.item);
        SameTablesSized(f, PushText(f, e.item));
      }
    } else if e.TableStart? {
      OnTableStartSized(f, e.tableRef, e.caption, e.elementId);
    } else if e.TableRow? {
      OnTableRowSized(f, e.tableRef, e.isHeader, e.cells);
    } else if e.TableEnd? {
      FinishTableSized(f);
    } else if e.Fact? {
      OnFactSized(f, e.columns, e.dimensions);
    } else if e.Citation? {
      PushTextTables(f, CitationText(e.text, e.ordinal, e.elementId));
      SameTablesSized(f, OnCitation(f, e.text, e.ordinal, e.elementId));
    } else if e.Footnote? {
      PushTextTables(f, FootnoteText(e.text, e.name));
      SameTablesSized(f, OnFootnote(f, e.text, e.name));
    } else if e.HtmlIsland? {
      IslandTables(f, e.text);
      SameTablesSized(f, OnHtmlIsland(f, e.text));
    }
  }

  lemma PictureTables(f: State, item: TextEvent)
    ensures SameTables(f, PushPicture(f, item))
  {
  }

  lemma IslandTables(f: State, text: string)
    ensures SameTables(f, OnHtmlIsland(f, text))
  {
  }

  lemma {:induction false} FoldAllSized(events: seq<Event>)
    ensures Sized(FoldAll(events))
    decreases |events|
  {
    if events != [] {
      FoldAllSized(events[..|events| - 1]);
      ConsumeSized(FoldAll(events[..|events| - 1]), events[|events| - 1]);
    }
  }

  // ------------------------------------------- patching runs moves no cell anywhere

  ghost predicate SamePlaces(a: seq<Cell>, b: seq<Cell>) {
    && |a| == |b|
    && (forall i :: 0 <= i < |a| ==> b[i].(spans := []) == a[i].(spans := []))
  }

  ghost predicate SameGrids(a: seq<seq<Cell>>, b: seq<seq<Cell>>) {
    |a| == |b| && forall i :: 0 <= i < |a| ==> SamePlaces(a[i], b[i])
  }

  lemma SameCovered(a: seq<Cell>, b: seq<Cell>, row: nat, column: nat)
    requires SamePlaces(a, b)
    ensures Covered(a, row, column) <==> Covered(b, row, column)
  {
    if Covered(a, row, column) {
      var i :| 0 <= i < |a| && Covers(a[i], row, column);
      assert b[i].(spans := []) == a[i].(spans := []);
      assert Covers(b[i], row, column);
    }
    if Covered(b, row, column) {
      var i :| 0 <= i < |b| && Covers(b[i], row, column);
      assert b[i].(spans := []) == a[i].(spans := []);
      assert Covers(a[i], row, column);
    }
  }

  lemma SamePlaced(x: Cell, y: Cell, a: seq<Cell>, b: seq<Cell>, row: nat, from: nat)
    requires SamePlaces(a, b) && x.(spans := []) == y.(spans := []) && Placed(x, a, row, from)
    ensures Placed(y, b, row, from)
  {
    forall c: nat ensures Covered(a, row, c) <==> Covered(b, row, c) {
      SameCovered(a, b, row, c);
    }
    assert x.startCol == y.startCol && x.endCol == y.endCol && x.startRow == y.startRow && x.endRow == y.endRow
        && x.colSpan == y.colSpan && x.rowSpan == y.rowSpan by {
      assert x.(spans := []).startCol == y.(spans := []).startCol;
    }
  }

  lemma SameRowPlaced(x: seq<Cell>, y: seq<Cell>, a: seq<Cell>, b: seq<Cell>, row: nat)
    requires SamePlaces(a, b) && SamePlaces(x, y) && RowPlaced(x, a, row)
    ensures RowPlaced(y, b, row)
  {
    forall j | 0 <= j < |y| ensures PlacedAt(y, b, row, j) {
      assert PlacedAt(x, a, row, j);
      assert SamePlaces(a + x[..j], b + y[..j]);
      if j > 0 {
        assert x[j - 1].(spans := []) == y[j - 1].(spans := []);
        assert x[j - 1].endCol == x[j - 1].(spans := []).endCol;
      }
      SamePlaced(x[j], y[j], a + x[..j], b + y[..j], row, if j == 0 then 0 else x[j - 1].endCol);
    }
  }

  lemma {:induction false} SameConcat(a: seq<seq<Cell>>, b: seq<seq<Cell>>)
    requires SameGrids(a, b)
    ensures SamePlaces(Concat(a), Concat(b))
    decreases |a|
  {
    if a != [] {
      SameConcat(a[..|a| - 1], b[..|b| - 1]);
    }
  }

  lemma SameTabular(
    grid: seq<seq<Cell>>, cells: seq<Cell>, grid': seq<seq<Cell>>, cells': seq<Cell>, numRows: nat, numCols: nat)
    requires Tabular(grid, cells, numRows, numCols)
    requires SameGrids(grid, grid') && SamePlaces(cells, cells') && cells' == Concat(grid')
    ensures Tabular(grid', cells', numRows, numCols)
  {
    forall i | 0 <= i < |grid'| ensures RowPlaced(grid'[i], Concat(grid'[..i]), Sat(i)) {
      assert Layout(grid, cells, {}, 0).grid[i] == grid[i];
      SameConcat(grid[..i], grid'[..i]);
      SameRowPlaced(grid[i], grid'[i], Concat(grid[..i]), Concat(grid'[..i]), Sat(i));
    }
    SameWidest(cells, cells', numCols);
  }

  lemma SameWidest(cells: seq<Cell>, cells': seq<Cell>, n: nat)
    requires Widest(cells, n) && SamePlaces(cells, cells')
    ensures Widest(cells', n)
  {
    forall i | 0 <= i < |cells| ensures cells'[i].endCol == cells[i].endCol {
      assert cells'[i].(spans := []).endCol == cells[i].(spans := []).endCol;
    }
    if n > 0 {
      var i :| 0 <= i < |cells| && cells[i].endCol == n;
      assert cells'[i].endCol == n;
    }
  }

  lemma SamePlain(t: TableItem, t': TableItem)
    requires Plain(t) && SameGrids(t.grid, t'.grid) && t'.cells == Concat(t'.grid)
    requires t'.numRows == t.numRows && t'.numCols == t.numCols
    ensures Plain(t')
  {
    forall i | 0 <= i < |t'.grid| ensures PlainRow(t'.grid[i], Sat(i)) {
      assert PlainRow(t.grid[i], Sat(i)) && SamePlaces(t.grid[i], t'.grid[i]);
      SamePlainRow(t.grid[i], t'.grid[i], Sat(i));
    }
  }

  lemma SamePlainRow(row: seq<Cell>, row': seq<Cell>, n: nat)
    requires PlainRow(row, n) && SamePlaces(row, row')
    ensures PlainRow(row', n)
  {
    forall j | 0 <= j < 11
      ensures row'[j].startRow == n && row'[j].endRow == n + 1 && row'[j].startCol == j && row'[j].endCol == j + 1
           && row'[j].colSpan == 1 && row'[j].rowSpan == 1
    {
      assert row'[j].(spans := []) == row[j].(spans := []);
    }
  }

  lemma {:induction false} SameClaimed(a: seq<Cell>, b: seq<Cell>)
    requires SamePlaces(a, b)
    ensures Claimed(a) == Claimed(b)
    decreases |a|
  {
    if a != [] {
      var n := |a| - 1;
      assert b[n].(spans := []) == a[n].(spans := []);
      SameClaimed(a[..n], b[..n]);
    }
  }

  lemma ResolvedTable(anchors: map<string, Ref>, t: TableItem)
    ensures var r := ResolveTable(anchors, t); SamePlaces(t.cells, r.cells) && SameGrids(t.grid, r.grid)
  {
    var r := ResolveTable(anchors, t);
    forall i | 0 <= i < |t.grid| ensures SamePlaces(t.grid[i], r.grid[i]) {
      assert r.grid[i] == ResolveCells(anchors, t.grid[i]);
    }
  }

  /** The tables of any finished document: each is laid as the table model asks,
      and the fact table, if there is one, is eleven plain cells a row. */
  lemma EveryTableIsLaid(events: seq<Event>, i: nat)
    requires i < |Taken(FoldAll(events)).tables|
    ensures var t := Taken(FoldAll(events)).tables[i];
      if FoldAll(events).factsTable == Some(i) then Plain(t) else TableLaid(t)
  {
    var f := FoldAll(events);
    FoldAllSized(events);
    FinishTableSized(f);
    PublishedTable(FinishTable(f), i);
  }

  lemma ResolvedCopies(anchors: map<string, Ref>, t: TableItem)
    requires t.cells == Concat(t.grid)
    ensures ResolveTable(anchors, t).cells == Concat(ResolveTable(anchors, t).grid)
  {
    CopiesAgree(anchors, t.grid);
    assert ResolveTable(anchors, t).grid == ResolveGrid(anchors, t.grid);
  }

  lemma ResolvedIsLaid(anchors: map<string, Ref>, t: TableItem)
    ensures TableLaid(t) ==> TableLaid(ResolveTable(anchors, t))
    ensures Plain(t) ==> Plain(ResolveTable(anchors, t))
  {
    var r := ResolveTable(anchors, t);
    ResolvedTable(anchors, t);
    if TableLaid(t) {
      ResolvedCopies(anchors, t);
      SameTabular(t.grid, t.cells, r.grid, r.cells, t.numRows, t.numCols);
    }
    if Plain(t) {
      ResolvedCopies(anchors, t);
      SamePlain(t, r);
    }
  }

  lemma PublishedTable(g: State, i: nat)
    requires i < |g.doc.tables| && TablesLaid(g.doc.tables, g.factsTable)
    ensures var t := Publish(g.doc, g.anchors).tables[i]; if g.factsTable == Some(i) then Plain(t) else TableLaid(t)
  {
    ResolvedIsLaid(g.anchors, g.doc.tables[i]);
  }

  /** The span budget is conserved over any stream: what all tables of the finished
      document claim beyond a slot a cell is what the fold has spent, so all of
      their slots number at most their cells plus the budget. */
  lemma SpanBudgetIsConserved(events: seq<Event>)
    ensures var d := Taken(FoldAll(events));
      ClaimedByAll(d.tables) + FoldAll(events).spanSlotsLeft == MAX_SPAN_SLOTS
    ensures var d := Taken(FoldAll(events)); SlotsOfAll(d.tables) <= CellsOfAll(d.tables) + MAX_SPAN_SLOTS
  {
    var f := FoldAll(events);
    FoldAllSized(events);
    FinishTableSized(f);
    PublishedClaims(FinishTable(f));
  }

  lemma PublishedClaims(g: State)
    requires Budgeted(g) && g.table.None?
    ensures var d := Publish(g.doc, g.anchors);
      && ClaimedByAll(d.tables) + g.spanSlotsLeft == MAX_SPAN_SLOTS
      && SlotsOfAll(d.tables) <= CellsOfAll(d.tables) + MAX_SPAN_SLOTS
  {
    ResolvedClaims(g.anchors, g.doc.tables);
    SlotsOfAllClaimed(ResolvedTables(g.anchors, g.doc.tables));
    assert Publish(g.doc, g.anchors).tables == ResolvedTables(g.anchors, g.doc.tables);
  }

  function ResolvedTables(anchors: map<string, Ref>, tables: seq<TableItem>): (r: seq<TableItem>)
    ensures |r| == |tables|
  {
    seq(|tables|, i requires 0 <= i < |tables| => ResolveTable(anchors, tables[i]))
  }

  lemma {:induction false} ResolvedClaims(anchors: map<string, Ref>, tables: seq<TableItem>)
    ensures ClaimedByAll(ResolvedTables(anchors, tables)) == ClaimedByAll(tables)
    decreases |tables|
  {
    if tables != [] {
      var n := |tables| - 1;
      ResolvedClaims(anchors, tables[..n]);
      assert ResolvedTables(anchors, tables)[..n] == ResolvedTables(anchors, tables[..n]);
      ResolvedTable(anchors, tables[n]);
      SameClaimed(tables[n].cells, ResolveTable(anchors, tables[n]).cells);
    }
  }

  /** Grid slots the cells span, rows times columns each. */
  function Slots(cells: seq<Cell>): nat {
    if cells == [] then 0
    else Slots(cells[..|cells| - 1]) + cells[|cells| - 1].colSpan * cells[|cells| - 1].rowSpan
  }

  function SlotsOfAll(tables: seq<TableItem>): nat {
    if tables == [] then 0 else SlotsOfAll(tables[..|tables| - 1]) + Slots(tables[|tables| - 1].cells)
  }

  function CellsOfAll(tables: seq<TableItem>): nat {
    if tables == [] then 0 else CellsOfAll(tables[..|tables| - 1]) + |tables[|tables| - 1].cells|
  }

  lemma {:induction false} SlotsClaimed(cells: seq<Cell>)
    ensures Slots(cells) <= |cells| + Claimed(cells)
    decreases |cells|
  {
    if cells != [] {
      SlotsClaimed(cells[..|cells| - 1]);
    }
  }

  lemma {:induction false} SlotsOfAllClaimed(tables: seq<TableItem>)
    ensures SlotsOfAll(tables) <= CellsOfAll(tables) + ClaimedByAll(tables)
    decreases |tables|
  {
    if tables != [] {
      SlotsOfAllClaimed(tables[..|tables| - 1]);
      SlotsClaimed(tables[|tables| - 1].cells);
    }
  }

  /** Taking a document renews nothing but the document: the next one starts empty, with
      what the tables of this one left of the budget. */
  lemma TakingKeepsTheBudget(events: seq<Event>)
    ensures var g := AfterTake(FoldAll(events));
      && g.spanSlotsLeft == MAX_SPAN_SLOTS - ClaimedByAll(Taken(FoldAll(events)).tables)
      && g.doc == EMPTY && g.headings == [] && g.lists == [] && g.table.None? && g.factsTable.None?
      && g.anchors == map[]
  {
    SpanBudgetIsConserved(events);
  }
}
