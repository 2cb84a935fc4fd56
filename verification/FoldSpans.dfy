/** Spans are honoured exactly as far as the budget goes: a cell of a finished document
    has the spans its wire cell claims if and only if what the cells before it left of
    the budget covers them. */
module FoldSpans {
  import opened Basics
  import opened Wrappers
  import opened Document
  import opened Grid
  import opened Fold
  import opened FoldTables
  import opened FoldSays
  import FoldAnchors

  // -------------------------------------------------------------------------- one row

  /** What a cell claims one way: one at least, and what 31 bits hold at most. */
  function Claim(span: nat): nat {
    Min(Max(span, 1), 0x7FFF_FFFF)
  }

  /** With so much left, the cell has the spans claimed for it, or is one slot where they
      cost more than that beyond its own. */
  predicate Honoured(cell: Cell, columnSpan: nat, rowSpan: nat, left: int) {
    var columns, rows := Claim(columnSpan), Claim(rowSpan);
    if columns * rows - 1 <= left then cell.colSpan == columns && cell.rowSpan == rows
    else cell.colSpan == 1 && cell.rowSpan == 1
  }

  predicate RowHonours(cells: seq<Cell>, wires: seq<WireCell>, left: int) {
    |cells| == |wires| && forall j :: 0 <= j < |cells| ==> CellHonours(cells, wires, j, left)
  }

  predicate CellHonours(cells: seq<Cell>, wires: seq<WireCell>, j: nat, left: int)
    requires j < |cells| == |wires|
  {
    Honoured(cells[j], wires[j].columnSpan, wires[j].rowSpan, left - Claimed(cells[..j]))
  }

  lemma RowHonoursSnoc(cells: seq<Cell>, wires: seq<WireCell>, left: int, cell: Cell, wire: WireCell)
    requires RowHonours(cells, wires, left)
    requires Honoured(cell, wire.columnSpan, wire.rowSpan, left - Claimed(cells))
    ensures RowHonours(cells + [cell], wires + [wire], left)
  {
    hide Honoured, Claimed;
    forall j | 0 <= j < |cells| + 1 ensures CellHonours(cells + [cell], wires + [wire], j, left) {
      assert (cells + [cell])[..j] == if j < |cells| then cells[..j] else cells;
      assert j < |cells| ==> CellHonours(cells, wires, j, left);
    }
  }

  lemma {:induction false} PlaceRowHonours(
    s: RowState, row: nat, done: seq<WireCell>, wires: seq<WireCell>, headerRow: bool, left: int)
    requires s.column <= I32_MAX && RowHonours(s.cells, done, left) && s.budget == left - Claimed(s.cells)
    ensures RowHonours(PlaceRow(s, row, wires, headerRow).cells, done + wires, left)
    decreases |wires|
  {
    if wires == [] {
      assert done + wires == done;
    } else {
      hide RowHonours, Honoured, Claimed, PlaceCell, Rect;
      var t := PlaceCell(s, row, wires[0], headerRow);
      PlaceCellSpends(s, row, wires[0], headerRow);
      CellIsHonoured(s, row, wires[0], headerRow);
      RowHonoursSnoc(s.cells, done, left, t.cells[|s.cells|], wires[0]);
      assert t.cells == s.cells + [t.cells[|s.cells|]];
      PlaceRowHonours(t, row, done + [wires[0]], wires[1..], headerRow, left);
      assert done + [wires[0]] + wires[1..] == done + wires;
    }
  }

  lemma CellIsHonoured(s: RowState, row: nat, wire: WireCell, headerRow: bool)
    requires s.column <= I32_MAX
    ensures var t := PlaceCell(s, row, wire, headerRow);
      t.column <= I32_MAX && |t.cells| == |s.cells| + 1 && t.cells[..|s.cells|] == s.cells
      && Honoured(t.cells[|s.cells|], wire.columnSpan, wire.rowSpan, s.budget)
  {
  }

  // ------------------------------------------------------------------------ one table

  predicate GridHonours(grid: seq<seq<Cell>>, rows: seq<(seq<WireCell>, bool)>, left: int) {
    |grid| == |rows| && forall i :: 0 <= i < |grid| ==> RowAtHonours(grid, rows, i, left)
  }

  predicate RowAtHonours(grid: seq<seq<Cell>>, rows: seq<(seq<WireCell>, bool)>, i: nat, left: int)
    requires i < |grid| == |rows|
  {
    RowHonours(grid[i], rows[i].0, left - Claimed(Concat(grid[..i])))
  }

  lemma LayRowHonours(lay: Layout, rows: seq<(seq<WireCell>, bool)>, row: (seq<WireCell>, bool), budget: nat, left: int)
    requires GridHonours(lay.grid, rows, left) && lay.cells == Concat(lay.grid)
    requires budget == left - Claimed(lay.cells)
    ensures GridHonours(LayRow(lay, row.0, row.1, budget).0.grid, rows + [row], left)
  {
    var n := Sat(|lay.grid|);
    PlaceRowHonours(RowState(Prune(lay.occupied, n), 0, [], budget, lay.numCols), n, [], row.0, row.1, budget);
    assert [] + row.0 == row.0;
    GridHonoursSnoc(lay.grid, rows, row, LayRow(lay, row.0, row.1, budget).0.grid[|lay.grid|], left);
  }

  lemma GridHonoursSnoc(
    grid: seq<seq<Cell>>, rows: seq<(seq<WireCell>, bool)>, row: (seq<WireCell>, bool), cells: seq<Cell>, left: int)
    requires GridHonours(grid, rows, left) && RowHonours(cells, row.0, left - Claimed(Concat(grid)))
    ensures GridHonours(grid + [cells], rows + [row], left)
  {
    hide RowHonours, Claimed, Concat;
    forall i | 0 <= i < |grid| + 1 ensures RowAtHonours(grid + [cells], rows + [row], i, left) {
      assert (grid + [cells])[..i] == if i < |grid| then grid[..i] else grid;
      assert i < |grid| ==> RowAtHonours(grid, rows, i, left);
    }
  }

  // -------------------------------------------------------------------- a whole stream

  /** What the tables before leave of the budget. */
  function LeftBy(tables: seq<TableItem>): int {
    0x40_0000 - ClaimedByAll(tables)
  }

  predicate TableHonours(tables: seq<TableItem>, i: nat, source: Source)
    requires i < |tables|
  {
    source.Wire? ==> GridHonours(tables[i].grid, source.rows, LeftBy(tables[..i]))
  }

  predicate AllHonour(tables: seq<TableItem>, done: seq<Source>) {
    |tables| == |done| && forall i :: 0 <= i < |tables| ==> TableHonours(tables, i, done[i])
  }

  ghost predicate Honest(f: State, x: Sources) {
    && Sourcing(f, x) && AllHonour(f.doc.tables, x.done)
    && (f.table.Some? ==> GridHonours(f.table.value.layout.grid, x.open.value.1, LeftBy(f.doc.tables)))
  }

  /** Every slot claimed is paid for, and the flat cells are the rows. */
  ghost predicate Kept(f: State) {
    && Sized(f)
    && (f.table.Some? ==> f.table.value.layout.cells == Concat(f.table.value.layout.grid))
  }

  lemma AllHonourSnoc(tables: seq<TableItem>, done: seq<Source>, t: TableItem, source: Source)
    requires AllHonour(tables, done)
    requires source.Wire? ==> GridHonours(t.grid, source.rows, LeftBy(tables))
    ensures AllHonour(tables + [t], done + [source])
  {
    var all := tables + [t];
    forall i | 0 <= i < |all| ensures TableHonours(all, i, (done + [source])[i]) {
      assert all[..i] == if i < |tables| then tables[..i] else tables;
      assert i < |tables| ==> TableHonours(tables, i, done[i]);
    }
  }

  lemma FinishTableHonest(f: State, x: Sources)
    requires Honest(f, x)
    ensures Honest(FinishTable(f), x.Closed())
  {
    FinishTableSources(f, x);
    if f.table.Some? {
      var p, self := f.table.value, Tables(|f.doc.tables|);
      LinkKeepsTables(f.doc.(tables := f.doc.tables + [NewTable(self, p)]), p.parent, self);
      AllHonourSnoc(f.doc.tables, x.done, NewTable(self, p), Wire(x.open.value.1));
    }
  }

  lemma TableStartHonest(f: State, e: Event, x: Sources)
    requires e.TableStart? && Honest(f, x)
    ensures Honest(Consume(f, e), Sourced(x, e))
  {
    var g := FinishTable(f.(lists := []));
    FinishTableHonest(f.(lists := []), x);
    TableStartSources(f, e, x);
    if e.caption.Some? {
      PushTextTables(g, CaptionText(e.caption.value));
    }
    assert GridHonours([], [], LeftBy(g.doc.tables));
  }

  lemma TableRowHonest(f: State, e: Event, x: Sources)
    requires e.TableRow? && Honest(f, x) && Kept(f)
    ensures Honest(Consume(f, e), Sourced(x, e))
  {
    TableRowSources(f, e, x);
    if f.table.Some? && f.table.value.reference == e.tableRef {
      var p := f.table.value;
      LayRowHonours(p.layout, x.open.value.1, (e.cells, e.isHeader), f.spanSlotsLeft, LeftBy(f.doc.tables));
    }
  }

  lemma FactsTableHonest(f: State, x: Sources) returns (y: Sources)
    requires Honest(f, x) && Kept(f)
    ensures Honest(EnsureFactsTable(f), y) && Kept(EnsureFactsTable(f)) && y.facts.Some? && y.open == x.open
    ensures y == if x.facts.Some? then x else x.(done := x.done + [Facts([FACT_HEADINGS])], facts := Some(|x.done|))
  {
    hide GridHonours, ClaimedByAll, Sized, Sourcing, FactRow, Concat;
    y := FactsTableSources(f, x);
    EnsureFactsTableSized(f);
    if f.factsTable.None? {
      var table := FactsTableAdded(f);
      AllHonourSnoc(f.doc.tables, x.done, table, Facts([FACT_HEADINGS]));
      ClaimedSnoc(f.doc.tables, table);
    }
  }

  lemma FactsTableAdded(f: State) returns (table: TableItem)
    requires f.factsTable.None?
    ensures EnsureFactsTable(f).doc.tables == f.doc.tables + [table] && Claimed(table.cells) == 0
    ensures EnsureFactsTable(f).table == f.table
  {
    var parent, n := CurrentParent(f.headings), |f.doc.tables|;
    var header := FactRow(0, FACT_HEADINGS, true, None);
    table := TableItem(Tables(n), parent, [], None, [header], header, 1, 11, []);
    FactRowIsPlain(0, FACT_HEADINGS, true, None);
    LinkKeepsTables(f.doc.(tables := f.doc.tables + [table]), parent, Tables(n));
  }

  /** Only a table of facts is another, and it claims as much as before. */
  lemma FactsHonour(tables: seq<TableItem>, done: seq<Source>, n: nat, t: TableItem, facts: Source)
    requires AllHonour(tables, done) && n < |tables| && facts.Facts? && Claimed(t.cells) == Claimed(tables[n].cells)
    ensures AllHonour(tables[n := t], done[n := facts])
    ensures LeftBy(tables[n := t]) == LeftBy(tables)
  {
    hide GridHonours, ClaimedByAll;
    var all, after := tables[n := t], done[n := facts];
    ClaimedUpdate(tables, n, t);
    forall i | 0 <= i < |all| ensures TableHonours(all, i, after[i]) {
      if i > n {
        assert all[..i] == tables[..i][n := t];
        ClaimedUpdate(tables[..i], n, t);
      } else {
        assert all[..i] == tables[..i];
      }
      assert TableHonours(tables, i, done[i]);
    }
  }

  lemma FactRowHonest(f: State, columns: FactColumns, ref: Option<Ref>, x: Sources)
    requires Honest(f, x) && x.facts.Some?
    ensures Honest(AddFactRow(f, x.facts.value, columns, ref), WithFact(x, columns))
  {
    hide GridHonours, ClaimedByAll, FactRow, Claimed, GridFits, Holds;
    var n := x.facts.value;
    var t := f.doc.tables[n];
    var row := FactRow(Sat(|t.grid|), columns, false, ref);
    var t' := t.(grid := t.grid + [row], cells := t.cells + row, numRows := Sat(|t.grid| + 1));
    FactRowSources(f, columns, ref, x);
    FactRowIsPlain(Sat(|t.grid|), columns, false, ref);
    ClaimedConcat(t.cells, row);
    FactsHonour(f.doc.tables, x.done, n, t', Facts(x.done[n].facts + [columns]));
  }

  lemma SameHonest(f: State, g: State, x: Sources)
    requires Honest(f, x) && SameTables(f, g)
    ensures Honest(g, x)
  {
  }

  lemma FactHonest(f: State, e: Event, x: Sources)
    requires e.Fact? && Honest(f, x) && Kept(f)
    ensures Honest(Consume(f, e), Sourced(x, e))
  {
    hide Honest, Kept, EnsureFactsTable, PushDimensions, AddFactRow;
    var y := FactsTableHonest(f, x);
    var g := EnsureFactsTable(f);
    PushDimensionsTables(g, e.dimensions);
    SameHonest(g, PushDimensions(g, e.dimensions), y);
    var ref := if e.dimensions == [] then None else Some(KeyValues(|g.doc.keyValues|));
    FactsAt(g, y);
    FactRowHonest(PushDimensions(g, e.dimensions), e.columns, ref, y);
    assert [FACT_HEADINGS] + [e.columns] == [FACT_HEADINGS, e.columns];
    assert WithFact(y, e.columns) == WithFact(x, e.columns);
  }

  lemma FactsAt(g: State, y: Sources)
    requires Honest(g, y)
    ensures g.factsTable == y.facts
  {
  }

  lemma ConsumeHonest(f: State, e: Event, x: Sources)
    requires Honest(f, x) && Kept(f)
    ensures Honest(Consume(f, e), Sourced(x, e))
  {
    hide Honest, Kept, FinishTable;
    if e.TableStart? {
      TableStartHonest(f, e, x);
    } else if e.TableRow? {
      TableRowHonest(f, e, x);
    } else if e.TableEnd? {
      TableEndHonest(f, e, x);
    } else if e.Fact? {
      FactHonest(f, e, x);
    } else {
      OtherSources(f, e);
      SameHonest(f, Consume(f, e), x);
    }
  }

  lemma TableEndHonest(f: State, e: Event, x: Sources)
    requires e.TableEnd? && Honest(f, x)
    ensures Honest(Consume(f, e), Sourced(x, e))
  {
    FinishTableHonest(f, x);
  }

  lemma FoldAllKept(events: seq<Event>)
    ensures Kept(FoldAll(events))
  {
    FoldAllSized(events);
    FoldAnchors.FoldAllUnanswered(events);
  }

  lemma {:induction false} FoldAllHonest(events: seq<Event>)
    ensures Honest(FoldAll(events), SourcesOf(events))
    decreases |events|
  {
    if events != [] {
      var before := events[..|events| - 1];
      FoldAllHonest(before);
      FoldAllKept(before);
      ConsumeHonest(FoldAll(before), events[|events| - 1], SourcesOf(before));
    }
  }

  // --------------------------------------------------------------- the finished document

  /** Runs aside, the same cells. */
  predicate SameSpans(a: seq<Cell>, b: seq<Cell>) {
    |a| == |b| && forall j :: 0 <= j < |a| ==> b[j].colSpan == a[j].colSpan && b[j].rowSpan == a[j].rowSpan
  }

  lemma {:induction false} SameClaims(a: seq<Cell>, b: seq<Cell>)
    requires SameSpans(a, b)
    ensures Claimed(a) == Claimed(b)
    decreases |a|
  {
    if a != [] {
      SameClaims(a[..|a| - 1], b[..|b| - 1]);
    }
  }

  lemma ResolvedRowHonours(anchors: map<string, Ref>, cells: seq<Cell>, wires: seq<WireCell>, left: int)
    requires RowHonours(cells, wires, left)
    ensures RowHonours(ResolveCells(anchors, cells), wires, left)
  {
    hide Claimed;
    var after := ResolveCells(anchors, cells);
    forall j | 0 <= j < |cells| ensures CellHonours(after, wires, j, left) {
      SameClaims(cells[..j], after[..j]);
      assert CellHonours(cells, wires, j, left);
    }
  }

  lemma ResolvedGridHonours(
    anchors: map<string, Ref>, grid: seq<seq<Cell>>, rows: seq<(seq<WireCell>, bool)>, left: int)
    requires GridHonours(grid, rows, left)
    ensures GridHonours(FoldAnchors.ResolveGrid(anchors, grid), rows, left)
  {
    hide RowHonours, Claimed, Concat;
    var after := FoldAnchors.ResolveGrid(anchors, grid);
    forall i | 0 <= i < |grid| ensures RowAtHonours(after, rows, i, left) {
      assert RowAtHonours(grid, rows, i, left);
      ResolvedRowsClaim(anchors, grid, i);
      ResolvedRowHonours(anchors, grid[i], rows[i].0, left - Claimed(Concat(grid[..i])));
    }
  }

  lemma ResolvedRowsClaim(anchors: map<string, Ref>, grid: seq<seq<Cell>>, i: nat)
    requires i <= |grid|
    ensures Claimed(Concat(FoldAnchors.ResolveGrid(anchors, grid)[..i])) == Claimed(Concat(grid[..i]))
  {
    hide Claimed, Concat;
    assert FoldAnchors.ResolveGrid(anchors, grid)[..i] == FoldAnchors.ResolveGrid(anchors, grid[..i]);
    FoldAnchors.CopiesAgree(anchors, grid[..i]);
    SameClaims(Concat(grid[..i]), ResolveCells(anchors, Concat(grid[..i])));
  }

  /** In the finished document of any stream the i-th table, where rows were sent for it,
      honours its cells' spans, in order, exactly while what is left of the budget of
      4194304 slots covers them. */
  lemma SpansAreHonoured(events: seq<Event>)
    ensures AllHonour(Taken(FoldAll(events)).tables, SourcesOf(events).Closed().done)
  {
    var f, x := FoldAll(events), SourcesOf(events);
    FoldAllHonest(events);
    FinishTableHonest(f, x);
    PublishedHonours(FinishTable(f), x.Closed().done);
  }

  lemma PublishedHonours(g: State, done: seq<Source>)
    requires AllHonour(g.doc.tables, done)
    ensures AllHonour(Publish(g.doc, g.anchors).tables, done)
  {
    var tables := Publish(g.doc, g.anchors).tables;
    forall i | 0 <= i < |tables| ensures TableHonours(tables, i, done[i]) {
      assert TableHonours(g.doc.tables, i, done[i]);
      assert tables[..i] == ResolvedTables(g.anchors, g.doc.tables[..i]);
      ResolvedClaims(g.anchors, g.doc.tables[..i]);
      if done[i].Wire? {
        ResolvedGridHonours(g.anchors, g.doc.tables[i].grid, done[i].rows, LeftBy(g.doc.tables[..i]));
        assert tables[i].grid == FoldAnchors.ResolveGrid(g.anchors, g.doc.tables[i].grid);
      }
    }
  }
}
