/** Table layout: wire rows are laid into a grid slot by slot, around the cells
    that span into them, within one budget of spanned slots per document. */
module Grid {
  import opened Basics
  import opened Wrappers
  import opened Document

  const I32_MAX: nat := 0x7FFF_FFFF

  /** Grid slots one document's spans may claim beyond one per cell. */
  const MAX_SPAN_SLOTS: nat := 0x40_0000

  /** A count as an `int32`, saturating. */
  function Sat(n: nat): nat {
    if n <= I32_MAX then n else I32_MAX
  }

  // ------------------------------------------------------------------ inline runs

  datatype WireSpan = WireSpan(
    range: Option<(nat, nat)>, styled: bool, hyperlink: Option<string>, references: seq<string>)

  /** One run per target the source names, over the same characters. */
  function RunPerTarget(start: nat, end: nat, styled: bool, hyperlink: Option<string>, names: seq<string>): seq<Span> {
    seq(|names|, i requires 0 <= i < |names| =>
      Span(start, end, styled, hyperlink, Some(names[i]), Some(Key(names[i]))))
  }

  /** The runs of one wire span; none when it says nothing the text does not. */
  function RunsOf(span: WireSpan): seq<Span> {
    if span.range.None? then []
    else
      var start, end := Sat(span.range.value.0), Sat(span.range.value.1);
      var hyperlink := if span.hyperlink == Some("") then None else span.hyperlink;
      if span.references != [] then RunPerTarget(start, end, span.styled, hyperlink, span.references)
      else if !span.styled && hyperlink.None? then []
      else [Span(start, end, span.styled, hyperlink, None, None)]
  }

  function InlineSpans(spans: seq<WireSpan>): seq<Span> {
    if spans == [] then [] else RunsOf(spans[0]) + InlineSpans(spans[1..])
  }

  // ----------------------------------------------------------------------- layout

  datatype WireCell = WireCell(text: string, columnSpan: nat, rowSpan: nat, isHeader: bool, spans: seq<WireSpan>)

  type Slot = (nat, nat)

  function Rect(row: nat, endRow: nat, column: nat, endCol: nat): set<Slot> {
    set r: nat, c: nat | row <= r < endRow && column <= c < endCol :: (r, c)
  }

  predicate Covers(cell: Cell, row: nat, column: nat) {
    cell.startRow <= row < cell.endRow && cell.startCol <= column < cell.endCol
  }

  predicate Covered(cells: seq<Cell>, row: nat, column: nat) {
    exists i :: 0 <= i < |cells| && Covers(cells[i], row, column)
  }

  /** The first column from here on that is free in the row. */
  function FirstFree(occupied: set<Slot>, row: nat, column: nat): (c: nat)
    requires column <= I32_MAX
    ensures column <= c <= I32_MAX
    ensures forall k: nat :: column <= k < c ==> (row, k) in occupied
    ensures c < I32_MAX ==> (row, c) !in occupied
    decreases I32_MAX - column
  {
    if column < I32_MAX && (row, column) in occupied then FirstFree(occupied, row, column + 1) else column
  }

  /** A row half laid: the slots taken, the next column, the cells so far, what
      is left of the budget, and the widest column reached in the table. */
  datatype RowState = RowState(occupied: set<Slot>, column: nat, cells: seq<Cell>, budget: nat, numCols: nat)

  /** Spans as they are honoured: as claimed while the budget lasts, else one. */
  function HonouredSpans(wire: WireCell, budget: nat): (nat, nat) {
    var colSpan, rowSpan := Sat(Max(wire.columnSpan, 1)), Sat(Max(wire.rowSpan, 1));
    if colSpan * rowSpan - 1 > budget then (1, 1) else (colSpan, rowSpan)
  }

  function PlaceCell(s: RowState, row: nat, wire: WireCell, headerRow: bool): RowState
    requires s.column <= I32_MAX
  {
    var column := FirstFree(s.occupied, row, s.column);
    var (colSpan, rowSpan) := HonouredSpans(wire, s.budget);
    var endRow, endCol := Sat(row + rowSpan), Sat(column + colSpan);
    SpanBudget(wire, s.budget);
    RowState(
      s.occupied + Rect(row, endRow, column, endCol),
      endCol,
      s.cells + [Cell(rowSpan, colSpan, row, endRow, column, endCol, wire.text,
                      headerRow || wire.isHeader, InlineSpans(wire.spans), None)],
      s.budget - (colSpan * rowSpan - 1),
      Max(s.numCols, endCol))
  }

  /** The budget never goes below zero, and the product of two spans stays far
      inside 64 bits. */
  lemma SpanBudget(wire: WireCell, budget: nat)
    ensures var (colSpan, rowSpan) := HonouredSpans(wire, budget);
      && 1 <= colSpan <= I32_MAX && 1 <= rowSpan <= I32_MAX
      && 0 <= colSpan * rowSpan - 1 <= budget
    ensures Sat(Max(wire.columnSpan, 1)) * Sat(Max(wire.rowSpan, 1)) <= 0x3FFF_FFFF_0000_0001
  {
    var a, b := Sat(Max(wire.columnSpan, 1)), Sat(Max(wire.rowSpan, 1));
    assert 1 <= a * b <= I32_MAX * b <= I32_MAX * I32_MAX by {
      Product(a, I32_MAX, b);
      Product(1, a, b);
      Product(b, I32_MAX, I32_MAX);
    }
  }

  lemma Product(a: nat, b: nat, k: nat)
    requires a <= b
    ensures a * k <= b * k
  {
  }

  function PlaceRow(s: RowState, row: nat, wires: seq<WireCell>, headerRow: bool): RowState
    requires s.column <= I32_MAX
    decreases |wires|
  {
    if wires == [] then s else PlaceRow(PlaceCell(s, row, wires[0], headerRow), row, wires[1..], headerRow)
  }

  /** A table being laid. */
  datatype Layout = Layout(grid: seq<seq<Cell>>, cells: seq<Cell>, occupied: set<Slot>, numCols: nat)

  const NO_ROWS := Layout([], [], {}, 0)

  /** Lay one row over the slots given as taken; the budget left comes back. */
  function LayOver(
    lay: Layout, occupied: set<Slot>, wires: seq<WireCell>, headerRow: bool, budget: nat): (Layout, nat)
  {
    var s := PlaceRow(RowState(occupied, 0, [], budget, lay.numCols), Sat(|lay.grid|), wires, headerRow);
    (Layout(lay.grid + [s.cells], lay.cells + s.cells, s.occupied, s.numCols), s.budget)
  }

  /** The slots of rows not laid yet. */
  function Prune(occupied: set<Slot>, row: nat): set<Slot> {
    set s | s in occupied && row <= s.0
  }

  /** What the fold does: forget the slots of rows already laid first. */
  function LayRow(lay: Layout, wires: seq<WireCell>, headerRow: bool, budget: nat): (Layout, nat) {
    LayOver(lay, Prune(lay.occupied, Sat(|lay.grid|)), wires, headerRow, budget)
  }

  /** The same, remembering every slot ever taken. */
  function LayRowRemembering(lay: Layout, wires: seq<WireCell>, headerRow: bool, budget: nat): (Layout, nat) {
    LayOver(lay, lay.occupied, wires, headerRow, budget)
  }

  /** Rows of a table, each with its header mark, laid one after another. */
  function LayRows(lay: Layout, rows: seq<(seq<WireCell>, bool)>, budget: nat): (Layout, nat)
    decreases |rows|
  {
    if rows == [] then (lay, budget)
    else
      var (next, left) := LayRow(lay, rows[0].0, rows[0].1, budget);
      LayRows(next, rows[1..], left)
  }

  function LayRowsRemembering(lay: Layout, rows: seq<(seq<WireCell>, bool)>, budget: nat): (Layout, nat)
    decreases |rows|
  {
    if rows == [] then (lay, budget)
    else
      var (next, left) := LayRowRemembering(lay, rows[0].0, rows[0].1, budget);
      LayRowsRemembering(next, rows[1..], left)
  }

  // ------------------------------------------------- pruning changes nothing laid

  /** Two slot sets that no row from here on can tell apart. */
  ghost predicate AgreeFrom(a: set<Slot>, b: set<Slot>, row: nat) {
    forall s: Slot :: row <= s.0 ==> (s in a <==> s in b)
  }

  lemma {:induction false} FirstFreeAgrees(a: set<Slot>, b: set<Slot>, row: nat, column: nat)
    requires AgreeFrom(a, b, row) && column <= I32_MAX
    ensures FirstFree(a, row, column) == FirstFree(b, row, column)
    decreases I32_MAX - column
  {
    assert (row, column) in a <==> (row, column) in b;
    if column < I32_MAX && (row, column) in a {
      FirstFreeAgrees(a, b, row, column + 1);
    }
  }

  lemma PlaceCellAgrees(s: RowState, occupied: set<Slot>, row: nat, wire: WireCell, headerRow: bool)
    requires AgreeFrom(s.occupied, occupied, row) && s.column <= I32_MAX
    ensures var t, u := PlaceCell(s, row, wire, headerRow), PlaceCell(s.(occupied := occupied), row, wire, headerRow);
      AgreeFrom(t.occupied, u.occupied, row) && t == u.(occupied := t.occupied)
  {
    FirstFreeAgrees(s.occupied, occupied, row, s.column);
  }

  lemma {:induction false} PlaceRowAgrees(
    s: RowState, occupied: set<Slot>, row: nat, wires: seq<WireCell>, headerRow: bool)
    requires AgreeFrom(s.occupied, occupied, row) && s.column <= I32_MAX
    ensures var t, u := PlaceRow(s, row, wires, headerRow), PlaceRow(s.(occupied := occupied), row, wires, headerRow);
      AgreeFrom(t.occupied, u.occupied, row) && t == u.(occupied := t.occupied)
    decreases |wires|
  {
    if wires != [] {
      PlaceCellAgrees(s, occupied, row, wires[0], headerRow);
      var t := PlaceCell(s, row, wires[0], headerRow);
      var u := PlaceCell(s.(occupied := occupied), row, wires[0], headerRow);
      PlaceRowAgrees(t, u.occupied, row, wires[1..], headerRow);
    }
  }

  /** Laying a table with the pruned slot set gives the grid, the cells and the
      budget of laying it with every slot remembered. */
  lemma {:induction false} PruningIsInvisible(
    lay: Layout, occupied: set<Slot>, rows: seq<(seq<WireCell>, bool)>, budget: nat)
    requires AgreeFrom(lay.occupied, occupied, Sat(|lay.grid|))
    ensures var (a, left), (b, left') := LayRows(lay, rows, budget),
                                         LayRowsRemembering(lay.(occupied := occupied), rows, budget);
      a.grid == b.grid && a.cells == b.cells && a.numCols == b.numCols && left == left'
    decreases |rows|
  {
    if rows != [] {
      var row := Sat(|lay.grid|);
      var s := RowState(Prune(lay.occupied, row), 0, [], budget, lay.numCols);
      PlaceRowAgrees(s, occupied, row, rows[0].0, rows[0].1);
      var (a, left) := LayRow(lay, rows[0].0, rows[0].1, budget);
      var (b, _) := LayRowRemembering(lay.(occupied := occupied), rows[0].0, rows[0].1, budget);
      assert |a.grid| == |lay.grid| + 1;
      PruningIsInvisible(a, b.occupied, rows[1..], left);
    }
  }

  // ------------------------------------------------------------ where cells end up

  /** The slots taken are the slots some cell covers. */
  ghost predicate Exact(occupied: set<Slot>, cells: seq<Cell>) {
    forall s: Slot :: s in occupied <==> Covered(cells, s.0, s.1)
  }

  /** A cell sits well among the ones before it: it starts at the least column
      from `from` on that none of them covers in its row. */
  ghost predicate Placed(cell: Cell, before: seq<Cell>, row: nat, from: nat) {
    && cell.startRow == row
    && from <= cell.startCol <= I32_MAX
    && (forall c: nat :: from <= c < cell.startCol ==> Covered(before, row, c))
    && !Covered(before, row, cell.startCol)
    && cell.startCol <= cell.endCol == Sat(cell.startCol + cell.colSpan)
    && cell.endRow == Sat(row + cell.rowSpan) && 1 <= cell.rowSpan && 1 <= cell.colSpan
  }

  /** Every cell of a row is placed after its predecessor in the row and around
      all cells of earlier rows. */
  ghost predicate RowPlaced(cells: seq<Cell>, before: seq<Cell>, row: nat) {
    forall j :: 0 <= j < |cells| ==> PlacedAt(cells, before, row, j)
  }

  ghost predicate PlacedAt(cells: seq<Cell>, before: seq<Cell>, row: nat, j: nat)
    requires j < |cells|
  {
    Placed(cells[j], before + cells[..j], row, if j == 0 then 0 else cells[j - 1].endCol)
  }

  /** No slot is ever taken at the last representable column. */
  predicate Bounded(occupied: set<Slot>) {
    forall s :: s in occupied ==> s.1 < I32_MAX
  }

  lemma {:induction false} PlaceRowBounded(s: RowState, row: nat, wires: seq<WireCell>, headerRow: bool)
    requires s.column <= I32_MAX && Bounded(s.occupied)
    ensures Bounded(PlaceRow(s, row, wires, headerRow).occupied)
    decreases |wires|
  {
    if wires != [] {
      PlaceRowBounded(PlaceCell(s, row, wires[0], headerRow), row, wires[1..], headerRow);
    }
  }

  ghost predicate RowInv(s: RowState, before: seq<Cell>, row: nat) {
    && Exact(s.occupied, before + s.cells)
    && Bounded(s.occupied)
    && RowPlaced(s.cells, before, row)
    && s.column <= I32_MAX
    && s.column == (if s.cells == [] then 0 else s.cells[|s.cells| - 1].endCol)
  }

  lemma CoveredSnoc(cells: seq<Cell>, cell: Cell, row: nat, column: nat)
    ensures Covered(cells + [cell], row, column) <==> Covered(cells, row, column) || Covers(cell, row, column)
  {
    if Covered(cells, row, column) {
      var i :| 0 <= i < |cells| && Covers(cells[i], row, column);
      assert (cells + [cell])[i] == cells[i];
    }
    if Covers(cell, row, column) {
      assert (cells + [cell])[|cells|] == cell;
    }
  }

  lemma ExactSnoc(occupied: set<Slot>, cells: seq<Cell>, cell: Cell)
    requires Exact(occupied, cells)
    ensures Exact(occupied + Rect(cell.startRow, cell.endRow, cell.startCol, cell.endCol), cells + [cell])
  {
    forall s: Slot
      ensures s in occupied + Rect(cell.startRow, cell.endRow, cell.startCol, cell.endCol)
         <==> Covered(cells + [cell], s.0, s.1)
    {
      CoveredSnoc(cells, cell, s.0, s.1);
    }
  }

  lemma PlaceCellInv(s: RowState, before: seq<Cell>, row: nat, wire: WireCell, headerRow: bool)
    requires RowInv(s, before, row)
    ensures RowInv(PlaceCell(s, row, wire, headerRow), before, row)
  {
    var t := PlaceCell(s, row, wire, headerRow);
    var cell := t.cells[|s.cells|];
    var all := before + s.cells;
    SpanBudget(wire, s.budget);
    ExactSnoc(s.occupied, all, cell);
    assert before + t.cells == all + [cell];
    assert Placed(cell, all, row, s.column) by {
      forall c: nat | s.column <= c < cell.startCol ensures Covered(all, row, c) {
        assert (row, c) in s.occupied;
      }
      assert (row, cell.startCol) !in s.occupied;
    }
    RowPlacedSnoc(s.cells, cell, before, row);
  }

  lemma RowPlacedSnoc(cells: seq<Cell>, cell: Cell, before: seq<Cell>, row: nat)
    ensures RowPlaced(cells + [cell], before, row) <==>
      RowPlaced(cells, before, row)
      && Placed(cell, before + cells, row, if cells == [] then 0 else cells[|cells| - 1].endCol)
  {
    var more, n := cells + [cell], |cells|;
    assert more[..n] == cells && more[n] == cell;
    forall j | 0 <= j < n ensures PlacedAt(more, before, row, j) <==> PlacedAt(cells, before, row, j) {
      assert more[..j] == cells[..j];
    }
    assert PlacedAt(more, before, row, n) <==>
      Placed(cell, before + cells, row, if cells == [] then 0 else cells[n - 1].endCol);
  }

  lemma {:induction false} PlaceRowInv(s: RowState, before: seq<Cell>, row: nat, wires: seq<WireCell>, headerRow: bool)
    requires RowInv(s, before, row)
    ensures RowInv(PlaceRow(s, row, wires, headerRow), before, row)
    decreases |wires|
  {
    if wires != [] {
      PlaceCellInv(s, before, row, wires[0], headerRow);
      PlaceRowInv(PlaceCell(s, row, wires[0], headerRow), before, row, wires[1..], headerRow);
    }
  }

  function Concat(grid: seq<seq<Cell>>): seq<Cell> {
    if grid == [] then [] else Concat(grid[..|grid| - 1]) + grid[|grid| - 1]
  }

  /** A table as it is laid: the flat cells are the rows one after another, and
      every row is placed around all rows before it. */
  ghost predicate WellLaid(lay: Layout) {
    && lay.cells == Concat(lay.grid)
    && (forall i :: 0 <= i < |lay.grid| ==> RowPlaced(lay.grid[i], Concat(lay.grid[..i]), Sat(i)))
  }

  lemma LayRowRememberingInv(lay: Layout, wires: seq<WireCell>, headerRow: bool, budget: nat)
    requires WellLaid(lay) && Exact(lay.occupied, lay.cells) && Bounded(lay.occupied)
    ensures var (next, _) := LayRowRemembering(lay, wires, headerRow, budget);
      WellLaid(next) && Exact(next.occupied, next.cells) && Bounded(next.occupied)
  {
    var s := RowState(lay.occupied, 0, [], budget, lay.numCols);
    assert lay.cells + s.cells == lay.cells;
    PlaceRowInv(s, lay.cells, Sat(|lay.grid|), wires, headerRow);
    var (next, _) := LayRowRemembering(lay, wires, headerRow, budget);
    var n := |lay.grid|;
    assert next.grid[..n] == lay.grid;
    forall i | 0 <= i < |next.grid| ensures RowPlaced(next.grid[i], Concat(next.grid[..i]), Sat(i)) {
      if i < n {
        assert next.grid[..i] == lay.grid[..i];
      }
    }
  }

  /** Every table is well laid, whatever spans its rows claim. */
  lemma TablesAreWellLaid(rows: seq<(seq<WireCell>, bool)>, budget: nat)
    ensures WellLaid(LayRows(NO_ROWS, rows, budget).0)
  {
    PruningIsInvisible(NO_ROWS, {}, rows, budget);
    assert Exact({}, []) && Concat([]) == [];
    RememberedExact(NO_ROWS, rows, budget);
  }

  /** A cell says what its wire cell says, with its spans as claimed or not at all. */
  predicate Fits(cell: Cell, wire: WireCell, headerRow: bool) {
    && cell.text == wire.text && cell.header == (headerRow || wire.isHeader)
    && cell.spans == InlineSpans(wire.spans) && cell.ref.None?
    && ((cell.colSpan == Sat(Max(wire.columnSpan, 1)) && cell.rowSpan == Sat(Max(wire.rowSpan, 1)))
        || cell.colSpan == cell.rowSpan == 1)
  }

  predicate RowFits(cells: seq<Cell>, wires: seq<WireCell>, headerRow: bool) {
    |cells| == |wires| && forall j :: 0 <= j < |cells| ==> Fits(cells[j], wires[j], headerRow)
  }

  lemma {:induction false} PlaceRowFits(
    s: RowState, row: nat, done: seq<WireCell>, wires: seq<WireCell>, headerRow: bool)
    requires s.column <= I32_MAX && RowFits(s.cells, done, headerRow)
    ensures RowFits(PlaceRow(s, row, wires, headerRow).cells, done + wires, headerRow)
    decreases |wires|
  {
    if wires == [] {
      assert done + wires == done;
    } else {
      PlaceRowFits(PlaceCell(s, row, wires[0], headerRow), row, done + [wires[0]], wires[1..], headerRow);
      assert done + [wires[0]] + wires[1..] == done + wires;
    }
  }

  /** Row i of the grid is wire row i, cell for cell, in order. */
  predicate GridFits(grid: seq<seq<Cell>>, rows: seq<(seq<WireCell>, bool)>) {
    |grid| == |rows| && forall i :: 0 <= i < |rows| ==> RowFits(grid[i], rows[i].0, rows[i].1)
  }

  lemma LayRowFits(lay: Layout, done: seq<(seq<WireCell>, bool)>, row: (seq<WireCell>, bool), budget: nat)
    requires GridFits(lay.grid, done)
    ensures GridFits(LayRow(lay, row.0, row.1, budget).0.grid, done + [row])
  {
    var n := Sat(|lay.grid|);
    PlaceRowFits(RowState(Prune(lay.occupied, n), 0, [], budget, lay.numCols), n, [], row.0, row.1);
    assert [] + row.0 == row.0;
  }

  lemma {:induction false} LayRowsFits(
    lay: Layout, done: seq<(seq<WireCell>, bool)>, rows: seq<(seq<WireCell>, bool)>, budget: nat)
    requires GridFits(lay.grid, done)
    ensures GridFits(LayRows(lay, rows, budget).0.grid, done + rows)
    decreases |rows|
  {
    if rows == [] {
      assert done + rows == done;
    } else {
      LayRowFits(lay, done, rows[0], budget);
      var (next, left) := LayRow(lay, rows[0].0, rows[0].1, budget);
      LayRowsFits(next, done + [rows[0]], rows[1..], left);
      assert done + [rows[0]] + rows[1..] == done + rows;
    }
  }

  /** A table says what its rows said, whatever the spans did to its layout. */
  lemma TablesSayTheirRows(rows: seq<(seq<WireCell>, bool)>, budget: nat)
    ensures GridFits(LayRows(NO_ROWS, rows, budget).0.grid, rows)
  {
    LayRowsFits(NO_ROWS, [], rows, budget);
    assert [] + rows == rows;
  }

  /** No gaps: to the left of where a row ends, every column of the row is covered
      by a cell of the row or by one that reaches down into it. */
  lemma {:induction false} NoGaps(cells: seq<Cell>, before: seq<Cell>, row: nat, column: nat)
    requires RowPlaced(cells, before, row) && row < I32_MAX
    requires cells != [] && column < cells[|cells| - 1].endCol
    ensures Covered(before + cells, row, column)
    decreases |cells|
  {
    var n := |cells| - 1;
    var cell, front := cells[n], cells[..n];
    assert cells == front + [cell];
    assert before + cells == before + front + [cell];
    RowPlacedSnoc(front, cell, before, row);
    CoveredSnoc(before + front, cell, row, column);
    if column >= cell.startCol {
      assert Covers(cell, row, column);
    } else if n > 0 && column < cells[n - 1].endCol {
      NoGaps(front, before, row, column);
    }
  }

  // ----------------------------------------------------------------- span budget

  /** Slots a cell's spans claim beyond its own. */
  function Extra(cell: Cell): nat {
    if cell.colSpan * cell.rowSpan >= 1 then cell.colSpan * cell.rowSpan - 1 else 0
  }

  /** Slots the cells' spans claim beyond one per cell. */
  function Claimed(cells: seq<Cell>): nat {
    if cells == [] then 0
    else
      var c := cells[|cells| - 1];
      Claimed(cells[..|cells| - 1]) + Extra(c)
  }

  lemma {:induction false} ClaimedConcat(a: seq<Cell>, b: seq<Cell>)
    ensures Claimed(a + b) == Claimed(a) + Claimed(b)
    decreases |b|
  {
    if b == [] {
      assert a + b == a;
    } else {
      assert (a + b)[..|a + b| - 1] == a + b[..|b| - 1];
      ClaimedConcat(a, b[..|b| - 1]);
    }
  }

  /** One cell: what it claims leaves the budget, and it takes no more slots than
      its own and those. */
  lemma PlaceCellSpends(s: RowState, row: nat, wire: WireCell, headerRow: bool)
    requires s.column <= I32_MAX
    ensures var t := PlaceCell(s, row, wire, headerRow);
      && |t.cells| == |s.cells| + 1
      && t.budget + Claimed(t.cells) == s.budget + Claimed(s.cells)
      && (row <= I32_MAX ==> |t.occupied| + Claimed(s.cells) <= |s.occupied| + Claimed(t.cells) + 1)
  {
    var t := PlaceCell(s, row, wire, headerRow);
    var cell := t.cells[|s.cells|];
    SpanBudget(wire, s.budget);
    assert t.cells[..|t.cells| - 1] == s.cells;
    assert Claimed(t.cells) == Claimed(s.cells) + Extra(cell);
    if row <= I32_MAX {
      RectWithin(row, cell.rowSpan, cell.startCol, cell.colSpan);
      var rect := Rect(row, cell.endRow, cell.startCol, cell.endCol);
      assert |s.occupied + rect| <= |s.occupied| + |rect|;
    }
  }

  lemma {:induction false} PlaceRowSpends(s: RowState, row: nat, wires: seq<WireCell>, headerRow: bool)
    requires s.column <= I32_MAX
    ensures var t := PlaceRow(s, row, wires, headerRow);
      && |t.cells| == |s.cells| + |wires|
      && t.budget + Claimed(t.cells) == s.budget + Claimed(s.cells)
      && (row <= I32_MAX ==> |t.occupied| + Claimed(s.cells) + |s.cells| <= |s.occupied| + Claimed(t.cells) + |t.cells|)
    decreases |wires|
  {
    if wires != [] {
      PlaceCellSpends(s, row, wires[0], headerRow);
      PlaceRowSpends(PlaceCell(s, row, wires[0], headerRow), row, wires[1..], headerRow);
    }
  }

  /** What a row claims beyond one slot per cell is what the budget loses. */
  lemma LayRowSpends(lay: Layout, wires: seq<WireCell>, headerRow: bool, budget: nat)
    ensures var (next, left) := LayRow(lay, wires, headerRow, budget);
      && left + Claimed(next.cells) == budget + Claimed(lay.cells)
      && |next.cells| == |lay.cells| + |wires|
  {
    var row := Sat(|lay.grid|);
    var s := RowState(Prune(lay.occupied, row), 0, [], budget, lay.numCols);
    PlaceRowSpends(s, row, wires, headerRow);
    ClaimedConcat(lay.cells, PlaceRow(s, row, wires, headerRow).cells);
  }

  lemma {:induction false} RowSlots(row: nat, column: nat, endCol: nat)
    requires column <= endCol
    ensures |Rect(row, row + 1, column, endCol)| == endCol - column
    decreases endCol - column
  {
    if column < endCol {
      RowSlots(row, column, endCol - 1);
      assert Rect(row, row + 1, column, endCol) == Rect(row, row + 1, column, endCol - 1) + {(row, endCol - 1)};
    } else {
      assert Rect(row, row + 1, column, endCol) == {};
    }
  }

  lemma RectLastRow(row: nat, endRow: nat, column: nat, endCol: nat)
    requires row < endRow && column <= endCol
    ensures |Rect(row, endRow, column, endCol)| == |Rect(row, endRow - 1, column, endCol)| + (endCol - column)
  {
    var a, b := Rect(row, endRow - 1, column, endCol), Rect(endRow - 1, endRow, column, endCol);
    RowSlots(endRow - 1, column, endCol);
    assert Rect(row, endRow, column, endCol) == a + b;
    assert a !! b;
  }

  lemma {:induction false} RectSlots(row: nat, endRow: nat, column: nat, endCol: nat)
    requires row <= endRow && column <= endCol
    ensures |Rect(row, endRow, column, endCol)| == (endRow - row) * (endCol - column)
    decreases endRow - row
  {
    if row < endRow {
      RectSlots(row, endRow - 1, column, endCol);
      RectLastRow(row, endRow, column, endCol);
      OneMore(endRow - 1 - row, endCol - column);
    } else {
      assert Rect(row, endRow, column, endCol) == {};
    }
  }

  lemma OneMore(n: nat, k: nat)
    ensures (n + 1) * k == n * k + k
  {
  }

  lemma RectWithin(row: nat, rowSpan: nat, column: nat, colSpan: nat)
    requires row <= I32_MAX && column <= I32_MAX
    ensures |Rect(row, Sat(row + rowSpan), column, Sat(column + colSpan))| <= colSpan * rowSpan
  {
    var h, w := Sat(row + rowSpan) - row, Sat(column + colSpan) - column;
    RectSlots(row, row + h, column, column + w);
    Product(h, rowSpan, w);
    Product(w, colSpan, rowSpan);
    assert h * w <= rowSpan * w && w * rowSpan <= colSpan * rowSpan;
  }

  lemma {:induction false} RememberedSlots(lay: Layout, rows: seq<(seq<WireCell>, bool)>, budget: nat)
    requires |lay.occupied| <= |lay.cells| + Claimed(lay.cells)
    ensures var (t, left) := LayRowsRemembering(lay, rows, budget);
      |t.occupied| <= |t.cells| + Claimed(t.cells) && left + Claimed(t.cells) == budget + Claimed(lay.cells)
    decreases |rows|
  {
    if rows != [] {
      var row := Sat(|lay.grid|);
      var s := RowState(lay.occupied, 0, [], budget, lay.numCols);
      PlaceRowSpends(s, row, rows[0].0, rows[0].1);
      var (next, left) := LayRowRemembering(lay, rows[0].0, rows[0].1, budget);
      ClaimedConcat(lay.cells, PlaceRow(s, row, rows[0].0, rows[0].1).cells);
      RememberedSlots(next, rows[1..], left);
    }
  }

  /** The work is linear in the input: with a budget of spanned slots, all slots a
      table ever takes number at most its cells plus the budget, whatever spans
      the source claims; so no column is ever reached past that many either. */
  lemma SlotsAreBounded(rows: seq<(seq<WireCell>, bool)>, budget: nat)
    ensures var (t, left) := LayRowsRemembering(NO_ROWS, rows, budget);
      |t.occupied| <= |t.cells| + budget && left + Claimed(t.cells) == budget
    ensures var (t, left) := LayRowsRemembering(NO_ROWS, rows, budget);
      forall i, j :: 0 <= i < |t.grid| && i < I32_MAX && 0 <= j < |t.grid[i]| ==>
        t.grid[i][j].endCol <= |t.cells| + budget
  {
    RememberedSlots(NO_ROWS, rows, budget);
    assert Exact({}, []) && Concat([]) == [];
    var (t, left) := LayRowsRemembering(NO_ROWS, rows, budget);
    RememberedExact(NO_ROWS, rows, budget);
    forall i, j | 0 <= i < |t.grid| && i < I32_MAX && 0 <= j < |t.grid[i]|
      ensures t.grid[i][j].endCol <= |t.cells| + budget
    {
      EndWithinSlots(t, i, j);
    }
  }

  lemma {:induction false} RememberedExact(lay: Layout, rows: seq<(seq<WireCell>, bool)>, budget: nat)
    requires WellLaid(lay) && Exact(lay.occupied, lay.cells) && Bounded(lay.occupied)
    ensures var (t, _) := LayRowsRemembering(lay, rows, budget);
      WellLaid(t) && Exact(t.occupied, t.cells) && Bounded(t.occupied)
    decreases |rows|
  {
    if rows != [] {
      LayRowRememberingInv(lay, rows[0].0, rows[0].1, budget);
      var (next, left) := LayRowRemembering(lay, rows[0].0, rows[0].1, budget);
      RememberedExact(next, rows[1..], left);
    }
  }

  lemma {:induction false} ConcatPrefix(grid: seq<seq<Cell>>, i: nat)
    requires i <= |grid|
    ensures Concat(grid[..i]) <= Concat(grid)
    decreases |grid|
  {
    if i == |grid| {
      assert grid[..i] == grid;
    } else {
      ConcatPrefix(grid[..|grid| - 1], i);
      assert grid[..|grid| - 1][..i] == grid[..i];
    }
  }

  lemma CoveredByMore(a: seq<Cell>, b: seq<Cell>, row: nat, column: nat)
    requires a <= b && Covered(a, row, column)
    ensures Covered(b, row, column)
  {
    var i :| 0 <= i < |a| && Covers(a[i], row, column);
    assert b[i] == a[i];
  }

  lemma EndWithinSlots(t: Layout, i: nat, j: nat)
    requires WellLaid(t) && Exact(t.occupied, t.cells)
    requires i < |t.grid| && i < I32_MAX && j < |t.grid[i]|
    ensures t.grid[i][j].endCol <= |t.occupied|
  {
    var row, end := t.grid[i][..j + 1], t.grid[i][j].endCol;
    var before := Concat(t.grid[..i]);
    RowPlacedPrefix(t.grid[i], before, Sat(i), j + 1);
    ConcatPrefix(t.grid, i + 1);
    assert t.grid[..i + 1][..i] == t.grid[..i];
    assert before + row <= t.cells;
    forall s | s in Rect(i, i + 1, 0, end) ensures s in t.occupied {
      NoGaps(row, before, i, s.1);
      CoveredByMore(before + row, t.cells, i, s.1);
    }
    RowSlots(i, 0, end);
    Subset(Rect(i, i + 1, 0, end), t.occupied);
  }

  lemma Subset(a: set<Slot>, b: set<Slot>)
    requires a <= b
    ensures |a| <= |b|
  {
    assert b == a + (b - a);
  }

  lemma {:induction false} RowPlacedPrefix(cells: seq<Cell>, before: seq<Cell>, row: nat, n: nat)
    requires n <= |cells| && RowPlaced(cells, before, row)
    ensures RowPlaced(cells[..n], before, row)
    decreases |cells|
  {
    if n == |cells| {
      assert cells[..n] == cells;
    } else {
      var m := |cells| - 1;
      assert cells == cells[..m] + [cells[m]];
      RowPlacedSnoc(cells[..m], cells[m], before, row);
      RowPlacedPrefix(cells[..m], before, row, n);
      assert cells[..m][..n] == cells[..n];
    }
  }
}
