/** What a table sends is what its elements state: each cell's spans and column, which
    rows are headers, how wide the table is, and the columns declared for it. */
module TableSpans {
  import opened Basics
  import opened Wrappers
  import opened Xml
  import opened Flatten
  import opened Stream
  import opened StreamBalance
  import opened StreamFaults
  import opened TreeReading
  import opened Attributes
  import opened CellSpans

  // ------------------------------------------------------------------------- one row

  /** The cells that content holds, in order; markup in a cell is the cell's. */
  function CellsIn(nodes: seq<Node>): seq<Element>
    decreases nodes
  {
    if nodes == [] then [] else CellsInNode(nodes[0]) + CellsIn(nodes[1..])
  }

  function CellsInNode(node: Node): seq<Element>
    decreases node
  {
    match node
    case Elem(e, kids) => if IsCell(e) then [e] else CellsIn(kids)
    case _ => []
  }

  /** No row and no header section starts in this content, cells aside. */
  predicate OneRow(nodes: seq<Node>)
    decreases nodes
  {
    nodes == [] || (OneRowNode(nodes[0]) && OneRow(nodes[1..]))
  }

  predicate OneRowNode(node: Node)
    decreases node
  {
    match node
    case Elem(e, kids) => IsCell(e) || (e.local !in {"tr", "row", "thead"} && OneRow(kids))
    case _ => true
  }

  /** These cells are what these elements state, side by side from that column on. */
  ghost predicate CellsState(cells: seq<TableCell>, elements: seq<Element>, from: nat, inHeader: bool) {
    && |cells| == |elements|
    && (forall i :: 0 <= i < |cells| ==> CellStates(cells, elements, i, from, inHeader))
  }

  ghost predicate CellStates(cells: seq<TableCell>, elements: seq<Element>, i: nat, from: nat, inHeader: bool)
    requires i < |cells| == |elements|
  {
    && StatesSpans(cells[i], elements[i])
    && cells[i].isHeader == (elements[i].local == "th" || inHeader)
    && cells[i].columnIndex == if i == 0 then from else EndOf(cells[i - 1])
  }

  /** The column after the last cell. */
  function After(cells: seq<TableCell>, from: nat): nat {
    if cells == [] then from else EndOf(cells[|cells| - 1])
  }

  lemma CellsStateConcat(
    a: seq<TableCell>, ae: seq<Element>, b: seq<TableCell>, be: seq<Element>, from: nat, inHeader: bool)
    requires CellsState(a, ae, from, inHeader) && CellsState(b, be, After(a, from), inHeader)
    ensures CellsState(a + b, ae + be, from, inHeader) && After(a + b, from) == After(b, After(a, from))
  {
    forall i | 0 <= i < |a + b| ensures CellStates(a + b, ae + be, i, from, inHeader) {
      if i < |a| {
        assert CellStates(a, ae, i, from, inHeader);
      } else {
        assert CellStates(b, be, i - |a|, After(a, from), inHeader);
      }
    }
  }

  /** A table with these cells added to its open row. */
  predicate RowGrown(t: TableBuild, u: TableBuild, cells: seq<TableCell>) {
    && t.row.Some? && u.rowIndex == t.rowIndex && u.reference == t.reference && u.headerSections == t.headerSections
    && u.row == Some(t.row.value.(cells := t.row.value.cells + cells,
                                  nextColumn := After(cells, t.row.value.nextColumn)))
  }

  lemma RowGrownTwice(t: TableBuild, u: TableBuild, v: TableBuild, a: seq<TableCell>, b: seq<TableCell>)
    requires RowGrown(t, u, a) && RowGrown(u, v, b)
    ensures RowGrown(t, v, a + b)
  {
    Assoc(t.row.value.cells, a, b);
  }

  lemma {:induction false} RowContent(rules: Rules, t: TableBuild, open: seq<string>, nodes: seq<Node>)
    returns (cells: seq<TableCell>)
    requires t.row.Some? && OneRow(nodes)
    ensures var (u, rows) := ReadRows(rules, t, open, nodes); RowGrown(t, u, cells) && rows == []
    ensures CellsState(cells, CellsIn(nodes), t.row.value.nextColumn, t.headerSections > 0)
    decreases nodes, 0
  {
    if nodes == [] {
      cells := [];
      assert t.row.value.cells + [] == t.row.value.cells;
    } else {
      var u := ReadRowsIn(rules, t, open, nodes[0]).0;
      var a := RowNode(rules, t, open, nodes[0]);
      var b := RowContent(rules, u, open, nodes[1..]);
      cells := a + b;
      RowGrownTwice(t, u, ReadRows(rules, u, open, nodes[1..]).0, a, b);
      CellsStateConcat(a, CellsInNode(nodes[0]), b, CellsIn(nodes[1..]), t.row.value.nextColumn, t.headerSections > 0);
    }
  }

  lemma {:induction false} RowNode(rules: Rules, t: TableBuild, open: seq<string>, node: Node)
    returns (cells: seq<TableCell>)
    requires t.row.Some? && OneRowNode(node)
    ensures var (u, rows) := ReadRowsIn(rules, t, open, node); RowGrown(t, u, cells) && rows == []
    ensures CellsState(cells, CellsInNode(node), t.row.value.nextColumn, t.headerSections > 0)
    decreases node, 0
  {
    cells := [];
    assert t.row.value.cells + [] == t.row.value.cells;
    if node.Elem? {
      if IsCell(node.element) {
        cells := OneCell(rules, t, open, node.element, node.kids);
      } else {
        var e := node.element;
        cells := RowContent(rules, Entered(t, e), open + [e.local], node.kids);
        assert Left(ReadRows(rules, Entered(t, e), open + [e.local], node.kids).0, e).0.row.Some?;
      }
    }
  }

  lemma OneCell(rules: Rules, t: TableBuild, open: seq<string>, e: Element, kids: seq<Node>)
    returns (cells: seq<TableCell>)
    requires t.row.Some? && IsCell(e)
    ensures var (u, rows) := ReadRowsIn(rules, t, open, Elem(e, kids)); RowGrown(t, u, cells) && rows == []
    ensures CellsState(cells, [e], t.row.value.nextColumn, t.headerSections > 0)
  {
    var cell := CellOf(rules, t, open, e, kids);
    cells := [cell];
    SpansAreStated(cell, e);
    assert CellStates(cells, [e], 0, t.row.value.nextColumn, t.headerSections > 0);
  }

  /** A row of a table, read where the table has no row open: exactly when it has a cell
      it is sent, under the next row number, with one cell for each cell element in it,
      side by side from column 0, each with the spans its element states. It is a header
      in a header section, and when all its cells are. */
  lemma RowIsSent(rules: Rules, s: State, t: TableBuild, e: Element, kids: seq<Node>)
    returns (cells: seq<TableCell>, isHeader: bool)
    requires InTable(s, t) && !TooDeep(s, 1 + Depth(kids)) && Clean(kids)
    requires e.local in {"tr", "row"} && OneRow(kids)
    ensures OnSteps(rules, s, StepsOfNode(Elem(e, kids))).out ==
      s.out + if cells == [] then [] else [TableRow(t.reference, t.rowIndex, isHeader, cells)]
    ensures CellsState(cells, CellsIn(kids), 0, t.headerSections > 0)
    ensures isHeader <==> t.headerSections > 0 || forall i :: 0 <= i < |cells| ==> cells[i].isHeader
  {
    hide OnStep, OnSteps, CellsState;
    var (u, rows) := ReadRowsIn(rules, t, s.Open(), Elem(e, kids));
    TableNode(rules, s, t, Elem(e, kids), u, rows);
    cells, isHeader := RowIsRead(rules, t, s.Open(), e, kids, rows);
  }

  lemma RowIsRead(rules: Rules, t: TableBuild, open: seq<string>, e: Element, kids: seq<Node>, rows: seq<Event>)
    returns (cells: seq<TableCell>, isHeader: bool)
    requires e.local in {"tr", "row"} && OneRow(kids) && rows == ReadRowsIn(rules, t, open, Elem(e, kids)).1
    ensures rows == if cells == [] then [] else [TableRow(t.reference, t.rowIndex, isHeader, cells)]
    ensures CellsState(cells, CellsIn(kids), 0, t.headerSections > 0)
    ensures isHeader <==> t.headerSections > 0 || forall i :: 0 <= i < |cells| ==> cells[i].isHeader
  {
    cells := RowContent(rules, Entered(t, e), open + [e.local], kids);
    isHeader := t.headerSections > 0 || AllHeaders(cells);
    assert [] + cells == cells;
  }

  // ----------------------------------------------------------------- the whole table

  /** No cell of these rows reaches past this column. */
  predicate AllWithin(rows: seq<Event>, width: nat) {
    forall i :: 0 <= i < |rows| && rows[i].TableRow? ==> CellsWithin(rows[i].cells, width)
  }

  predicate CellsWithin(cells: seq<TableCell>, width: nat) {
    forall j :: 0 <= j < |cells| ==> EndOf(cells[j]) <= width
  }

  /** Some cell of these rows reaches this column. */
  predicate Reached(rows: seq<Event>, width: nat) {
    exists i :: 0 <= i < |rows| && rows[i].TableRow? && CellsReach(rows[i].cells, width)
  }

  predicate CellsReach(cells: seq<TableCell>, width: nat) {
    exists j :: 0 <= j < |cells| && EndOf(cells[j]) == width
  }

  /** The width goes from one to the other over these rows. */
  predicate Widens(from: nat, to: nat, rows: seq<Event>) {
    from <= to && AllWithin(rows, to) && (to == from || Reached(rows, to))
  }

  lemma {:induction false} RowWidthIsReached(cells: seq<TableCell>)
    ensures CellsWithin(cells, RowWidth(cells)) && (cells == [] || CellsReach(cells, RowWidth(cells)))
    decreases |cells|
  {
    if cells != [] {
      var n := |cells| - 1;
      RowWidthIsReached(cells[..n]);
      assert EndOf(cells[n]) == SatU32(cells[n].columnIndex + cells[n].columnSpan);
      if n > 0 {
        var j :| 0 <= j < n && EndOf(cells[..n][j]) == RowWidth(cells[..n]);
        assert EndOf(cells[j]) == RowWidth(cells[..n]);
      }
      forall j | 0 <= j < |cells| ensures EndOf(cells[j]) <= RowWidth(cells) {
        assert j < n ==> EndOf(cells[..n][j]) <= RowWidth(cells[..n]);
      }
    }
  }

  lemma WidensTwice(from: nat, mid: nat, to: nat, a: seq<Event>, b: seq<Event>)
    requires Widens(from, mid, a) && Widens(mid, to, b)
    ensures Widens(from, to, a + b)
  {
    forall i | 0 <= i < |a + b| && (a + b)[i].TableRow? ensures CellsWithin((a + b)[i].cells, to) {
      if i < |a| {
        assert CellsWithin(a[i].cells, mid);
      } else {
        assert CellsWithin(b[i - |a|].cells, to);
      }
    }
    if to != mid {
      var i :| 0 <= i < |b| && b[i].TableRow? && CellsReach(b[i].cells, to);
      assert (a + b)[|a| + i] == b[i];
    } else if to != from {
      var i :| 0 <= i < |a| && a[i].TableRow? && CellsReach(a[i].cells, to);
      assert (a + b)[i] == a[i];
    }
  }

  lemma LeftWidens(v: TableBuild, e: Element)
    ensures Widens(v.columnCount, Left(v, e).0.columnCount, Left(v, e).1)
    ensures Left(v, e).0.columns == v.columns
  {
    if v.row.Some? {
      RowWidthIsReached(v.row.value.cells);
      var rows := Left(v, e).1;
      assert rows != [] && RowWidth(v.row.value.cells) > v.columnCount ==>
        CellsReach(rows[0].cells, Left(v, e).0.columnCount);
    }
  }

  /** The columns that content declares for its table, in order: those of each of its
      column elements, cells aside. */
  function Declared(nodes: seq<Node>): seq<ColumnSpec>
    decreases nodes
  {
    if nodes == [] then [] else DeclaredIn(nodes[0]) + Declared(nodes[1..])
  }

  function DeclaredIn(node: Node): seq<ColumnSpec>
    decreases node
  {
    match node
    case Elem(e, kids) =>
      if IsCell(e) then []
      else (if e.local in {"colspec", "col"} then ColumnsDeclared(e) else []) + Declared(kids)
    case _ => []
  }

  /** A column element declares as many columns as its span says, one by default and 4096
      at most, all under the name it states and with its colwidth, or else its width. */
  lemma ColumnsAreStated(e: Element, n: nat)
    ensures Numbers(e, "span", n, 0xFFFF_FFFF_FFFF_FFFF) ==> |ColumnsDeclared(e)| == Min(Max(n, 1), 4096)
    ensures Numberless(e, "span", 0xFFFF_FFFF_FFFF_FFFF) ==> |ColumnsDeclared(e)| == 1
    ensures forall c :: c in ColumnsDeclared(e) ==>
      && c.name == (if e.Get("colname") == None then "" else e.Get("colname").value)
      && c.width == (if e.Get("colwidth") != None then e.Get("colwidth").value
                     else if e.Get("width") != None then e.Get("width").value
                     else "")
  {
    NumberIs(e, "span", n, 0xFFFF_FFFF_FFFF_FFFF);
  }

  /** The first 4096 of the columns. */
  function Kept(columns: seq<ColumnSpec>): (r: seq<ColumnSpec>)
    ensures |r| <= 4096
  {
    if |columns| <= 4096 then columns else columns[..4096]
  }

  lemma KeptOnce(a: seq<ColumnSpec>, b: seq<ColumnSpec>)
    ensures Kept(Kept(a) + b) == Kept(a + b)
  {
  }

  lemma KeptParts(columns: seq<ColumnSpec>, a: seq<ColumnSpec>, b: seq<ColumnSpec>)
    ensures Kept(Kept(columns + a) + b) == Kept(columns + (a + b))
  {
    KeptOnce(columns + a, b);
    Assoc(columns, a, b);
  }

  lemma EnteredDeclares(t: TableBuild, e: Element)
    requires |t.columns| <= 4096 && !IsCell(e)
    ensures Entered(t, e).columns ==
      Kept(t.columns + if e.local in {"colspec", "col"} then ColumnsDeclared(e) else [])
    ensures Entered(t, e).columnCount == t.columnCount
  {
    assert t.columns + [] == t.columns;
  }

  /** Over content the width becomes what the rows reach, and the columns kept are those
      declared first. */
  lemma {:induction false} ContentWidens(rules: Rules, t: TableBuild, open: seq<string>, nodes: seq<Node>)
    requires |t.columns| <= 4096
    ensures var (u, rows) := ReadRows(rules, t, open, nodes);
      Widens(t.columnCount, u.columnCount, rows) && u.columns == Kept(t.columns + Declared(nodes))
    decreases nodes, 0
  {
    if nodes == [] {
      assert t.columns + [] == t.columns;
    } else {
      var (u, first) := ReadRowsIn(rules, t, open, nodes[0]);
      var (v, rest) := ReadRows(rules, u, open, nodes[1..]);
      NodeWidens(rules, t, open, nodes[0]);
      ContentWidens(rules, u, open, nodes[1..]);
      WidensTwice(t.columnCount, u.columnCount, v.columnCount, first, rest);
      KeptParts(t.columns, DeclaredIn(nodes[0]), Declared(nodes[1..]));
    }
  }

  lemma {:induction false} NodeWidens(rules: Rules, t: TableBuild, open: seq<string>, node: Node)
    requires |t.columns| <= 4096
    ensures var (u, rows) := ReadRowsIn(rules, t, open, node);
      Widens(t.columnCount, u.columnCount, rows) && u.columns == Kept(t.columns + DeclaredIn(node))
    decreases node, 0
  {
    assert t.columns + [] == t.columns;
    if node.Elem? && !IsCell(node.element) {
      var e := node.element;
      var (v, rows) := ReadRows(rules, Entered(t, e), open + [e.local], node.kids);
      EnteredDeclares(t, e);
      ContentWidens(rules, Entered(t, e), open + [e.local], node.kids);
      LeftWidens(v, e);
      WidensTwice(t.columnCount, v.columnCount, Left(v, e).0.columnCount, rows, Left(v, e).1);
      KeptParts(t.columns, if e.local in {"colspec", "col"} then ColumnsDeclared(e) else [], Declared(node.kids));
    }
  }

  /** A table sends its start, its rows and its end. The end states the column the widest
      row reaches, 0 without rows, and the first 4096 of the columns declared in it. */
  lemma TableEndStates(rules: Rules, s: State, e: Element, kids: seq<Node>)
    returns (start: Event, rows: seq<Event>, end: Event)
    ensures ReadTable(rules, s, e, kids).out == s.out + [start] + rows + [end]
    ensures start.TableStart? && start.table == s.counts.tables + 1 && start.element == e
    ensures rows == ReadRows(rules, EmptyTable(s), s.Open() + [e.local], kids).1
    ensures end.TableEnd? && end.table == start.table && AllWithin(rows, end.columnCount)
    ensures end.columnCount != 0 ==> Reached(rows, end.columnCount)
    ensures end.columns == Kept(Declared(kids))
  {
    var (t, sent) := ReadRows(rules, EmptyTable(s), s.Open() + [e.local], kids);
    ContentWidens(rules, EmptyTable(s), s.Open() + [e.local], kids);
    assert [] + Declared(kids) == Declared(kids);
    rows := sent;
    start := ReadTable(rules, s, e, kids).out[|s.out|];
    end := TableEnd(start.table, t.rowIndex, t.columnCount, t.columns);
  }
}
