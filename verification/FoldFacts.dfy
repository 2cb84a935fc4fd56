/** The facts of a stream in the document: one row each, whose context cell points at the
    key-value item that holds that fact's own dimensions. */
module FoldFacts {
  import opened Basics
  import opened Wrappers
  import opened Document
  import opened Grid
  import opened Fold
  import FoldSays
  import FoldTables

  type Dimensions = seq<(string, string)>

  datatype FactSent = FactSent(columns: FactColumns, dimensions: Dimensions)

  /** The facts of a stream, in order. */
  function FactsOf(events: seq<Event>): seq<FactSent>
    decreases |events|
  {
    if events == [] then [] else FactsOf(events[..|events| - 1]) + FactIn(events[|events| - 1])
  }

  function FactIn(e: Event): seq<FactSent> {
    if e.Fact? then [FactSent(e.columns, e.dimensions)] else []
  }

  /** The dimensions of the facts that have any, in order. */
  function Dimensioned(facts: seq<FactSent>): seq<Dimensions> {
    if facts == [] then []
    else
      var last := facts[|facts| - 1];
      Dimensioned(facts[..|facts| - 1]) + if last.dimensions == [] then [] else [last.dimensions]
  }

  /** The key-value item of a fact: as many come before it as facts with dimensions do. */
  function ItemOf(facts: seq<FactSent>, i: nat): Option<Ref>
    requires i < |facts|
  {
    if facts[i].dimensions == [] then None else Some(KeyValues(|Dimensioned(facts[..i])|))
  }

  /** A row shows a fact: its values, and its context cell alone points anywhere. */
  predicate RowStates(cells: seq<Cell>, columns: FactColumns, item: Option<Ref>) {
    && |cells| == 11
    && (forall j :: 0 <= j < 11 ==>
          && cells[j].text == columns[j] && !cells[j].header
          && cells[j].ref == if j == CONTEXT_COLUMN then item else None)
  }

  /** A row of headings. */
  predicate Heads(cells: seq<Cell>) {
    |cells| == 11 && forall j :: 0 <= j < 11 ==> cells[j].text == FACT_HEADINGS[j] && cells[j].header
  }

  /** The rows below the headings state the facts, in order. */
  predicate RowsState(grid: seq<seq<Cell>>, facts: seq<FactSent>) {
    && |grid| == 1 + |facts| && Heads(grid[0])
    && (forall i :: 0 <= i < |facts| ==> RowStates(grid[i + 1], facts[i].columns, ItemOf(facts, i)))
  }

  /** The key-value items hold the dimensions, in order. */
  predicate ItemsHold(items: seq<KeyValueItem>, facts: seq<FactSent>) {
    && |items| == |Dimensioned(facts)|
    && (forall k :: 0 <= k < |items| ==> items[k].pairs == Dimensioned(facts)[k])
  }

  /** Which table holds the facts, once there are any. */
  predicate Stated(tables: seq<TableItem>, at: Option<nat>, facts: seq<FactSent>) {
    && (at.None? <==> facts == [])
    && (at.Some? ==> at.value < |tables| && RowsState(tables[at.value].grid, facts))
  }

  predicate FactsIn(f: State, facts: seq<FactSent>) {
    ItemsHold(f.doc.keyValues, facts) && Stated(f.doc.tables, f.factsTable, facts)
  }

  // ------------------------------------------------------------------- one more fact

  lemma DimensionedSnoc(facts: seq<FactSent>, fact: FactSent)
    ensures Dimensioned(facts + [fact]) ==
      Dimensioned(facts) + if fact.dimensions == [] then [] else [fact.dimensions]
  {
    assert (facts + [fact])[..|facts|] == facts;
  }

  lemma ItemOfSnoc(facts: seq<FactSent>, fact: FactSent, i: nat)
    requires i < |facts|
    ensures ItemOf(facts + [fact], i) == ItemOf(facts, i)
  {
    assert (facts + [fact])[..i] == facts[..i];
  }

  lemma LastItem(facts: seq<FactSent>, fact: FactSent)
    ensures ItemOf(facts + [fact], |facts|) ==
      if fact.dimensions == [] then None else Some(KeyValues(|Dimensioned(facts)|))
  {
    assert (facts + [fact])[..|facts|] == facts;
  }

  lemma RowsStateSnoc(grid: seq<seq<Cell>>, facts: seq<FactSent>, row: seq<Cell>, fact: FactSent)
    requires RowsState(grid, facts) && RowStates(row, fact.columns, ItemOf(facts + [fact], |facts|))
    ensures RowsState(grid + [row], facts + [fact])
  {
    var all := facts + [fact];
    forall i | 0 <= i < |all| ensures RowStates((grid + [row])[i + 1], all[i].columns, ItemOf(all, i)) {
      if i < |facts| {
        ItemOfSnoc(facts, fact, i);
      }
    }
  }

  lemma ItemsHoldSnoc(items: seq<KeyValueItem>, facts: seq<FactSent>, item: KeyValueItem, fact: FactSent)
    requires ItemsHold(items, facts)
    ensures fact.dimensions == [] ==> ItemsHold(items, facts + [fact])
    ensures fact.dimensions != [] && item.pairs == fact.dimensions ==> ItemsHold(items + [item], facts + [fact])
  {
    DimensionedSnoc(facts, fact);
    assert Dimensioned(facts) + [] == Dimensioned(facts);
  }

  /** The fact table is there, with a row for each fact so far. */
  lemma TableIsThere(f: State, facts: seq<FactSent>)
    requires FactsIn(f, facts)
    ensures var g := EnsureFactsTable(f);
      && g.factsTable.value < |g.doc.tables| && RowsState(g.doc.tables[g.factsTable.value].grid, facts)
      && g.doc.keyValues == f.doc.keyValues
  {
    if f.factsTable.None? {
      var parent, n := CurrentParent(f.headings), |f.doc.tables|;
      var header := FactRow(0, FACT_HEADINGS, true, None);
      var table := TableItem(Tables(n), parent, [], None, [header], header, 1, 11, []);
      FoldTables.LinkKeepsTables(f.doc.(tables := f.doc.tables + [table]), parent, Tables(n));
    }
  }

  lemma DimensionsPushed(g: State, fact: FactSent, facts: seq<FactSent>)
    requires ItemsHold(g.doc.keyValues, facts)
    ensures var h := PushDimensions(g, fact.dimensions);
      h.doc.tables == g.doc.tables && ItemsHold(h.doc.keyValues, facts + [fact])
  {
    var parent, self := CurrentParent(g.headings), KeyValues(|g.doc.keyValues|);
    var item := KeyValueItem(self, parent, fact.dimensions, []);
    ItemsHoldSnoc(g.doc.keyValues, facts, item, fact);
    FoldTables.PushDimensionsTables(g, fact.dimensions);
  }

  lemma FactLands(f: State, facts: seq<FactSent>, fact: FactSent)
    requires FactsIn(f, facts)
    ensures FactsIn(OnFact(f, fact.columns, fact.dimensions), facts + [fact])
  {
    var g := EnsureFactsTable(f);
    TableIsThere(f, facts);
    DimensionsPushed(g, fact, facts);
    LastItem(facts, fact);
    var ref := if fact.dimensions == [] then None else Some(KeyValues(|g.doc.keyValues|));
    RowAdded(PushDimensions(g, fact.dimensions), g.factsTable.value, facts, fact, ref);
  }

  lemma RowAdded(h: State, at: nat, facts: seq<FactSent>, fact: FactSent, ref: Option<Ref>)
    requires at < |h.doc.tables| && RowsState(h.doc.tables[at].grid, facts)
    requires ref == ItemOf(facts + [fact], |facts|) && h.factsTable == Some(at)
    requires ItemsHold(h.doc.keyValues, facts + [fact])
    ensures FactsIn(AddFactRow(h, at, fact.columns, ref), facts + [fact])
  {
    var t := h.doc.tables[at];
    var row := FactRow(Sat(|t.grid|), fact.columns, false, ref);
    assert RowStates(row, fact.columns, ref);
    RowsStateSnoc(t.grid, facts, row, fact);
  }

  // ----------------------------------------------------------------- everything else

  /** Earlier tables and all key-value items stay as they are. */
  predicate Apart(f: State, g: State) {
    && g.doc.keyValues == f.doc.keyValues && g.factsTable == f.factsTable
    && |f.doc.tables| <= |g.doc.tables| && g.doc.tables[..|f.doc.tables|] == f.doc.tables
  }

  lemma ApartKeeps(f: State, g: State, facts: seq<FactSent>)
    requires FactsIn(f, facts) && Apart(f, g)
    ensures FactsIn(g, facts)
  {
    if f.factsTable.Some? {
      assert g.doc.tables[f.factsTable.value] == g.doc.tables[..|f.doc.tables|][f.factsTable.value];
    }
  }

  lemma OpenedKeepsItems(f: State, item: TextEvent)
    ensures Opened(f, item).doc.keyValues == f.doc.keyValues
  {
  }

  lemma PlacedKeepsItems(g: State, item: TextEvent)
    requires item.kind.ListItem? ==> g.lists != []
    ensures PlaceText(g, item).doc.keyValues == g.doc.keyValues
  {
  }

  lemma SameApart(f: State, g: State)
    requires FoldTables.SameTables(f, g) && g.doc.keyValues == f.doc.keyValues
    ensures Apart(f, g)
  {
    assert g.doc.tables[..|f.doc.tables|] == f.doc.tables;
  }

  lemma PushTextApart(f: State, item: TextEvent)
    ensures Apart(f, PushText(f, item))
  {
    FoldTables.PushTextTables(f, item);
    OpenedKeepsItems(f, item);
    PlacedKeepsItems(Opened(f, item), item);
    SameApart(f, PushText(f, item));
  }

  lemma FinishTableApart(f: State)
    ensures Apart(f, FinishTable(f))
  {
    if f.table.Some? {
      var p, self := f.table.value, Tables(|f.doc.tables|);
      FoldTables.LinkKeepsTables(f.doc.(tables := f.doc.tables + [NewTable(self, p)]), p.parent, self);
    }
  }

  lemma TableStartApart(f: State, e: Event)
    requires e.TableStart?
    ensures Apart(f, Consume(f, e))
  {
    var g := FinishTable(f.(lists := []));
    FinishTableApart(f.(lists := []));
    if e.caption.Some? && e.caption.value != "" {
      PushTextApart(g, CaptionText(e.caption.value));
    }
  }

  lemma OtherApart(f: State, e: Event)
    requires !e.Fact?
    ensures Apart(f, Consume(f, e))
  {
    if e.Text? && !e.item.kind.Picture? {
      PushTextApart(f, e.item);
    } else if e.Citation? {
      PushTextApart(f, CitationText(e.text, e.ordinal, e.elementId));
    } else if e.Footnote? {
      PushTextApart(f, FootnoteText(e.text, e.name));
    } else if e.TableStart? {
      TableStartApart(f, e);
    } else if e.TableEnd? {
      FinishTableApart(f);
    } else if e.HtmlIsland? {
      FoldTables.IslandTables(f, e.text);
    }
  }

  lemma OtherFacts(f: State, e: Event, facts: seq<FactSent>, g: State)
    requires FactsIn(f, facts) && !e.Fact? && g == Consume(f, e)
    ensures FactsIn(g, facts)
  {
    OtherApart(f, e);
    ApartKeeps(f, g, facts);
  }

  lemma ConsumeFacts(f: State, e: Event, facts: seq<FactSent>, g: State)
    requires FactsIn(f, facts) && g == Consume(f, e)
    ensures FactsIn(g, facts + FactIn(e))
  {
    if e.Fact? {
      FactLands(f, facts, FactSent(e.columns, e.dimensions));
    } else {
      OtherFacts(f, e, facts, g);
      assert facts + [] == facts;
    }
  }

  lemma {:induction false} FoldAllFacts(events: seq<Event>)
    ensures FactsIn(FoldAll(events), FactsOf(events))
    decreases |events|
  {
    if events != [] {
      var front := events[..|events| - 1];
      FoldAllFacts(front);
      ConsumeFacts(FoldAll(front), events[|events| - 1], FactsOf(front), FoldAll(events));
    }
  }

  // -------------------------------------------------------------- the finished document

  /** Resolving references changes neither the texts nor the targets of cells. */
  lemma ResolvedStates(anchors: map<string, Ref>, cells: seq<Cell>, columns: FactColumns, item: Option<Ref>)
    requires RowStates(cells, columns, item)
    ensures RowStates(ResolveCells(anchors, cells), columns, item)
  {
  }

  lemma PublishedStates(g: State, facts: seq<FactSent>)
    requires FactsIn(g, facts)
    ensures var d := Publish(g.doc, g.anchors);
      ItemsHold(d.keyValues, facts) && Stated(d.tables, g.factsTable, facts)
  {
    var d := Publish(g.doc, g.anchors);
    if g.factsTable.Some? {
      var t := g.doc.tables[g.factsTable.value];
      var grid := ResolveTable(g.anchors, t).grid;
      assert d.tables[g.factsTable.value] == ResolveTable(g.anchors, t);
      assert Heads(grid[0]) by {
        assert Heads(t.grid[0]);
      }
      forall i | 0 <= i < |facts| ensures RowStates(grid[i + 1], facts[i].columns, ItemOf(facts, i)) {
        ResolvedStates(g.anchors, t.grid[i + 1], facts[i].columns, ItemOf(facts, i));
      }
    }
  }

  /** The i-th fact's own row and, if it has dimensions, its own key-value item. */
  predicate FactStated(d: Document, at: nat, facts: seq<FactSent>, i: nat)
    requires i < |facts|
  {
    && at < |d.tables| && i + 1 < |d.tables[at].grid|
    && RowStates(d.tables[at].grid[i + 1], facts[i].columns, ItemOf(facts, i))
    && (facts[i].dimensions != [] ==>
          var k := |Dimensioned(facts[..i])|;
          && ItemOf(facts, i) == Some(KeyValues(k))
          && k < |d.keyValues| && d.keyValues[k].pairs == facts[i].dimensions)
  }

  lemma {:induction false} DimensionedAt(facts: seq<FactSent>, i: nat)
    requires i < |facts| && facts[i].dimensions != []
    ensures var k := |Dimensioned(facts[..i])|;
      k < |Dimensioned(facts)| && Dimensioned(facts)[k] == facts[i].dimensions
    decreases |facts|
  {
    var front := facts[..|facts| - 1];
    if i < |front| {
      DimensionedAt(front, i);
      assert front[..i] == facts[..i];
    } else {
      assert facts[..i] == front;
    }
  }

  /** In the finished document of any stream every fact has one row, in order below the
      headings of the one fact table, showing its values; its context cell points at the
      key-value item that holds exactly its own dimensions, or nowhere if it has none;
      and no other key-value item exists. */
  lemma FactsAreStated(events: seq<Event>) returns (at: nat)
    ensures var d, facts := Taken(FoldAll(events)), FactsOf(events);
      && |d.keyValues| == |Dimensioned(facts)|
      && (facts != [] ==> at < |d.tables| && |d.tables[at].grid| == 1 + |facts| && Heads(d.tables[at].grid[0]))
      && (forall i :: 0 <= i < |facts| ==> FactStated(d, at, facts, i))
  {
    var f, facts := FoldAll(events), FactsOf(events);
    var g := FinishTable(f);
    FoldAllFacts(events);
    FinishTableApart(f);
    ApartKeeps(f, g, facts);
    PublishedStates(g, facts);
    at := if g.factsTable.Some? then g.factsTable.value else 0;
    var d := Publish(g.doc, g.anchors);
    forall i | 0 <= i < |facts| ensures FactStated(d, at, facts, i) {
      if facts[i].dimensions != [] {
        DimensionedAt(facts, i);
      }
    }
  }
}
