/** One pass and a patch at the end resolve references as two passes would: the
    first item of the stream to carry an identifier answers for it, wherever in
    the stream the reference stands. */
module FoldAnchors {
  import opened Wrappers
  import opened Document
  import opened Grid
  import opened Fold

  /** The source identifier an item carries; only texts, pictures and tables do. */
  function IdAt(d: Document, r: Ref): Option<string> {
    match r
    case Texts(n) => if n < |d.texts| then d.texts[n].elementId else None
    case Pictures(n) => if n < |d.pictures| then d.pictures[n].elementId else None
    case Tables(n) => if n < |d.tables| then d.tables[n].elementId else None
    case _ => None
  }

  predicate Carries(d: Document, r: Ref, name: string) {
    name != "" && IdAt(d, r) == Some(name)
  }

  ghost predicate Uncarried(d: Document, name: string) {
    forall r: Ref :: !Carries(d, r, name)
  }

  ghost predicate SameIds(d: Document, d': Document) {
    forall r: Ref :: IdAt(d', r) == IdAt(d, r)
  }

  /** g is f with at most one more item that carries an identifier, which claims it. */
  ghost predicate Claims(f: State, g: State, c: Ref, id: Option<string>) {
    && g.anchors == ClaimAnchor(f.anchors, id, c)
    && IdAt(f.doc, c) == None && IdAt(g.doc, c) == id
    && (forall r: Ref :: r != c ==> IdAt(g.doc, r) == IdAt(f.doc, r))
  }

  /** Names that answer are names some item carries, and the answer carries it. */
  ghost predicate Answering(f: State) {
    && (forall k :: k in f.anchors ==> Carries(f.doc, f.anchors[k], k))
    && (forall r: Ref, k: string :: Carries(f.doc, r, k) ==> k in f.anchors)
  }

  lemma ClaimsKeep(f: State, g: State, c: Ref, id: Option<string>)
    requires Answering(f) && Claims(f, g, c, id)
    ensures Answering(g)
    ensures forall k :: k in f.anchors ==> k in g.anchors && g.anchors[k] == f.anchors[k]
  {
    forall r: Ref, k: string | Carries(g.doc, r, k) ensures k in g.anchors {
      if r != c {
        assert Carries(f.doc, r, k);
      }
    }
    forall k | k in g.anchors ensures Carries(g.doc, g.anchors[k], k) {
      if k in f.anchors {
        assert Carries(f.doc, f.anchors[k], k);
      }
    }
  }

  // ------------------------------------------------------- what each event claims

  lemma LinkIds(d: Document, p: Ref, c: Ref)
    ensures SameIds(d, d.LinkChild(p, c))
  {
  }

  lemma OpenListGroupIds(f: State, depth: nat, ordered: bool)
    ensures SameIds(f.doc, OpenListGroup(f, depth, ordered).doc)
    ensures OpenListGroup(f, depth, ordered).anchors == f.anchors
  {
    var parent := if f.lists == [] then CurrentParent(f.headings) else f.lists[|f.lists| - 1].ref;
    var self := Groups(|f.doc.groups|);
    LinkIds(f.doc.(groups := f.doc.groups + [GroupItem(self, parent, ListGroup(ordered), [])]), parent, self);
  }

  lemma OpenedIds(f: State, item: TextEvent)
    ensures SameIds(f.doc, Opened(f, item).doc) && Opened(f, item).anchors == f.anchors
  {
    if item.kind.ListItem? {
      OpenListGroupIds(f.(lists := CloseLists(f.lists, item.Depth(), item.Ordered())), item.Depth(), item.Ordered());
    }
  }

  lemma PlaceTextClaims(g: State, item: TextEvent)
    requires item.kind.ListItem? ==> g.lists != []
    ensures Claims(g, PlaceText(g, item), Texts(|g.doc.texts|), item.elementId)
  {
    var parent, self := ParentFor(g, item), Texts(|g.doc.texts|);
    var m := g.doc.(texts := g.doc.texts + [NewText(item, self, parent)]);
    LinkIds(m, parent, self);
    assert IdAt(m, self) == item.elementId;
    assert forall r: Ref :: r != self ==> IdAt(m, r) == IdAt(g.doc, r);
  }

  lemma PushTextClaims(f: State, item: TextEvent) returns (c: Ref)
    ensures Claims(f, PushText(f, item), c, item.elementId)
  {
    OpenedIds(f, item);
    var g := Opened(f, item);
    PlaceTextClaims(g, item);
    c := Texts(|g.doc.texts|);
  }

  lemma PushPictureClaims(f: State, item: TextEvent)
    ensures Claims(f, PushPicture(f, item), Pictures(|f.doc.pictures|), item.elementId)
  {
    var parent, self := CurrentParent(f.headings), Pictures(|f.doc.pictures|);
    LinkIds(f.doc.(pictures := f.doc.pictures + [PictureItem(self, parent, [], item.elementId, [])]), parent, self);
  }

  /** A table claims its identifier when it is appended, not when it opens. */
  lemma FinishTableClaims(f: State)
    ensures Claims(f, FinishTable(f), Tables(|f.doc.tables|), if f.table.Some? then f.table.value.elementId else None)
  {
    if f.table.Some? {
      var p, self := f.table.value, Tables(|f.doc.tables|);
      LinkIds(f.doc.(tables := f.doc.tables + [NewTable(self, p)]), p.parent, self);
    }
  }

  lemma OnTableStartClaims(f: State, tableRef: string, caption: Option<string>, elementId: Option<string>)
    ensures Claims(f, OnTableStart(f, tableRef, caption, elementId), Tables(|f.doc.tables|),
                   if f.table.Some? then f.table.value.elementId else None)
  {
    var g := FinishTable(f.(lists := []));
    FinishTableClaims(f.(lists := []));
    if caption.Some? && caption.value != "" {
      var c := PushTextClaims(g, CaptionText(caption.value));
    }
  }

  lemma EnsureFactsTableIds(f: State)
    ensures SameIds(f.doc, EnsureFactsTable(f).doc) && EnsureFactsTable(f).anchors == f.anchors
  {
    if f.factsTable.None? {
      var header := FactRow(0, FACT_HEADINGS, true, None);
      var parent, self := CurrentParent(f.headings), Tables(|f.doc.tables|);
      AddTableIds(f.doc, TableItem(self, parent, [], None, [header], header, 1, 11, []), parent, self);
    }
  }

  lemma AddTableIds(d: Document, t: TableItem, p: Ref, c: Ref)
    requires t.elementId == None
    ensures SameIds(d, d.(tables := d.tables + [t]).LinkChild(p, c))
  {
    LinkIds(d.(tables := d.tables + [t]), p, c);
  }

  lemma PushDimensionsIds(f: State, dimensions: seq<(string, string)>)
    ensures SameIds(f.doc, PushDimensions(f, dimensions).doc) && PushDimensions(f, dimensions).anchors == f.anchors
  {
    var parent, self := CurrentParent(f.headings), KeyValues(|f.doc.keyValues|);
    LinkIds(f.doc.(keyValues := f.doc.keyValues + [KeyValueItem(self, parent, dimensions, [])]), parent, self);
  }

  lemma AddFactRowIds(f: State, index: nat, columns: FactColumns, dimensions: Option<Ref>)
    ensures SameIds(f.doc, AddFactRow(f, index, columns, dimensions).doc)
    ensures AddFactRow(f, index, columns, dimensions).anchors == f.anchors
  {
  }

  lemma OnFactIds(f: State, columns: FactColumns, dimensions: seq<(string, string)>)
    ensures SameIds(f.doc, OnFact(f, columns, dimensions).doc) && OnFact(f, columns, dimensions).anchors == f.anchors
  {
    EnsureFactsTableIds(f);
    var g := EnsureFactsTable(f);
    PushDimensionsIds(g, dimensions);
    AddFactRowIds(PushDimensions(g, dimensions), g.factsTable.value, columns,
                  if dimensions == [] then None else Some(KeyValues(|g.doc.keyValues|)));
  }

  lemma OnHtmlIslandIds(f: State, text: string)
    ensures SameIds(f.doc, OnHtmlIsland(f, text).doc) && OnHtmlIsland(f, text).anchors == f.anchors
  {
    var self, g := Groups(|f.doc.groups|), OpenIsland(f);
    OpenIslandIds(f);
    var t := TextItem(Texts(|g.doc.texts|), self, BodyLayer, Paragraph, 0, false, text, None, [], []);
    LinkIds(g.doc.(texts := g.doc.texts + [t]), self, t.selfRef);
  }

  lemma OpenIslandIds(f: State)
    ensures SameIds(f.doc, OpenIsland(f).doc) && OpenIsland(f).anchors == f.anchors
  {
    var parent, self := CurrentParent(f.headings), Groups(|f.doc.groups|);
    LinkIds(f.doc.(groups := f.doc.groups + [GroupItem(self, parent, IslandGroup, [])]), parent, self);
  }

  lemma ConsumeClaims(f: State, e: Event) returns (c: Ref, id: Option<string>)
    ensures Claims(f, Consume(f, e), c, id)
  {
    c, id := Body, None;
    if e.Text? {
      id := e.item.elementId;
      if e.item.kind.Picture? {
        c := Pictures(|f.doc.pictures|);
        PushPictureClaims(f, e.item);
      } else {
        c := PushTextClaims(f, e.item);
      }
    } else if e.TableStart? {
      c, id := Tables(|f.doc.tables|), if f.table.Some? then f.table.value.elementId else None;
      OnTableStartClaims(f, e.tableRef, e.caption, e.elementId);
    } else if e.TableEnd? {
      if f.table.Some? && f.table.value.reference == e.tableRef {
        c, id := Tables(|f.doc.tables|), f.table.value.elementId;
        FinishTableClaims(f);
      }
    } else if e.Fact? {
      OnFactIds(f, e.columns, e.dimensions);
    } else if e.Citation? {
      if e.text != "" {
        id := e.elementId;
        c := PushTextClaims(f, CitationText(e.text, e.ordinal, e.elementId));
      }
    } else if e.Footnote? {
      if e.text != "" {
        id := if e.name == "" then None else Some(e.name);
        c := PushTextClaims(f, FootnoteText(e.text, e.name));
      }
    } else if e.HtmlIsland? {
      OnHtmlIslandIds(f, e.text);
    }
  }

  lemma {:induction false} FoldAllAnswering(events: seq<Event>)
    ensures Answering(FoldAll(events))
    decreases |events|
  {
    if events != [] {
      var f := FoldAll(events[..|events| - 1]);
      FoldAllAnswering(events[..|events| - 1]);
      var c, id := ConsumeClaims(f, events[|events| - 1]);
      ClaimsKeep(f, Consume(f, events[|events| - 1]), c, id);
    }
  }

  predicate Answers(anchors: map<string, Ref>, k: string, r: Ref) {
    k in anchors && anchors[k] == r
  }

  /** What a name answers to never changes once it answers. */
  lemma {:induction false} AnswersLast(events: seq<Event>, n: nat, k: string, r: Ref)
    requires n <= |events| && Answers(FoldAll(events[..n]).anchors, k, r)
    ensures Answers(FoldAll(events).anchors, k, r)
    decreases |events|
  {
    if n == |events| {
      assert events[..n] == events;
    } else {
      var front := events[..|events| - 1];
      assert front[..n] == events[..n];
      AnswersLast(front, n, k, r);
      FoldAllAnswering(front);
      var c, id := ConsumeClaims(FoldAll(front), events[|events| - 1]);
      ClaimsKeep(FoldAll(front), Consume(FoldAll(front), events[|events| - 1]), c, id);
    }
  }

  // ------------------------------------------------------------------- the anchors

  lemma PublishIds(d: Document, anchors: map<string, Ref>)
    ensures SameIds(d, Publish(d, anchors))
  {
    var e := Publish(d, anchors);
    forall r: Ref ensures IdAt(e, r) == IdAt(d, r) {
      if r.Texts? && r.n < |d.texts| {
        assert e.texts[r.n] == ResolveText(anchors, d.texts[r.n]);
      }
      if r.Tables? && r.n < |d.tables| {
        assert e.tables[r.n] == ResolveTable(anchors, d.tables[r.n]);
      }
    }
  }

  /** The anchors of a finished document are exactly the identifiers its items
      carry, and each names an item that carries it. */
  lemma AnchorsAreTheCarriers(events: seq<Event>)
    ensures var d := Taken(FoldAll(events));
      && (forall k :: k in d.anchors ==> Carries(d, d.anchors[k], k))
      && (forall r: Ref, k: string :: Carries(d, r, k) ==> k in d.anchors)
  {
    var f := FoldAll(events);
    FoldAllAnswering(events);
    FinishTableClaims(f);
    var g := FinishTable(f);
    ClaimsKeep(f, g, Tables(|f.doc.tables|), if f.table.Some? then f.table.value.elementId else None);
    PublishIds(g.doc, g.anchors);
    var d := Publish(g.doc, g.anchors);
    forall r: Ref, k: string | Carries(d, r, k) ensures k in d.anchors {
      assert Carries(g.doc, r, k);
    }
  }

  /** And the item is the first of the stream to carry it: the one the document
      had right after the first event that left it with any. */
  lemma FirstCarrierAnswers(before: seq<Event>, e: Event, after: seq<Event>, r: Ref, k: string)
    requires Uncarried(FoldAll(before).doc, k) && Carries(FoldAll(before + [e]).doc, r, k)
    ensures Answers(Taken(FoldAll(before + [e] + after)).anchors, k, r)
  {
    var events := before + [e] + after;
    assert Answers(FoldAll(before + [e]).anchors, k, r) by {
      FirstCarrierClaims(before, e, r, k);
    }
    assert events[..|before| + 1] == before + [e];
    AnswersLast(events, |before| + 1, k, r);
    FoldAllAnswering(events);
    TakenKeepsAnswers(FoldAll(events), k, r);
  }

  lemma TakenKeepsAnswers(f: State, k: string, r: Ref)
    requires Answering(f) && Answers(f.anchors, k, r)
    ensures Answers(Taken(f).anchors, k, r)
  {
    FinishTableClaims(f);
    ClaimsKeep(f, FinishTable(f), Tables(|f.doc.tables|), if f.table.Some? then f.table.value.elementId else None);
  }

  lemma FirstCarrierClaims(before: seq<Event>, e: Event, r: Ref, k: string)
    requires Uncarried(FoldAll(before).doc, k) && Carries(FoldAll(before + [e]).doc, r, k)
    ensures Answers(FoldAll(before + [e]).anchors, k, r)
  {
    var f := FoldAll(before);
    assert (before + [e])[..|before|] == before;
    FoldAllAnswering(before);
    var c, id := ConsumeClaims(f, e);
    NewCarrierClaims(f, Consume(f, e), c, id, r, k);
  }

  lemma NewCarrierClaims(f: State, g: State, c: Ref, id: Option<string>, r: Ref, k: string)
    requires Answering(f) && Claims(f, g, c, id) && Carries(g.doc, r, k)
    requires k !in f.anchors
    ensures k in g.anchors && g.anchors[k] == r
  {
    assert !Carries(f.doc, r, k);
  }

  // --------------------------------------------------------------------- the runs

  /** A run as it is made: it points at the name it states, if it states one. */
  predicate Unanswered(spans: seq<Span>) {
    forall i :: 0 <= i < |spans| ==>
      spans[i].target == if spans[i].reference.Some? then Some(Key(spans[i].reference.value)) else None
  }

  /** A run of a finished document points at the item its name answers to, or
      still at the name when nothing carries it. */
  predicate Answered(spans: seq<Span>, anchors: map<string, Ref>) {
    forall i :: 0 <= i < |spans| ==> spans[i].target == AnswerTo(spans[i].reference, anchors)
  }

  function AnswerTo(reference: Option<string>, anchors: map<string, Ref>): Option<Target> {
    if reference.None? then None
    else if reference.value in anchors then Some(Item(anchors[reference.value]))
    else Some(Key(reference.value))
  }

  predicate CellsUnanswered(cells: seq<Cell>) {
    forall i :: 0 <= i < |cells| ==> Unanswered(cells[i].spans)
  }

  predicate TableUnanswered(grid: seq<seq<Cell>>, cells: seq<Cell>) {
    cells == Concat(grid) && CellsUnanswered(cells)
  }

  ghost predicate AllUnanswered(f: State) {
    && (forall i :: 0 <= i < |f.doc.texts| ==> TextUnanswered(f.doc.texts[i]))
    && (forall i :: 0 <= i < |f.doc.tables| ==> TableUnanswered(f.doc.tables[i].grid, f.doc.tables[i].cells))
    && (f.table.Some? ==> TableUnanswered(f.table.value.layout.grid, f.table.value.layout.cells))
  }

  predicate TextUnanswered(t: TextItem) {
    Unanswered(t.spans) && (t.kind.Code? ==> t.spans == [])
  }

  /** The names runs state, each with the characters it is stated over. */
  function Stated(runs: seq<Span>): seq<(string, nat, nat)> {
    if runs == [] then []
    else
      (if runs[0].reference.Some? then [(runs[0].reference.value, runs[0].start, runs[0].end)] else [])
      + Stated(runs[1..])
  }

  /** The names the source states, each with the characters it states it over. */
  function Asked(spans: seq<WireSpan>): seq<(string, nat, nat)> {
    if spans == [] then []
    else AskedBy(spans[0]) + Asked(spans[1..])
  }

  function AskedBy(span: WireSpan): seq<(string, nat, nat)> {
    if span.range.None? then []
    else AskedOver(span.references, Sat(span.range.value.0), Sat(span.range.value.1))
  }

  function AskedOver(names: seq<string>, start: nat, end: nat): seq<(string, nat, nat)> {
    seq(|names|, i requires 0 <= i < |names| => (names[i], start, end))
  }

  lemma {:induction false} StatedConcat(a: seq<Span>, b: seq<Span>)
    ensures Stated(a + b) == Stated(a) + Stated(b)
    decreases |a|
  {
    if a == [] {
      assert a + b == b;
    } else {
      assert (a + b)[1..] == a[1..] + b;
      StatedConcat(a[1..], b);
    }
  }

  lemma {:induction false} RunPerTargetStates(
    start: nat, end: nat, styled: bool, link: Option<string>, names: seq<string>)
    ensures Stated(RunPerTarget(start, end, styled, link, names)) == AskedOver(names, start, end)
    decreases |names|
  {
    if names != [] {
      RunPerTargetStates(start, end, styled, link, names[1..]);
      assert RunPerTarget(start, end, styled, link, names)[1..] == RunPerTarget(start, end, styled, link, names[1..]);
      assert AskedOver(names, start, end) == [(names[0], start, end)] + AskedOver(names[1..], start, end);
    }
  }

  lemma RunsOfStates(span: WireSpan)
    ensures Stated(RunsOf(span)) == AskedBy(span) && Unanswered(RunsOf(span))
  {
    if span.range.Some? {
      var link := if span.hyperlink == Some("") then None else span.hyperlink;
      RunPerTargetStates(Sat(span.range.value.0), Sat(span.range.value.1), span.styled, link, span.references);
    }
  }

  /** The runs of an item state exactly the names the source states, in its order, one
      run a name over the characters it was stated over, and every run points at the
      name it states. */
  lemma {:induction false} InlineSpansUnanswered(spans: seq<WireSpan>)
    ensures Unanswered(InlineSpans(spans))
    ensures Stated(InlineSpans(spans)) == Asked(spans)
    decreases |spans|
  {
    if spans != [] {
      InlineSpansUnanswered(spans[1..]);
      StatedConcat(RunsOf(spans[0]), InlineSpans(spans[1..]));
      RunsOfStates(spans[0]);
    }
  }

  lemma {:induction false} PlaceRowUnanswered(s: RowState, row: nat, wires: seq<WireCell>, headerRow: bool)
    requires s.column <= I32_MAX && CellsUnanswered(s.cells)
    ensures CellsUnanswered(PlaceRow(s, row, wires, headerRow).cells)
    decreases |wires|
  {
    if wires != [] {
      InlineSpansUnanswered(wires[0].spans);
      PlaceRowUnanswered(PlaceCell(s, row, wires[0], headerRow), row, wires[1..], headerRow);
    }
  }

  lemma LayRowUnanswered(lay: Layout, wires: seq<WireCell>, headerRow: bool, budget: nat)
    requires TableUnanswered(lay.grid, lay.cells)
    ensures var (next, _) := LayRow(lay, wires, headerRow, budget); TableUnanswered(next.grid, next.cells)
  {
    var row := Sat(|lay.grid|);
    var s := RowState(Prune(lay.occupied, row), 0, [], budget, lay.numCols);
    PlaceRowUnanswered(s, row, wires, headerRow);
    RowUnanswered(lay.grid, lay.cells, PlaceRow(s, row, wires, headerRow).cells);
  }

  lemma ConcatSnoc(grid: seq<seq<Cell>>, row: seq<Cell>)
    ensures Concat(grid + [row]) == Concat(grid) + row
  {
    assert (grid + [row])[..|grid|] == grid;
  }

  lemma LinkUnanswered(f: State, d: Document, p: Ref, c: Ref)
    requires AllUnanswered(f.(doc := d))
    ensures AllUnanswered(f.(doc := d.LinkChild(p, c)))
  {
    forall i | 0 <= i < |d.LinkChild(p, c).texts| ensures TextUnanswered(d.LinkChild(p, c).texts[i]) {
      assert TextUnanswered(d.texts[i]);
    }
  }

  lemma EnsureListUnanswered(f: State, depth: nat, ordered: bool)
    requires AllUnanswered(f)
    ensures AllUnanswered(EnsureList(f, depth, ordered))
  {
    OpenListGroupUnanswered(f.(lists := CloseLists(f.lists, depth, ordered)), depth, ordered);
  }

  lemma OpenListGroupUnanswered(f: State, depth: nat, ordered: bool)
    requires AllUnanswered(f)
    ensures AllUnanswered(OpenListGroup(f, depth, ordered))
  {
    var parent := if f.lists == [] then CurrentParent(f.headings) else f.lists[|f.lists| - 1].ref;
    AddGroupUnanswered(f, GroupItem(Groups(|f.doc.groups|), parent, ListGroup(ordered), []));
  }

  lemma AddGroupUnanswered(f: State, g: GroupItem)
    requires AllUnanswered(f)
    ensures AllUnanswered(f.(doc := f.doc.(groups := f.doc.groups + [g]).LinkChild(g.parent, g.selfRef)))
  {
    LinkUnanswered(f, f.doc.(groups := f.doc.groups + [g]), g.parent, g.selfRef);
  }

  lemma PushTextUnanswered(f: State, item: TextEvent)
    requires AllUnanswered(f)
    ensures AllUnanswered(PushText(f, item))
  {
    if item.kind.ListItem? {
      EnsureListUnanswered(f, item.Depth(), item.Ordered());
    }
    var g := Opened(f, item);
    assert AllUnanswered(g);
    InlineSpansUnanswered(item.spans);
    var t := NewText(item, Texts(|g.doc.texts|), ParentFor(g, item));
    LinkUnanswered(g, g.doc.(texts := g.doc.texts + [t]), t.parent, t.selfRef);
  }

  lemma FinishTableUnanswered(f: State)
    requires AllUnanswered(f)
    ensures AllUnanswered(FinishTable(f))
  {
    if f.table.Some? {
      var p, self := f.table.value, Tables(|f.doc.tables|);
      LinkUnanswered(f.(table := None), f.doc.(tables := f.doc.tables + [NewTable(self, p)]), p.parent, self);
    }
  }

  lemma OnTableStartUnanswered(f: State, tableRef: string, caption: Option<string>, elementId: Option<string>)
    requires AllUnanswered(f)
    ensures AllUnanswered(OnTableStart(f, tableRef, caption, elementId))
  {
    FinishTableUnanswered(f.(lists := []));
    var g := FinishTable(f.(lists := []));
    if caption.Some? {
      PushTextUnanswered(g, CaptionText(caption.value));
    }
    assert Concat([]) == [];
  }

  lemma OnTableRowUnanswered(f: State, tableRef: string, isHeader: bool, cells: seq<WireCell>)
    requires AllUnanswered(f)
    ensures AllUnanswered(OnTableRow(f, tableRef, isHeader, cells))
  {
    if f.table.Some? {
      LayRowUnanswered(f.table.value.layout, cells, isHeader, f.spanSlotsLeft);
    }
  }

  lemma EnsureFactsTableUnanswered(f: State)
    requires AllUnanswered(f)
    ensures AllUnanswered(EnsureFactsTable(f))
  {
    if f.factsTable.None? {
      var parent, n := CurrentParent(f.headings), |f.doc.tables|;
      var header := FactRow(0, FACT_HEADINGS, true, None);
      ConcatSnoc([], header);
      FactRowUnanswered(0, FACT_HEADINGS, true, None);
      var table := TableItem(Tables(n), parent, [], None, [header], header, 1, 11, []);
      AddTableUnanswered(f.(lists := []), table, parent, Tables(n));
    }
  }

  lemma FactRowUnanswered(row: nat, columns: FactColumns, header: bool, dimensions: Option<Ref>)
    ensures CellsUnanswered(FactRow(row, columns, header, dimensions))
  {
  }

  lemma AddTableUnanswered(f: State, t: TableItem, p: Ref, c: Ref)
    requires AllUnanswered(f) && TableUnanswered(t.grid, t.cells)
    ensures AllUnanswered(f.(doc := f.doc.(tables := f.doc.tables + [t]).LinkChild(p, c)))
  {
    LinkUnanswered(f, f.doc.(tables := f.doc.tables + [t]), p, c);
  }

  lemma OnFactUnanswered(f: State, columns: FactColumns, dimensions: seq<(string, string)>)
    requires AllUnanswered(f)
    ensures AllUnanswered(OnFact(f, columns, dimensions))
  {
    EnsureFactsTableUnanswered(f);
    var g := EnsureFactsTable(f);
    var parent, self := CurrentParent(g.headings), KeyValues(|g.doc.keyValues|);
    var item := KeyValueItem(self, parent, dimensions, []);
    LinkUnanswered(g, g.doc.(keyValues := g.doc.keyValues + [item]), parent, self);
    var ref := if dimensions == [] then None else Some(self);
    AddFactRowUnanswered(PushDimensions(g, dimensions), g.factsTable.value, columns, ref);
  }

  lemma AddFactRowUnanswered(f: State, index: nat, columns: FactColumns, dimensions: Option<Ref>)
    requires AllUnanswered(f)
    ensures AllUnanswered(AddFactRow(f, index, columns, dimensions))
  {
    if index < |f.doc.tables| {
      var t := f.doc.tables[index];
      FactRowUnanswered(Sat(|t.grid|), columns, false, dimensions);
      RowUnanswered(t.grid, t.cells, FactRow(Sat(|t.grid|), columns, false, dimensions));
    }
  }

  lemma RowUnanswered(grid: seq<seq<Cell>>, cells: seq<Cell>, row: seq<Cell>)
    requires TableUnanswered(grid, cells) && CellsUnanswered(row)
    ensures TableUnanswered(grid + [row], cells + row)
  {
    ConcatSnoc(grid, row);
  }

  lemma OnHtmlIslandUnanswered(f: State, text: string)
    requires AllUnanswered(f)
    ensures AllUnanswered(OnHtmlIsland(f, text))
  {
    var parent, self := CurrentParent(f.headings), Groups(|f.doc.groups|);
    AddGroupUnanswered(f, GroupItem(self, parent, IslandGroup, []));
    var g := OpenIsland(f);
    var t := TextItem(Texts(|g.doc.texts|), self, BodyLayer, Paragraph, 0, false, text, None, [], []);
    LinkUnanswered(g, g.doc.(texts := g.doc.texts + [t]), self, t.selfRef);
  }

  lemma PushPictureUnanswered(f: State, item: TextEvent)
    requires AllUnanswered(f)
    ensures AllUnanswered(PushPicture(f, item))
  {
    var parent, self := CurrentParent(f.headings), Pictures(|f.doc.pictures|);
    var picture := PictureItem(self, parent, [], item.elementId, []);
    LinkUnanswered(f, f.doc.(pictures := f.doc.pictures + [picture]), parent, self);
  }

  lemma ConsumeUnanswered(f: State, e: Event)
    requires AllUnanswered(f)
    ensures AllUnanswered(Consume(f, e))
  {
    if e.Text? {
      PushPictureUnanswered(f, e.item);
      PushTextUnanswered(f, e.item);
    } else if e.TableStart? {
      OnTableStartUnanswered(f, e.tableRef, e.caption, e.elementId);
    } else if e.TableRow? {
      OnTableRowUnanswered(f, e.tableRef, e.isHeader, e.cells);
    } else if e.TableEnd? {
      FinishTableUnanswered(f);
    } else if e.Fact? {
      OnFactUnanswered(f, e.columns, e.dimensions);
    } else if e.Citation? {
      PushTextUnanswered(f, CitationText(e.text, e.ordinal, e.elementId));
    } else if e.Footnote? {
      PushTextUnanswered(f, FootnoteText(e.text, e.name));
    } else if e.HtmlIsland? {
      OnHtmlIslandUnanswered(f, e.text);
    }
  }

  lemma {:induction false} FoldAllUnanswered(events: seq<Event>)
    ensures AllUnanswered(FoldAll(events))
    decreases |events|
  {
    if events != [] {
      FoldAllUnanswered(events[..|events| - 1]);
      ConsumeUnanswered(FoldAll(events[..|events| - 1]), events[|events| - 1]);
    }
  }

  // ------------------------------------------------------------------- the patching

  lemma ResolveAllAnswers(anchors: map<string, Ref>, spans: seq<Span>)
    requires Unanswered(spans)
    ensures Answered(ResolveAll(anchors, spans), anchors)
  {
    forall i | 0 <= i < |spans|
      ensures ResolveAll(anchors, spans)[i].target == AnswerTo(ResolveAll(anchors, spans)[i].reference, anchors)
    {
      assert ResolveAll(anchors, spans)[i] == Resolve(anchors, spans[i]);
    }
  }

  predicate CellsAnswered(cells: seq<Cell>, anchors: map<string, Ref>) {
    forall i :: 0 <= i < |cells| ==> Answered(cells[i].spans, anchors)
  }

  lemma ResolveCellsAnswers(anchors: map<string, Ref>, cells: seq<Cell>)
    requires CellsUnanswered(cells)
    ensures CellsAnswered(ResolveCells(anchors, cells), anchors)
  {
    forall i | 0 <= i < |cells| ensures Answered(ResolveCells(anchors, cells)[i].spans, anchors) {
      ResolveAllAnswers(anchors, cells[i].spans);
    }
  }

  function ResolveGrid(anchors: map<string, Ref>, grid: seq<seq<Cell>>): (r: seq<seq<Cell>>)
    ensures |r| == |grid|
  {
    seq(|grid|, i requires 0 <= i < |grid| => ResolveCells(anchors, grid[i]))
  }

  lemma ResolveCellsConcat(anchors: map<string, Ref>, a: seq<Cell>, b: seq<Cell>)
    ensures ResolveCells(anchors, a + b) == ResolveCells(anchors, a) + ResolveCells(anchors, b)
  {
  }

  /** Patching the two copies of a table's cells apart leaves them the same. */
  lemma {:induction false} CopiesAgree(anchors: map<string, Ref>, grid: seq<seq<Cell>>)
    ensures ResolveCells(anchors, Concat(grid)) == Concat(ResolveGrid(anchors, grid))
    decreases |grid|
  {
    if grid != [] {
      var n := |grid| - 1;
      CopiesAgree(anchors, grid[..n]);
      ResolveCellsConcat(anchors, Concat(grid[..n]), grid[n]);
      assert ResolveGrid(anchors, grid)[..n] == ResolveGrid(anchors, grid[..n]);
    }
  }

  /** Every run, in a text or in either copy of a cell, points at what answers to the
      name it states. */
  predicate RunsAnswered(d: Document) {
    && (forall i :: 0 <= i < |d.texts| ==> Answered(d.texts[i].spans, d.anchors))
    && (forall i :: 0 <= i < |d.tables| ==>
          CellsAnswered(d.tables[i].cells, d.anchors) && d.tables[i].cells == Concat(d.tables[i].grid))
  }

  /** In the finished document of any stream every run, in a text or in either
      copy of a cell, points at the item that carries the name it states, wherever
      in the stream that item came, and at the bare name when no item does. */
  lemma OnePassEqualsTwo(events: seq<Event>)
    ensures RunsAnswered(Taken(FoldAll(events)))
  {
    FoldAllUnanswered(events);
    FinishTableUnanswered(FoldAll(events));
    PublishAnswers(FinishTable(FoldAll(events)));
  }

  lemma PublishAnswers(g: State)
    requires AllUnanswered(g)
    ensures RunsAnswered(Publish(g.doc, g.anchors))
  {
    var d := Publish(g.doc, g.anchors);
    forall i | 0 <= i < |d.texts| ensures Answered(d.texts[i].spans, d.anchors) {
      assert d.texts[i] == ResolveText(g.anchors, g.doc.texts[i]) && TextUnanswered(g.doc.texts[i]);
      ResolveAllAnswers(g.anchors, g.doc.texts[i].spans);
    }
    forall i | 0 <= i < |d.tables|
      ensures CellsAnswered(d.tables[i].cells, d.anchors) && d.tables[i].cells == Concat(d.tables[i].grid)
    {
      var t := g.doc.tables[i];
      assert d.tables[i] == ResolveTable(g.anchors, t) && TableUnanswered(t.grid, t.cells);
      ResolveCellsAnswers(g.anchors, t.cells);
      CopiesAgree(g.anchors, t.grid);
      assert d.tables[i].grid == ResolveGrid(g.anchors, t.grid);
    }
  }
}
