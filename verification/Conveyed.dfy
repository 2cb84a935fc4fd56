/** What the pass sends is what the document says: every text, picture, table and cell,
    told from the fields of the stream's own events, runs and spans included. */
module Conveyed {
  import opened Basics
  import opened Wrappers
  import opened Decimal
  import opened Document
  import opened Fold
  import opened Pipeline
  import FoldAnchors
  import FoldLists
  import FoldNesting
  import FoldSays
  import FoldSpans
  import FoldStates
  import Flatten
  import Grid
  import Records
  import Stream
  import Xml

  // ------------------------------------------------------------------------------ runs

  /** What a run states besides what it points at. */
  datatype RunStated = RunStated(start: nat, end: nat, styled: bool, link: Option<string>, name: Option<string>)

  function Shown(spans: seq<Span>): (r: seq<RunStated>)
    ensures |r| == |spans|
  {
    seq(|spans|, i requires 0 <= i < |spans| =>
      RunStated(spans[i].start, spans[i].end, spans[i].styled, spans[i].hyperlink, spans[i].reference))
  }

  /** The runs that a recorded run comes to: one for each name it refers to, or one if it
      is styled or links anywhere, all over its characters; positions stop at 31 bits. */
  function RunsOf(span: Flatten.InlineSpan): seq<RunStated> {
    var start, end := Min(span.range.start, 0x7FFF_FFFF), Min(span.range.end, 0x7FFF_FFFF);
    var styled, link := |span.styles| > 0, if span.hyperlink == Some("") then None else span.hyperlink;
    if |span.references| > 0 then
      seq(|span.references|, i requires 0 <= i < |span.references| =>
        RunStated(start, end, styled, link, Some(span.references[i])))
    else if styled || link != None then [RunStated(start, end, styled, link, None)]
    else []
  }

  function AllRunsOf(spans: seq<Flatten.InlineSpan>): seq<RunStated> {
    if spans == [] then [] else RunsOf(spans[0]) + AllRunsOf(spans[1..])
  }

  lemma {:induction false} RunsAreConveyed(spans: seq<Flatten.InlineSpan>)
    ensures Shown(Grid.InlineSpans(CarriedSpans(spans))) == AllRunsOf(spans)
    decreases |spans|
  {
    if spans != [] {
      RunsAreConveyed(spans[1..]);
      assert CarriedSpans(spans)[1..] == CarriedSpans(spans[1..]);
      assert Shown(Grid.RunsOf(CarriedSpan(spans[0]))) == RunsOf(spans[0]);
    }
  }

  lemma ResolvedRunsShow(anchors: map<string, Ref>, spans: seq<Span>)
    ensures Shown(ResolveAll(anchors, spans)) == Shown(spans)
  {
  }

  // ----------------------------------------------------------------- what a stream sends

  datatype TextSent = TextSent(stated: FoldStates.TextStated, spans: seq<Flatten.InlineSpan>)

  datatype RowSent = RowSent(isHeader: bool, cells: seq<Stream.TableCell>)

  datatype TableSent = TableSent(id: Option<string>, caption: Option<string>, rows: seq<RowSent>) | FactTable

  /** Everything a stream has sent for a document: texts, pictures by their identifier,
      tables in the order they are complete, the table open with its number, and whether
      facts have their table. */
  datatype Sent = Sent(
    texts: seq<TextSent>, pictures: seq<Option<string>>, tables: seq<TableSent>, open: Option<(nat, TableSent)>,
    facts: bool)
  {
    function Closed(): Sent {
      if open.None? then this else this.(tables := tables + [open.value.1], open := None)
    }

    function WithText(stated: FoldStates.TextStated, spans: seq<Flatten.InlineSpan>): Sent {
      this.(texts := texts + [TextSent(stated, spans)])
    }
  }

  /** An item of the stream as a text. */
  function ItemText(item: Stream.TextItem): FoldStates.TextStated {
    var chrome, header := item.kind in {PageHeader, PageFooter}, item.kind == SectionHeader;
    var level := if item.level == None then 1 else Min(item.level.value, 0x7FFF_FFFF);
    var ordered := item.list != None && item.list.value.ordered;
    FoldStates.TextStated(
      item.kind, if chrome then FurnitureLayer else BodyLayer, if header then level else 0,
      item.kind == ListItem && (ordered || item.ordinal != None), item.text, item.element.Get("id"))
  }

  function After(z: Sent, e: Stream.Event): Sent {
    match e
    case Item(_, item, _) =>
      if item.kind == Picture then z.(pictures := z.pictures + [item.element.Get("id")])
      else z.WithText(ItemText(item), if item.kind == Code then [] else item.spans)
    case TableStart(_, n, caption, element) =>
      var said := if caption == Some("") then None else caption;
      var y := if said == None then z.Closed()
               else z.Closed().WithText(FoldStates.Plainly(Caption, said.value, None), []);
      y.(open := Some((n, TableSent(element.Get("id"), said, []))))
    case TableRow(n, _, isHeader, cells) =>
      if z.open.Some? && z.open.value.0 == n && z.open.value.1.TableSent? then
        var t := z.open.value.1;
        z.(open := Some((n, t.(rows := t.rows + [RowSent(isHeader, cells)]))))
      else z
    case TableEnd(n, _, _, _) => if z.open.Some? && z.open.value.0 == n then z.Closed() else z
    case Fact(_, _, _, _, _) => if z.facts then z else z.(tables := z.tables + [FactTable], facts := true)
    case Island(_, _, text) => z.WithText(FoldStates.Plainly(Paragraph, text, None), [])
    case MetaItem(element, shape, tree) =>
      if shape == Records.CitationRecord && tree.text != "" then
        z.WithText(FoldStates.Plainly(Reference, tree.text, element.Get("id")), [])
      else z
    case NoteItem(note) =>
      if note.footnote && note.text != "" then
        var id := if note.name == "" then None else Some(note.name);
        z.WithText(FoldStates.Plainly(Label.Footnote, note.text, id), [])
      else z
    case Info(_) => z
    case Status(_) => z
  }

  const NOTHING_SENT := Sent([], [], [], None, false)

  function SentBy(out: seq<Stream.Event>): Sent
    decreases |out|
  {
    if out == [] then NOTHING_SENT else After(SentBy(out[..|out| - 1]), out[|out| - 1])
  }

  // ------------------------------------------------------------------------- the texts

  /** A saying that says what was sent. */
  predicate Says(said: FoldSays.Saying, sent: TextSent) {
    Shown(said.runs) == AllRunsOf(sent.spans)
  }

  predicate AllSay(said: seq<FoldSays.Saying>, sent: seq<TextSent>) {
    |said| == |sent| && forall i :: 0 <= i < |said| ==> Says(said[i], sent[i])
  }

  predicate AllState(stated: seq<FoldStates.TextStated>, sent: seq<TextSent>) {
    |stated| == |sent| && forall i :: 0 <= i < |stated| ==> stated[i] == sent[i].stated
  }

  lemma SaidAfter(said: seq<FoldSays.Saying>, z: Sent, e: Stream.Event)
    requires AllSay(said, z.texts)
    ensures AllSay(said + FoldSays.SaidBy(Carried(e)), After(z, e).texts)
  {
    hide Shown, AllRunsOf;
    assert said + [] == said;
    NoRunsShow();
    if e.Item? && e.item.kind != Code {
      RunsAreConveyed(e.item.spans);
    }
  }

  lemma NoRunsShow()
    ensures Shown([]) == [] == AllRunsOf([])
  {
  }

  lemma {:induction false} SaidIsSent(out: seq<Stream.Event>)
    ensures AllSay(FoldSays.Said(CarriedAll(out)), SentBy(out).texts)
    decreases |out|
  {
    if out != [] {
      var n := |out| - 1;
      SaidIsSent(out[..n]);
      SaidSnoc(CarriedAll(out[..n]), Carried(out[n]));
      SaidAfter(FoldSays.Said(CarriedAll(out[..n])), SentBy(out[..n]), out[n]);
    }
  }

  // ------------------------------------------------------------------------ the tables

  lemma NamesDiffer(m: nat, n: nat)
    ensures TableName(m) == TableName(n) <==> m == n
  {
    if TableName(m) == TableName(n) {
      assert TableName(m)[1..] == Digits(m) && TableName(n)[1..] == Digits(n);
      DigitsValueOfDigits(m);
      DigitsValueOfDigits(n);
    }
  }

  predicate CellConveys(wire: Grid.WireCell, cell: Stream.TableCell) {
    && wire.text == cell.text && wire.isHeader == cell.isHeader
    && wire.columnSpan == cell.columnSpan && wire.rowSpan == cell.rowSpan
    && Shown(Grid.InlineSpans(wire.spans)) == AllRunsOf(cell.spans)
  }

  predicate RowConveys(row: (seq<Grid.WireCell>, bool), sent: RowSent) {
    && row.1 == sent.isHeader && |row.0| == |sent.cells|
    && (forall j :: 0 <= j < |sent.cells| ==> CellConveys(row.0[j], sent.cells[j]))
  }

  predicate RowsConvey(rows: seq<(seq<Grid.WireCell>, bool)>, sent: seq<RowSent>) {
    |rows| == |sent| && forall i :: 0 <= i < |rows| ==> RowConveys(rows[i], sent[i])
  }

  function Captioned(caption: Option<(nat, string)>): Option<string> {
    if caption.None? then None else Some(caption.value.1)
  }

  predicate TableConveys(stated: FoldStates.TableStated, source: FoldSays.Source, sent: TableSent) {
    if sent.FactTable? then source.Facts? && stated == FoldStates.TableStated(None, None)
    else
      && source.Wire? && RowsConvey(source.rows, sent.rows)
      && stated.id == sent.id && Captioned(stated.caption) == sent.caption
  }

  predicate TablesConvey(stated: seq<FoldStates.TableStated>, done: seq<FoldSays.Source>, sent: seq<TableSent>) {
    && |stated| == |done| == |sent|
    && (forall i :: 0 <= i < |sent| ==> TableConveys(stated[i], done[i], sent[i]))
  }

  predicate OpenConveys(
    stated: Option<(string, FoldStates.TableStated)>, rows: Option<(string, seq<(seq<Grid.WireCell>, bool)>)>,
    sent: Option<(nat, TableSent)>)
  {
    && (stated.Some? <==> sent.Some?) && (rows.Some? <==> sent.Some?)
    && (sent.Some? ==>
          && sent.value.1.TableSent?
          && stated.value.0 == rows.value.0 == TableName(sent.value.0)
          && TableConveys(stated.value.1, FoldSays.Wire(rows.value.1), sent.value.1))
  }

  /** The accounts of the carried events and what was sent agree. */
  predicate Agree(x: FoldStates.Account, y: FoldSays.Sources, z: Sent) {
    && AllState(x.texts, z.texts) && x.pictures == z.pictures
    && TablesConvey(x.tables, y.done, z.tables) && OpenConveys(x.open, y.open, z.open)
    && x.facts == z.facts == y.facts.Some?
    && (y.facts.Some? ==> y.facts.value < |y.done| && y.done[y.facts.value].Facts?)
  }

  lemma CellsConvey(isHeader: bool, cells: seq<Stream.TableCell>)
    ensures RowConveys((CarriedCells(cells), isHeader), RowSent(isHeader, cells))
  {
    forall j | 0 <= j < |cells| ensures CellConveys(CarriedCells(cells)[j], cells[j]) {
      RunsAreConveyed(cells[j].spans);
    }
  }

  lemma ClosedAgree(x: FoldStates.Account, y: FoldSays.Sources, z: Sent)
    requires Agree(x, y, z)
    ensures Agree(x.Closed(), y.Closed(), z.Closed())
  {
  }

  lemma TextAgrees(
    x: FoldStates.Account, y: FoldSays.Sources, z: Sent, t: FoldStates.TextStated, spans: seq<Flatten.InlineSpan>)
    requires Agree(x, y, z)
    ensures Agree(x.WithText(t), y, z.WithText(t, spans))
  {
  }

  lemma ItemAgrees(x: FoldStates.Account, y: FoldSays.Sources, z: Sent, e: Stream.Event)
    requires Agree(x, y, z) && e.Item?
    ensures Agree(FoldStates.After(x, Carried(e)), FoldSays.Sourced(y, Carried(e)), After(z, e))
  {
    if e.item.kind != Picture {
      TextAgrees(x, y, z, ItemText(e.item), if e.item.kind == Code then [] else e.item.spans);
    }
  }

  lemma TableStartAgrees(x: FoldStates.Account, y: FoldSays.Sources, z: Sent, e: Stream.Event)
    requires Agree(x, y, z) && e.TableStart?
    ensures Agree(FoldStates.After(x, Carried(e)), FoldSays.Sourced(y, Carried(e)), After(z, e))
  {
    hide TablesConvey, AllState;
    ClosedAgree(x, y, z);
    if e.caption !in {None, Some("")} {
      TextAgrees(x.Closed(), y.Closed(), z.Closed(), FoldStates.Plainly(Caption, e.caption.value, None), []);
    }
  }

  lemma TableRowAgrees(x: FoldStates.Account, y: FoldSays.Sources, z: Sent, e: Stream.Event)
    requires Agree(x, y, z) && e.TableRow?
    ensures Agree(FoldStates.After(x, Carried(e)), FoldSays.Sourced(y, Carried(e)), After(z, e))
  {
    hide TablesConvey, AllState, RowConveys;
    CellsConvey(e.isHeader, e.cells);
    if z.open.Some? {
      NamesDiffer(z.open.value.0, e.table);
    }
  }

  lemma TableEndAgrees(x: FoldStates.Account, y: FoldSays.Sources, z: Sent, e: Stream.Event)
    requires Agree(x, y, z) && e.TableEnd?
    ensures Agree(FoldStates.After(x, Carried(e)), FoldSays.Sourced(y, Carried(e)), After(z, e))
  {
    hide Agree, TablesConvey, AllState, RowConveys;
    ClosedAgree(x, y, z);
    OpenNames(x, y, z);
    if z.open.Some? {
      NamesDiffer(z.open.value.0, e.table);
    }
  }

  lemma OpenNames(x: FoldStates.Account, y: FoldSays.Sources, z: Sent)
    requires Agree(x, y, z)
    ensures (x.open.Some? <==> z.open.Some?) && (y.open.Some? <==> z.open.Some?)
    ensures z.open.Some? ==> x.open.value.0 == y.open.value.0 == TableName(z.open.value.0)
  {
  }

  lemma FactAgrees(x: FoldStates.Account, y: FoldSays.Sources, z: Sent, e: Stream.Event)
    requires Agree(x, y, z) && e.Fact?
    ensures Agree(FoldStates.After(x, Carried(e)), FoldSays.Sourced(y, Carried(e)), After(z, e))
  {
  }

  lemma IslandAgrees(x: FoldStates.Account, y: FoldSays.Sources, z: Sent, e: Stream.Event)
    requires Agree(x, y, z) && e.Island?
    ensures Agree(FoldStates.After(x, Carried(e)), FoldSays.Sourced(y, Carried(e)), After(z, e))
  {
    TextAgrees(x.(islands := x.islands + [|x.texts|]), y, z, FoldStates.Plainly(Paragraph, e.text, None), []);
  }

  lemma EventAgrees(x: FoldStates.Account, y: FoldSays.Sources, z: Sent, e: Stream.Event)
    requires Agree(x, y, z)
    ensures Agree(FoldStates.After(x, Carried(e)), FoldSays.Sourced(y, Carried(e)), After(z, e))
  {
    hide Agree;
    if e.Item? {
      ItemAgrees(x, y, z, e);
    } else if e.TableStart? {
      TableStartAgrees(x, y, z, e);
    } else if e.TableRow? {
      TableRowAgrees(x, y, z, e);
    } else if e.TableEnd? {
      TableEndAgrees(x, y, z, e);
    } else if e.Fact? {
      FactAgrees(x, y, z, e);
    } else if e.Island? {
      IslandAgrees(x, y, z, e);
    } else if e.MetaItem? {
      TextAgrees(x, y, z, FoldStates.Plainly(Reference, e.tree.text, e.element.Get("id")), []);
    } else if e.NoteItem? {
      var id := if e.note.name == "" then None else Some(e.note.name);
      TextAgrees(x, y, z, FoldStates.Plainly(Label.Footnote, e.note.text, id), []);
    }
  }

  lemma {:induction false} SentAgrees(out: seq<Stream.Event>)
    ensures Agree(FoldStates.AccountOf(CarriedAll(out)), FoldSays.SourcesOf(CarriedAll(out)), SentBy(out))
    decreases |out|
  {
    hide Agree;
    if out == [] {
      NothingAgrees();
    } else {
      var n := |out| - 1;
      var events := CarriedAll(out[..n]);
      SentAgrees(out[..n]);
      EventAgrees(FoldStates.AccountOf(events), FoldSays.SourcesOf(events), SentBy(out[..n]), out[n]);
      AgreeSnoc(events, Carried(out[n]));
    }
  }

  lemma NothingAgrees()
    ensures Agree(FoldStates.NOTHING, FoldSays.Sources([], None, None), NOTHING_SENT)
  {
  }

  lemma AgreeSnoc(events: seq<Event>, e: Event)
    ensures FoldStates.AccountOf(events + [e]) == FoldStates.After(FoldStates.AccountOf(events), e)
    ensures FoldSays.SourcesOf(events + [e]) == FoldSays.Sourced(FoldSays.SourcesOf(events), e)
  {
    assert (events + [e])[..|events|] == events;
  }

  // ------------------------------------------------------------------ the whole document

  /** A text says what was sent: its label, layer, level, number, characters and
      identifier, and the runs over it. */
  predicate TextSays(t: TextItem, sent: TextSent) {
    FoldStates.StatedBy(t) == sent.stated && Shown(t.spans) == AllRunsOf(sent.spans)
  }

  /** A cell says what was sent for it, in a header row or not, and has the spans sent
      for it as far as what is left of the budget covers them. */
  predicate CellSays(cell: Cell, sent: Stream.TableCell, inHeader: bool, left: int) {
    && cell.text == sent.text && cell.header == (inHeader || sent.isHeader)
    && Shown(cell.spans) == AllRunsOf(sent.spans)
    && FoldSpans.Honoured(cell, sent.columnSpan, sent.rowSpan, left)
  }

  predicate RowSays(cells: seq<Cell>, sent: RowSent, left: int) {
    && |cells| == |sent.cells|
    && (forall j :: 0 <= j < |cells| ==>
          CellSays(cells[j], sent.cells[j], sent.isHeader, left - Grid.Claimed(cells[..j])))
  }

  predicate GridSays(grid: seq<seq<Cell>>, rows: seq<RowSent>, left: int) {
    |grid| == |rows| && forall i :: 0 <= i < |grid| ==> GridRowSays(grid, rows, i, left)
  }

  predicate GridRowSays(grid: seq<seq<Cell>>, rows: seq<RowSent>, i: nat, left: int)
    requires i < |grid| == |rows|
  {
    RowSays(grid[i], rows[i], left - Grid.Claimed(Grid.Concat(grid[..i])))
  }

  /** A table has the identifier sent with it, exactly its own caption, as a caption text
      of the document, and the rows sent for it. */
  predicate TableSays(d: Document, i: nat, sent: TableSent)
    requires i < |d.tables|
  {
    var t := d.tables[i];
    if sent.FactTable? then t.elementId == None && t.captions == []
    else
      && t.elementId == sent.id
      && GridSays(t.grid, sent.rows, FoldSpans.LeftBy(d.tables[..i]))
      && if sent.caption == None then t.captions == []
         else |t.captions| == 1 && IsCaption(d, t.captions[0], sent.caption.value)
  }

  predicate IsCaption(d: Document, ref: Ref, text: string) {
    && ref.Texts? && ref.n < |d.texts|
    && d.texts[ref.n].text == text && d.texts[ref.n].kind == Caption
  }

  lemma RowIsSaid(
    cells: seq<Cell>, row: (seq<Grid.WireCell>, bool), sent: RowSent, anchors: map<string, Ref>, left: int)
    requires RowConveys(row, sent) && FoldSays.RowAnswered(cells, row.0, row.1, anchors)
    requires FoldSpans.RowHonours(cells, row.0, left)
    ensures RowSays(cells, sent, left)
  {
    hide Grid.Claimed, FoldSpans.Honoured, Shown, AllRunsOf, Grid.InlineSpans;
    forall j | 0 <= j < |cells|
      ensures CellSays(cells[j], sent.cells[j], sent.isHeader, left - Grid.Claimed(cells[..j]))
    {
      assert FoldSays.FitsAnswered(cells[j], row.0[j], row.1, anchors) && CellConveys(row.0[j], sent.cells[j]);
      assert FoldSpans.CellHonours(cells, row.0, j, left);
      ResolvedRunsShow(anchors, Grid.InlineSpans(row.0[j].spans));
    }
  }

  lemma GridIsSaid(
    grid: seq<seq<Cell>>, rows: seq<(seq<Grid.WireCell>, bool)>, sent: seq<RowSent>, anchors: map<string, Ref>,
    left: int)
    requires RowsConvey(rows, sent) && FoldSays.HoldsAnswered(grid, FoldSays.Wire(rows), anchors)
    requires FoldSpans.GridHonours(grid, rows, left)
    ensures GridSays(grid, sent, left)
  {
    hide RowConveys, FoldSays.RowAnswered, FoldSpans.RowHonours, RowSays;
    forall i | 0 <= i < |grid| ensures GridRowSays(grid, sent, i, left) {
      assert FoldSpans.RowAtHonours(grid, rows, i, left);
      RowIsSaid(grid[i], rows[i], sent[i], anchors, left - Grid.Claimed(Grid.Concat(grid[..i])));
    }
  }

  /** The document of any stream says what the stream sent: its texts in order, its
      pictures' identifiers, and each table with its own rows, cell for cell. */
  lemma DocumentSaysTheStream(out: seq<Stream.Event>)
    ensures var d, sent := Taken(FoldAll(CarriedAll(out))), SentBy(out).Closed();
      && |d.texts| == |sent.texts| && (forall i :: 0 <= i < |d.texts| ==> TextSays(d.texts[i], sent.texts[i]))
      && |d.pictures| == |sent.pictures|
      && (forall i :: 0 <= i < |d.pictures| ==> d.pictures[i].elementId == sent.pictures[i])
      && |d.tables| == |sent.tables| && (forall i :: 0 <= i < |d.tables| ==> TableSays(d, i, sent.tables[i]))
  {
    hide Agree, TextSays, TableSays, FoldStates.StatesAll, Taken;
    var events := CarriedAll(out);
    var d, sent := Taken(FoldAll(events)), SentBy(out).Closed();
    SentAgrees(out);
    ClosedAgree(FoldStates.AccountOf(events), FoldSays.SourcesOf(events), SentBy(out));
    FoldStates.ItemsStateTheirEvents(events);
    TextsAreSaid(out, d, FoldStates.AccountOf(events).Closed(), FoldSays.SourcesOf(events).Closed(), sent);
    FoldSays.TablesHoldTheirRows(events);
    FoldSpans.SpansAreHonoured(events);
    TablesAreSaid(d, FoldStates.AccountOf(events).Closed(), FoldSays.SourcesOf(events).Closed(), sent);
  }

  lemma TextsAreSaid(
    out: seq<Stream.Event>, d: Document, x: FoldStates.Account, y: FoldSays.Sources, sent: Sent)
    requires d == Taken(FoldAll(CarriedAll(out))) && sent.texts == SentBy(out).texts
    requires Agree(x, y, sent) && FoldStates.StatesAll(d, x)
    ensures |d.texts| == |sent.texts| && forall i :: 0 <= i < |d.texts| ==> TextSays(d.texts[i], sent.texts[i])
    ensures |d.pictures| == |sent.pictures|
    ensures forall i :: 0 <= i < |d.pictures| ==> d.pictures[i].elementId == sent.pictures[i]
  {
    hide Taken, Shown, AllRunsOf;
    var said := FoldSays.Said(CarriedAll(out));
    SaidIsSent(out);
    FoldSays.TextsSayTheStream(CarriedAll(out));
    forall i | 0 <= i < |d.texts| ensures TextSays(d.texts[i], sent.texts[i]) {
      assert FoldSays.SayingOf(d.texts[i]) == FoldSays.Answered(d.anchors, said[i]) && Says(said[i], sent.texts[i]);
      ResolvedRunsShow(d.anchors, said[i].runs);
    }
  }

  lemma TablesAreSaid(d: Document, x: FoldStates.Account, y: FoldSays.Sources, sent: Sent)
    requires Agree(x, y, sent) && FoldStates.StatesAll(d, x)
    requires FoldSays.AllHoldAnswered(d, y.done) && FoldSpans.AllHonour(d.tables, y.done)
    ensures |d.tables| == |sent.tables| && forall i :: 0 <= i < |d.tables| ==> TableSays(d, i, sent.tables[i])
  {
    hide RowsConvey, FoldSays.HoldsAnswered, FoldSpans.GridHonours, GridSays;
    forall i | 0 <= i < |d.tables| ensures TableSays(d, i, sent.tables[i]) {
      TableIsSaid(d, x, y.done[i], sent.tables[i], i);
    }
  }

  lemma TableIsSaid(d: Document, x: FoldStates.Account, source: FoldSays.Source, sent: TableSent, i: nat)
    requires FoldStates.StatesAll(d, x) && i < |d.tables| && TableConveys(x.tables[i], source, sent)
    requires FoldSays.HoldsAnswered(d.tables[i].grid, source, d.anchors)
    requires FoldSpans.TableHonours(d.tables, i, source)
    ensures TableSays(d, i, sent)
  {
    hide RowsConvey, FoldSpans.GridHonours, GridSays;
    assert FoldStates.Shows(d.tables[i].elementId, d.tables[i].captions, x.tables[i]);
    assert FoldStates.Captioned(x.texts, x.tables[i]);
    if !sent.FactTable? {
      GridIsSaid(d.tables[i].grid, source.rows, sent.rows, d.anchors, FoldSpans.LeftBy(d.tables[..i]));
    }
  }

  // -------------------------------------------------------------------------- the lists

  predicate SentListItem(e: Stream.Event) {
    e.Item? && e.item.kind == ListItem
  }

  /** How deep in lists an item was sent: one outside any counts as in one. */
  function DepthSent(item: Stream.TextItem): nat {
    if item.list == None then 1 else Max(item.list.value.depth, 1)
  }

  predicate NumberSent(item: Stream.TextItem) {
    item.ordinal != None || (item.list != None && item.list.value.ordered)
  }

  /** This event ends the list of an item of that depth, numbered or not. */
  predicate EndsSent(e: Stream.Event, depth: nat, numbered: bool) {
    match e
    case Item(_, item, _) =>
      if item.kind == ListItem then
        DepthSent(item) < depth || (DepthSent(item) == depth && NumberSent(item) != numbered)
      else item.kind !in {PageHeader, PageFooter}
    case TableStart(_, _, _, _) => true
    case Fact(_, _, _, _, _) => true
    case Island(_, _, _) => true
    case MetaItem(_, shape, tree) => shape == Records.CitationRecord && tree.text != ""
    case NoteItem(note) => note.footnote && note.text != ""
    case _ => false
  }

  lemma ItemIsConveyed(e: Stream.Event)
    requires SentListItem(e)
    ensures FoldLists.IsListItem(Carried(e)) && Carried(e).item.Depth() == DepthSent(e.item)
    ensures FoldNesting.Numbered(Carried(e).item) == NumberSent(e.item)
  {
  }

  lemma EndsIsSent(e: Stream.Event, other: Stream.Event)
    requires SentListItem(e)
    ensures FoldNesting.Ends(Carried(other), Carried(e).item) <==>
      EndsSent(other, DepthSent(e.item), NumberSent(e.item))
  {
    ItemIsConveyed(e);
    FoldNesting.EndsIsBreaks(Carried(other), Carried(e).item);
    if SentListItem(other) {
      ItemIsConveyed(other);
      FoldNesting.DepthsCompare(Carried(other).item, Carried(e).item);
    }
  }

  lemma {:induction false} CarriedAt(out: seq<Stream.Event>, i: nat)
    requires i < |out|
    ensures CarriedAll(out)[i] == Carried(out[i])
    decreases |out|
  {
    if i < |out| - 1 {
      CarriedAt(out[..|out| - 1], i);
    }
  }

  /** In the document of any stream two list items of it share a group if and only if they
      were sent as deep as each other, both or neither with a number, and nothing sent
      between them ends the list of the first. */
  lemma SentListsAreGrouped(out: seq<Stream.Event>, i: nat, j: nat)
    requires i < j < |out| && SentListItem(out[i]) && SentListItem(out[j])
    ensures var events, a, b := CarriedAll(out), out[i].item, out[j].item;
      FoldNesting.HungFrom(events, i) == FoldNesting.HungFrom(events, j) <==>
        && DepthSent(a) == DepthSent(b) && NumberSent(a) == NumberSent(b)
        && (forall k :: i < k < j ==> !EndsSent(out[k], DepthSent(a), NumberSent(a)))
  {
    hide FoldNesting.HungFrom, FoldNesting.Ends, EndsSent;
    var events := CarriedAll(out);
    CarriedAt(out, i);
    CarriedAt(out, j);
    ItemIsConveyed(out[i]);
    ItemIsConveyed(out[j]);
    FoldNesting.ListsAreGrouped(events, i, j);
    FoldNesting.DepthsCompare(events[i].item, events[j].item);
    forall k | i < k < j
      ensures FoldNesting.Ends(events[k], events[i].item) <==>
        EndsSent(out[k], DepthSent(out[i].item), NumberSent(out[i].item))
    {
      CarriedAt(out, k);
      EndsIsSent(out[i], out[k]);
    }
  }

  /** And a list item sent deeper right after another has a group of its own inside that
      one's, numbered exactly when it is. */
  lemma SentListsNest(out: seq<Stream.Event>, i: nat)
    requires i + 1 < |out| && SentListItem(out[i]) && SentListItem(out[i + 1])
    requires DepthSent(out[i].item) < DepthSent(out[i + 1].item)
    ensures var events := CarriedAll(out);
      FoldNesting.GroupIs(Taken(FoldAll(events)), FoldNesting.HungFrom(events, i + 1), FoldNesting.HungFrom(events, i),
                          NumberSent(out[i + 1].item))
  {
    hide FoldNesting.HungFrom, FoldNesting.GroupIs;
    var events := CarriedAll(out);
    CarriedAt(out, i);
    CarriedAt(out, i + 1);
    ItemIsConveyed(out[i]);
    ItemIsConveyed(out[i + 1]);
    FoldNesting.DepthsCompare(events[i + 1].item, events[i].item);
    FoldNesting.DeeperItemNests(events, i);
  }
}
