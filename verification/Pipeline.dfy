/** The pass and the fold end to end: every stream the pass finishes folds into a
    document whose walk, tables included, follows the source. */
module Pipeline {
  import opened Wrappers
  import opened Decimal
  import opened Xml
  import opened Records
  import opened Document
  import opened Fold
  import FoldFacts
  import FoldLinks
  import FoldSays
  import FoldTables
  import FoldTree
  import Flatten
  import Generic
  import Grid
  import Stream
  import StreamBalance
  import StreamModes
  import StreamOrder

  // ----------------------------------------------------------------- names and cells

  /** A table's reference as the events write it. */
  function TableName(n: nat): string {
    "t" + Digits(n)
  }

  function CarriedSpan(span: Flatten.InlineSpan): Grid.WireSpan {
    Grid.WireSpan(Some((span.range.start, span.range.end)), span.styles != [], span.hyperlink, span.references)
  }

  function CarriedSpans(spans: seq<Flatten.InlineSpan>): seq<Grid.WireSpan> {
    seq(|spans|, i requires 0 <= i < |spans| => CarriedSpan(spans[i]))
  }

  function CarriedCells(cells: seq<Stream.TableCell>): (r: seq<Grid.WireCell>)
    ensures |r| == |cells|
  {
    seq(|cells|, i requires 0 <= i < |cells| =>
      var c := cells[i]; Grid.WireCell(c.text, c.columnSpan, c.rowSpan, c.isHeader, CarriedSpans(c.spans)))
  }

  // ------------------------------------------------------------------- facts as rows

  /** A fact's concept under the prefix it was written with. */
  function ConceptName(e: Element): string {
    if ':' in e.qname && BeforeColon(e.qname) != "" then BeforeColon(e.qname) + ":" + e.local else e.local
  }

  function BeforeColon(name: string): string {
    if name == "" || name[0] == ':' then "" else [name[0]] + BeforeColon(name[1..])
  }

  function PeriodText(context: Option<Context>): string {
    if context.None? then ""
    else
      var p := context.value.period;
      if p.instant.Some? && p.instant.value != "" then p.instant.value
      else if p.startDate.Some? && p.endDate.Some? then p.startDate.value + "/" + p.endDate.value
      else if p.startDate.Some? then p.startDate.value
      else if p.endDate.Some? then p.endDate.value
      else if p.forever then "forever"
      else ""
  }

  function Joined(parts: seq<string>, separator: string): string {
    if parts == [] then ""
    else if |parts| == 1 then parts[0]
    else parts[0] + separator + Joined(parts[1..], separator)
  }

  /** A unit's measures, or the reference a fact made to a unit that is not declared. */
  function UnitText(unit: Option<Unit>, unitRef: Option<string>): string {
    if unit.None? then OrEmpty(unitRef)
    else
      var u := unit.value;
      if u.measures != [] then Joined(u.measures, " ")
      else if u.numerator != [] || u.denominator != [] then Joined(u.numerator, " ") + "/" + Joined(u.denominator, " ")
      else u.id
  }

  function ColumnsOf(e: Element, context: Option<Context>, unit: Option<Unit>, value: string): FactColumns {
    var scheme := if context.Some? then OrEmpty(context.value.scheme) else "";
    var entity := if context.Some? then OrEmpty(context.value.entity) else "";
    [ConceptName(e), scheme, entity, OrEmpty(e.Get("contextRef")), PeriodText(context),
     UnitText(unit, e.Get("unitRef")), value,
     OrEmpty(e.Get("decimals")), OrEmpty(e.Get("precision")), OrEmpty(e.Get("sign")),
     if e.Get("nil") in {Some("true"), Some("1")} then "true" else "false"]
  }

  /** An axis with its member, explicit or typed. */
  function Pair(d: Dimension): (string, string) {
    (d.axis, if d.member.Some? then d.member.value else OrEmpty(d.typedValue))
  }

  function Pairs(context: Option<Context>): (r: seq<(string, string)>)
    ensures |r| == if context.Some? then |context.value.dimensions| else 0
  {
    if context.None? then []
    else
      var ds := context.value.dimensions;
      seq(|ds|, i requires 0 <= i < |ds| => Pair(ds[i]))
  }

  // ------------------------------------------------------------------- the events carried

  /** An event of the pass as the fold takes it. */
  function Carried(e: Stream.Event): Event {
    match e
    case Item(_, item, _) =>
      Event.Text(TextEvent(
        item.kind, item.text, item.level, item.ordinal, item.element.Get("id"), CarriedSpans(item.spans),
        if item.list.Some? then Some(item.list.value.depth) else None,
        item.list.Some? && item.list.value.ordered))
    case TableStart(_, n, caption, element) => TableStart(TableName(n), caption, element.Get("id"))
    case TableRow(n, _, isHeader, cells) => TableRow(TableName(n), isHeader, CarriedCells(cells))
    case TableEnd(n, _, _, _) => TableEnd(TableName(n))
    case Fact(_, element, context, unit, value) => Fact(ColumnsOf(element, context, unit, value), Pairs(context))
    case Island(_, _, text) => HtmlIsland(text)
    case MetaItem(element, shape, tree) =>
      if shape.CitationRecord? then Citation(tree.text, CitationOrdinal(element, tree), element.Get("id")) else Unmapped
    case NoteItem(note) => if note.footnote then Event.Footnote(note.text, note.name) else Unmapped
    case Info(_) => Unmapped
    case Status(_) => Unmapped
  }

  function CarriedAll(out: seq<Stream.Event>): (r: seq<Event>)
    ensures |r| == |out|
  {
    if out == [] then [] else CarriedAll(out[..|out| - 1]) + [Carried(out[|out| - 1])]
  }

  // -------------------------------------------------------- fold and reader in step

  /** The fold has a table open exactly when the stream does, under the same name,
      and has laid every row the stream sent for it. */
  predicate InStep(f: State, r: StreamOrder.Reader) {
    && (f.table.Some? <==> r.open.Some?)
    && (r.open.Some? ==> r.started)
    && (f.table.Some? ==>
          && f.table.value.reference == TableName(r.open.value.table)
          && |f.table.value.layout.grid| == r.open.value.rows)
  }

  /** Events that are no part of a table leave the open table alone. */
  lemma TableStays(f: State, e: Event)
    requires !e.TableStart? && !e.TableRow? && !e.TableEnd?
    ensures Consume(f, e).table == f.table
  {
    if e.Text? && !e.item.kind.Picture? {
      FoldTables.PushTextTables(f, e.item);
    } else if e.Citation? {
      FoldTables.PushTextTables(f, CitationText(e.text, e.ordinal, e.elementId));
    } else if e.Footnote? {
      FoldTables.PushTextTables(f, FootnoteText(e.text, e.name));
    } else if e.HtmlIsland? {
      FoldTables.IslandTables(f, e.text);
    } else if e.Fact? {
      FactTable(f, e.columns, e.dimensions);
    }
  }

  lemma FactTable(f: State, columns: FactColumns, dimensions: seq<(string, string)>)
    ensures OnFact(f, columns, dimensions).table == f.table
  {
    FoldTables.PushDimensionsTables(EnsureFactsTable(f), dimensions);
  }

  lemma TableOpens(f: State, name: string, caption: Option<string>, id: Option<string>)
    ensures var g := OnTableStart(f, name, caption, id);
      g.table.Some? && g.table.value.reference == name && g.table.value.layout.grid == []
  {
  }

  lemma RowLands(f: State, name: string, isHeader: bool, cells: seq<Grid.WireCell>)
    requires f.table.Some? && f.table.value.reference == name
    ensures var g := OnTableRow(f, name, isHeader, cells);
      && g.table.Some? && g.table.value.reference == name
      && |g.table.value.layout.grid| == |f.table.value.layout.grid| + 1
  {
  }

  lemma TableCloses(f: State, name: string)
    requires f.table.Some? && f.table.value.reference == name
    ensures OnTableEnd(f, name).table.None?
  {
  }

  /** An event the stream's contract lets come keeps fold and stream in step, and
      comes where the fold has room for it. */
  lemma EventInStep(f: State, r: StreamOrder.Reader, e: Stream.Event)
    requires InStep(f, r) && StreamOrder.Read(r, e).ok
    ensures FoldTree.Orderly(f, Carried(e))
    ensures InStep(Consume(f, Carried(e)), StreamOrder.Read(r, e))
  {
    var c := Carried(e);
    if e.TableStart? {
      TableOpens(f, TableName(e.table), e.caption, e.element.Get("id"));
    } else if e.TableRow? {
      RowLands(f, TableName(e.table), e.isHeader, CarriedCells(e.cells));
    } else if e.TableEnd? {
      TableCloses(f, TableName(e.table));
    } else {
      TableStays(f, c);
    }
  }

  lemma OrderlySnoc(events: seq<Event>, e: Event)
    requires FoldTree.AllOrderly(events) && FoldTree.Orderly(FoldAll(events), e)
    ensures FoldTree.AllOrderly(events + [e]) && FoldAll(events + [e]) == Consume(FoldAll(events), e)
  {
    assert (events + [e])[..|events|] == events;
  }

  lemma NextInStep(events: seq<Event>, r: StreamOrder.Reader, e: Stream.Event)
    requires FoldTree.AllOrderly(events) && InStep(FoldAll(events), r) && StreamOrder.Read(r, e).ok
    ensures FoldTree.AllOrderly(events + [Carried(e)])
    ensures InStep(FoldAll(events + [Carried(e)]), StreamOrder.Read(r, e))
  {
    EventInStep(FoldAll(events), r, e);
    OrderlySnoc(events, Carried(e));
  }

  lemma {:induction false} StreamInStep(out: seq<Stream.Event>)
    requires StreamOrder.ReadAll(out).ok
    ensures FoldTree.AllOrderly(CarriedAll(out))
    ensures InStep(FoldAll(CarriedAll(out)), StreamOrder.ReadAll(out))
    decreases |out|
  {
    if out != [] {
      var n := |out| - 1;
      var events, r := CarriedAll(out[..n]), StreamOrder.ReadAll(out[..n]);
      StreamInStep(out[..n]);
      NextInStep(events, r, out[n]);
    }
  }

  /** The walk of a document, and that it extends what had been made at one point of
      the stream. */
  ghost predicate Extends(events: seq<Event>, n: nat, walk: FoldTree.Tree)
    requires n <= |events|
  {
    exists before: FoldTree.Tree :: WalkAt(events, n, before) && FoldTree.Flatten(before) <= FoldTree.Flatten(walk)
  }

  /** The one walk of everything under the body after so many events. */
  ghost predicate WalkAt(events: seq<Event>, n: nat, before: FoldTree.Tree)
    requires n <= |events|
  {
    var document := FoldAll(events[..n]).doc;
    && before.root == Body && FoldTree.Mirrors(document, before, true)
    && (forall r :: r in FoldTree.Flatten(before) <==> r == Body || FoldTree.InBody(document, r, true))
  }

  /** A document whose one walk visits every item under the body once, in the order the
      stream made them, each after all that was made before it. */
  ghost predicate FollowsInOrder(events: seq<Event>, document: Document, walk: FoldTree.Tree) {
    && walk.root == Body && FoldTree.Mirrors(document, walk, true)
    && FoldLinks.NoDuplicates(FoldTree.Flatten(walk))
    && FoldTree.Flatten(walk) == [Body] + FoldTree.Made(events, true)
    && (forall r :: r in FoldTree.Flatten(walk) <==> r == Body || FoldTree.InBody(document, r, true))
    && (forall n: nat :: n <= |events| ==> Extends(events, n, walk))
  }

  lemma WalkExtends(events: seq<Event>, n: nat, walk: FoldTree.Tree)
    requires n <= |events| && FoldTree.AllOrderly(events)
    requires walk.root == Body && FoldTree.Mirrors(Taken(FoldAll(events)), walk, true)
    ensures Extends(events, n, walk)
  {
    var before, after := FoldTree.WalkFollowsTheStream(events, n, true);
    assert walk == after;
    assert WalkAt(events, n, before);
  }

  lemma WalkInOrder(events: seq<Event>) returns (walk: FoldTree.Tree)
    requires FoldTree.AllOrderly(events) && FoldAll(events).table.None?
    ensures FollowsInOrder(events, Taken(FoldAll(events)), walk)
  {
    walk := FoldTree.WalkIsTheStream(events, true);
    assert [Body] + FoldTree.Made(events, true) + [] == [Body] + FoldTree.Made(events, true);
    forall n: nat | n <= |events| ensures Extends(events, n, walk) {
      WalkExtends(events, n, walk);
    }
  }

  /** The document of a source that was read to its end: no table is left open, all
      links hold, its one walk from the body visits every item under the body once and
      in the order of the stream, tables in their place among the rest; its texts are
      what the stream said, in order, and its tables hold the rows sent for them. */
  lemma DocumentFollowsTheSource(rules: Stream.Rules, root: Element, steps: seq<Step>)
    returns (walk: FoldTree.Tree)
    requires StreamModes.Sane(rules) && Stream.Parse(rules, root, steps).progress == Stream.Closed
    ensures var events := CarriedAll(Stream.Parse(rules, root, steps).out);
      var document := Taken(FoldAll(events));
      && FoldTree.AllOrderly(events) && FoldAll(events).table.None?
      && FoldLinks.Linked(document) && FoldLinks.Pointing(document)
      && FollowsInOrder(events, document, walk)
      && FoldSays.SpeakAnswered(document, FoldSays.Said(events))
      && FoldSays.AllHoldAnswered(document, FoldSays.SourcesOf(events).Closed().done)
  {
    StreamOrder.FinishedRunsAreOrderly(rules, root, steps);
    walk := WalkOf(Stream.Parse(rules, root, steps).out);
  }

  lemma WalkOf(out: seq<Stream.Event>) returns (walk: FoldTree.Tree)
    requires StreamOrder.ReadAll(out).ok && StreamOrder.ReadAll(out).open.None?
    ensures var events := CarriedAll(out);
      var document := Taken(FoldAll(events));
      && FoldTree.AllOrderly(events) && FoldAll(events).table.None?
      && FoldLinks.Linked(document) && FoldLinks.Pointing(document)
      && FollowsInOrder(events, document, walk)
      && FoldSays.SpeakAnswered(document, FoldSays.Said(events))
      && FoldSays.AllHoldAnswered(document, FoldSays.SourcesOf(events).Closed().done)
  {
    StreamInStep(out);
    var events := CarriedAll(out);
    FoldLinks.TakenIsLinked(events);
    FoldSays.TextsSayTheStream(events);
    FoldSays.TablesHoldTheirRows(events);
    walk := WalkInOrder(events);
  }

  // ------------------------------------------------------------------ an XBRL instance

  /** The facts that a stream sent, as the fold takes them. */
  function FactsSent(out: seq<Stream.Event>): seq<FoldFacts.FactSent> {
    if out == [] then [] else FactsSent(out[..|out| - 1]) + FactFrom(out[|out| - 1])
  }

  function FactFrom(e: Stream.Event): seq<FoldFacts.FactSent> {
    if e.Fact? then [FoldFacts.FactSent(ColumnsOf(e.element, e.context, e.unit, e.value), Pairs(e.context))] else []
  }

  lemma CarriedFact(e: Stream.Event)
    ensures FoldFacts.FactIn(Carried(e)) == FactFrom(e)
  {
  }

  lemma FactsSnoc(events: seq<Event>, e: Event)
    ensures FoldFacts.FactsOf(events + [e]) == FoldFacts.FactsOf(events) + FoldFacts.FactIn(e)
  {
    assert (events + [e])[..|events|] == events;
  }

  lemma {:induction false} CarriedFacts(out: seq<Stream.Event>)
    ensures FoldFacts.FactsOf(CarriedAll(out)) == FactsSent(out)
    decreases |out|
  {
    if out != [] {
      var n := |out| - 1;
      CarriedFacts(out[..n]);
      FactsSnoc(CarriedAll(out[..n]), Carried(out[n]));
      CarriedFact(out[n]);
    }
  }

  /** Every fact an instance sends has its row in the document, with its concept, entity,
      period and unit as its own context and unit declare them, and its context cell
      points at the item that pairs its own axes with its members. */
  lemma InstanceIsStated(rules: Stream.Rules, root: Element, steps: seq<Step>) returns (at: nat)
    ensures var out := Stream.Parse(rules, root, steps).out;
      var document, facts := Taken(FoldAll(CarriedAll(out))), FactsSent(out);
      && |document.keyValues| == |FoldFacts.Dimensioned(facts)|
      && (facts != [] ==>
            && at < |document.tables| && |document.tables[at].grid| == 1 + |facts|
            && FoldFacts.Heads(document.tables[at].grid[0]))
      && (forall i :: 0 <= i < |facts| ==> FoldFacts.FactStated(document, at, facts, i))
  {
    CarriedFacts(Stream.Parse(rules, root, steps).out);
    at := FoldFacts.FactsAreStated(CarriedAll(Stream.Parse(rules, root, steps).out));
  }

  // ------------------------------------------------------------ no known vocabulary

  /** What the items of a generic reading ask of texts. */
  function SaidByPieces(pieces: seq<Generic.Piece>): seq<FoldSays.Saying> {
    seq(|pieces|, i requires 0 <= i < |pieces| => SayingOfPiece(pieces[i]))
  }

  /** The items of a reading label titles and paragraphs and carry no runs. */
  predicate PlainPieces(pieces: seq<Generic.Piece>) {
    forall i :: 0 <= i < |pieces| ==>
      pieces[i].item.kind in {Title, Paragraph} && pieces[i].item.spans == []
  }

  lemma {:induction false} PiecesArePlain(open: seq<string>, e: Element, kids: seq<Node>)
    ensures PlainPieces(Generic.Pieces(open, e, kids))
    decreases kids, 1
  {
    MixedIsPlain(open + [e.local], Generic.GenericSpec(open, e), e, kids, "", false);
  }

  lemma {:induction false} MixedIsPlain(
    open: seq<string>, spec: Stream.Spec, e: Element, kids: seq<Node>, run: string, cdata: bool)
    requires spec.kind in {Title, Paragraph}
    ensures PlainPieces(Generic.Mixed(open, spec, e, kids, run, cdata))
    decreases kids, 0
  {
    if kids != [] {
      if kids[0].Elem? {
        PiecesArePlain(open, kids[0].element, kids[0].kids);
        MixedIsPlain(open, spec, e, kids[1..], "", false);
      } else {
        MixedIsPlain(open, spec, e, kids[1..], run + Generic.MoreText(kids[0]),
                     cdata || (kids[0].Chars? && kids[0].cdata));
        assert run + "" == run;
      }
    }
  }

  lemma CarriedSnoc(out: seq<Stream.Event>, e: Stream.Event)
    ensures CarriedAll(out + [e]) == CarriedAll(out) + [Carried(e)]
  {
    assert (out + [e])[..|out|] == out;
  }

  lemma SaidSnoc(events: seq<Event>, e: Event)
    ensures FoldSays.Said(events + [e]) == FoldSays.Said(events) + FoldSays.SaidBy(e)
  {
    assert (events + [e])[..|events|] == events;
  }

  /** One more event of the pass says what its fold event says. */
  lemma CarriedSays(out: seq<Stream.Event>, e: Stream.Event, said: seq<FoldSays.Saying>)
    requires FoldSays.Said(CarriedAll(out)) == said
    ensures FoldSays.Said(CarriedAll(out + [e])) == said + FoldSays.SaidBy(Carried(e))
  {
    CarriedSnoc(out, e);
    SaidSnoc(CarriedAll(out), Carried(e));
  }

  function SayingOfPiece(piece: Generic.Piece): FoldSays.Saying {
    FoldSays.Saying(piece.item.kind, piece.item.text, [])
  }

  lemma PieceIsSaid(piece: Generic.Piece, n: nat)
    requires PlainPieces([piece])
    ensures FoldSays.SaidBy(Carried(Stream.Item(n, piece.item, false))) == [SayingOfPiece(piece)]
  {
    assert [piece][0] == piece;
  }

  function Announced(root: Element, pieces: seq<Generic.Piece>): seq<Stream.Event> {
    [Stream.Info(root)] + Generic.Numbered(pieces, 0)
  }

  lemma AnnouncedSnoc(root: Element, front: seq<Generic.Piece>, piece: Generic.Piece)
    ensures Announced(root, front + [piece]) == Announced(root, front) + [Stream.Item(|front|, piece.item, false)]
  {
  }

  lemma {:induction false} ReadingIsSaid(root: Element, pieces: seq<Generic.Piece>)
    requires PlainPieces(pieces)
    ensures FoldSays.Said(CarriedAll(Announced(root, pieces))) == SaidByPieces(pieces)
    decreases |pieces|
  {
    if pieces == [] {
      InfoSaysNothing(root);
    } else {
      var n := |pieces| - 1;
      var front, last := pieces[..n], pieces[n];
      assert pieces == front + [last];
      ReadingIsSaid(root, front);
      AnnouncedSnoc(root, front, last);
      CarriedSays(Announced(root, front), Stream.Item(n, last.item, false), SaidByPieces(front));
      PieceIsSaid(last, n);
      assert SaidByPieces(pieces) == SaidByPieces(front) + [SayingOfPiece(last)];
    }
  }

  lemma InfoSaysNothing(root: Element)
    ensures FoldSays.Said(CarriedAll(Announced(root, []))) == []
  {
    assert CarriedAll([]) == [] && Announced(root, []) == [] + [Stream.Info(root)];
    CarriedSays([], Stream.Info(root), []);
  }

  /** The texts of a document are the items of a reading. */
  predicate TextsAre(document: Document, pieces: seq<Generic.Piece>) {
    && |document.texts| == |pieces|
    && (forall i :: 0 <= i < |pieces| ==>
          document.texts[i].text == pieces[i].item.text && document.texts[i].kind == pieces[i].item.kind)
  }

  lemma SaidTextsAre(document: Document, pieces: seq<Generic.Piece>)
    requires FoldSays.SpeakAnswered(document, SaidByPieces(pieces))
    ensures TextsAre(document, pieces)
  {
    forall i | 0 <= i < |pieces|
      ensures document.texts[i].text == pieces[i].item.text && document.texts[i].kind == pieces[i].item.kind
    {
      assert FoldSays.SayingOf(document.texts[i]) == FoldSays.Answered(document.anchors, SaidByPieces(pieces)[i]);
    }
  }

  lemma TrailerSaysNothing(
    root: Element, pieces: seq<Generic.Piece>, counts: Stream.Counts, out: seq<Stream.Event>)
    requires PlainPieces(pieces) && out == Announced(root, pieces) + [Stream.Status(counts)]
    ensures FoldSays.Said(CarriedAll(out)) == SaidByPieces(pieces)
  {
    ReadingIsSaid(root, pieces);
    CarriedSays(Announced(root, pieces), Stream.Status(counts), SaidByPieces(pieces));
    assert SaidByPieces(pieces) + [] == SaidByPieces(pieces);
  }

  lemma EventsInDocument(events: seq<Event>, pieces: seq<Generic.Piece>)
    requires FoldSays.Said(events) == SaidByPieces(pieces)
    ensures TextsAre(Taken(FoldAll(events)), pieces)
  {
    FoldSays.TextsSayTheStream(events);
    SaidTextsAre(Taken(FoldAll(events)), pieces);
  }

  /** What a document of no known vocabulary makes the fold's events say. */
  lemma GenericSays(
    rules: Stream.Rules, root: Element, kids: seq<Node>, pieces: seq<Generic.Piece>,
    out: seq<Stream.Event>)
    requires Generic.IsGeneric(rules) && 1 + StreamBalance.Depth(kids) <= Stream.MAX_DEPTH && Clean(kids)
    requires pieces == Generic.Pieces([], root, kids) && out == Stream.Parse(rules, root, StepsOf(kids) + [End]).out
    ensures FoldSays.Said(CarriedAll(out)) == SaidByPieces(pieces)
  {
    var counts := Generic.Tally(1 + StreamBalance.Elements(kids), |pieces|);
    Generic.GenericRunIsReading(rules, root, kids);
    PiecesArePlain([], root, kids);
    TrailerSaysNothing(root, pieces, counts, out);
  }

  /** A document of no known vocabulary has one text for each item of the recursive
      reading of its tree, in order, and those that come from character data spell out
      all of it but whitespace. */
  lemma GenericDocumentSpellsItsTree(
    rules: Stream.Rules, root: Element, kids: seq<Node>, pieces: seq<Generic.Piece>,
    events: seq<Event>)
    requires Generic.IsGeneric(rules) && 1 + StreamBalance.Depth(kids) <= Stream.MAX_DEPTH && Clean(kids)
    requires pieces == Generic.Pieces([], root, kids)
    requires events == CarriedAll(Stream.Parse(rules, root, StepsOf(kids) + [End]).out)
    ensures TextsAre(Taken(FoldAll(events)), pieces)
    ensures Generic.Squeeze(Generic.OwnTexts(pieces)) == Generic.Squeeze(Generic.CharacterData(kids))
  {
    GenericSays(rules, root, kids, pieces, Stream.Parse(rules, root, StepsOf(kids) + [End]).out);
    EventsInDocument(events, pieces);
    Generic.NothingIsLost([], root, kids);
  }
}
