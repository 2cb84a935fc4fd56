/** What a finished run looks like from outside: numbering, table brackets, and a
    trailer that counts what was sent. */
module StreamOrder {
  import opened Basics
  import opened Wrappers
  import opened Collapse
  import opened Xml
  import opened Flatten
  import opened Records
  import opened Stream
  import opened StreamModes

  // --------------------------------------------------- the stream, read from outside

  datatype OpenTable = OpenTable(table: nat, rows: nat, width: nat)

  /** A consumer that counts: what it has been told so far, and whether every event
      came where the contract of the stream lets it come. */
  datatype Reader = Reader(ok: bool, next: nat, open: Option<OpenTable>, counts: Counts, started: bool, ended: bool)
  {
    /** Content comes after Info and before the trailer. */
    predicate Inside() {
      ok && started && !ended
    }

    /** An indexed event carries the number of indexed events before it, and none
        comes between a table's start and its end. */
    predicate Next(index: nat) {
      Inside() && open.None? && index == next
    }
  }

  /** The counts of what is sent: elements, contexts and units are read and not sent. */
  function Seen(counts: Counts): Counts {
    counts.(elements := 0, records := counts.records.(contexts := 0, units := 0))
  }

  const SILENCE := Reader(true, 0, None, NO_COUNTS, false, false)

  function Read(r: Reader, e: Event): Reader {
    match e
    case Info(_) => r.(ok := r.ok && !r.started, started := true)
    case Item(i, _, _) =>
      r.(ok := r.Next(i), next := r.next + 1, counts := r.counts.(textItems := r.counts.textItems + 1))
    case TableStart(i, n, _, _) =>
      r.(ok := r.Next(i) && n == r.counts.tables + 1, next := r.next + 1, open := Some(OpenTable(n, 0, 0)),
         counts := r.counts.(tables := r.counts.tables + 1))
    case TableRow(n, row, isHeader, cells) =>
      if r.open.None? then r.(ok := false)
      else
        var t := r.open.value;
        r.(ok := r.Inside() && n == t.table && row == t.rows && cells != [],
           open := Some(OpenTable(n, t.rows + 1, Max(t.width, RowWidth(cells)))),
           counts := r.counts.(tableRows := r.counts.tableRows + 1))
    case TableEnd(n, rowCount, columnCount, _) =>
      r.(ok := r.Inside() && r.open == Some(OpenTable(n, rowCount, columnCount)), open := None)
    case Fact(i, _, _, _, _) =>
      r.(ok := r.Next(i), next := r.next + 1, counts := r.counts.(facts := r.counts.facts + 1))
    case Island(i, _, _) =>
      r.(ok := r.Next(i), next := r.next + 1, counts := r.counts.(islands := r.counts.islands + 1))
    case MetaItem(_, _, _) =>
      var n := r.counts.records;
      r.(ok := r.Inside() && r.open.None?, counts := r.counts.(records := n.(metaItems := n.metaItems + 1)))
    case NoteItem(_) =>
      var n := r.counts.records;
      r.(ok := r.Inside() && r.open.None?, counts := r.counts.(records := n.(notes := n.notes + 1)))
    case Status(counts) =>
      r.(ok := r.Inside() && r.open.None? && Seen(counts) == r.counts, ended := true)
  }

  function ReadAll(out: seq<Event>): Reader {
    if out == [] then SILENCE else Read(ReadAll(out[..|out| - 1]), out[|out| - 1])
  }

  lemma ReadSnoc(out: seq<Event>, e: Event)
    ensures ReadAll(out + [e]) == Read(ReadAll(out), e)
  {
    assert (out + [e])[..|out|] == out;
  }

  /** The reader and the pass agree on everything they both know. */
  predicate Agree(s: State, r: Reader) {
    && r.Inside()
    && r.counts == Seen(s.counts)
    && r.next + Count(s.fact.Some?) == s.index
    && (s.fact.Some? ==> s.fact.value.index == r.next)
    && r.open ==
         if s.table.None? then None
         else Some(OpenTable(s.table.value.reference, s.table.value.rowIndex, s.table.value.columnCount))
  }

  predicate Orderly(s: State) {
    Agree(s, ReadAll(s.out))
  }

  lemma EmitItemOrderly(s: State, item: TextItem, waited: bool)
    requires Orderly(s) && s.fact.None? && s.table.None?
    ensures Orderly(EmitItem(s, item, waited))
  {
    ReadSnoc(s.out, Item(s.index, item, waited));
  }

  /** Only what the reader cannot see has changed. */
  predicate Unseen(s: State, t: State) {
    && t.out == s.out && t.index == s.index && Seen(t.counts) == Seen(s.counts)
    && t.fact.Some? == s.fact.Some?
    && (s.fact.Some? ==> t.fact.value.index == s.fact.value.index)
    && t.table.Some? == s.table.Some?
    && (s.table.Some? ==>
          && t.table.value.reference == s.table.value.reference && t.table.value.rowIndex == s.table.value.rowIndex
          && t.table.value.columnCount == s.table.value.columnCount)
  }

  lemma UnseenOrderly(s: State, t: State)
    requires Orderly(s) && Unseen(s, t)
    ensures Orderly(t)
  {
  }

  lemma FlushPendingOrderly(s: State)
    requires Orderly(s) && s.fact.None? && s.table.None?
    ensures Orderly(FlushPending(s))
    ensures FlushPending(s).fact.None? && FlushPending(s).table.None?
  {
    if s.pending.Some? {
      var p, t := s.pending.value, s.(pending := None);
      UnseenOrderly(s, t);
      EmitItemOrderly(
        t, TextItem(Document.Label.Caption, "", p.text, None, None, p.element, p.spans, None, p.fromCdata), true);
    }
  }

  lemma FlushOwnOrderly(s: State, closing: bool)
    requires Orderly(s) && s.fact.None? && s.table.None?
    ensures Orderly(FlushOwn(s, closing)) && FlushOwn(s, closing).fact.None? && FlushOwn(s, closing).table.None?
  {
    var t := FlushOwn(s, closing);
    if t.out == s.out {
      UnseenOrderly(s, t);
    } else {
      ReadSnoc(s.out, t.out[|s.out|]);
    }
  }

  lemma BeginTableOrderly(s: State, e: Element)
    requires Orderly(s) && s.fact.None? && s.table.None?
    ensures Orderly(BeginTable(s, e))
  {
    var caption := if s.pending.Some? then Some(s.pending.value.text) else None;
    ReadSnoc(s.out, TableStart(s.index, s.counts.tables + 1, caption, e));
  }

  lemma AttributeItemOrderly(rules: Rules, s: State, kind: Label, role: string, attr: string, e: Element)
    requires Orderly(s) && s.fact.None? && s.table.None?
    ensures Orderly(AttributeItem(rules, s, kind, role, attr, e))
  {
    var t := Push(s, e);
    UnseenOrderly(s, t);
    FlushPendingOrderly(t);
    var u := if rules.doclang && kind.Picture? then FlushPending(t) else t;
    var text := if e.Get(attr).Some? then Collapsed(e.Get(attr).value) else "";
    EmitItemOrderly(u, TextItem(kind, role, text, None, None, e, [], None, false), false);
  }

  lemma MappedOrderly(rules: Rules, s: State, e: Element)
    requires Orderly(s) && s.fact.None? && s.table.None?
    ensures Orderly(Mapped(rules, s, e))
  {
    var action := rules.action(s.Open(), e);
    if action.Table? {
      UnseenOrderly(s, Push(s, e));
      BeginTableOrderly(Push(s, e), e);
    } else if action.AttrText? {
      AttributeItemOrderly(rules, s, action.kind, action.role, action.attr, e);
    } else {
      UnseenOrderly(s, Mapped(rules, s, e));
    }
  }

  lemma OnStartOrderly(rules: Rules, s: State, e: Element)
    requires Orderly(s) && AtMostOneOpen(s)
    ensures Orderly(OnStart(rules, s, e))
  {
    if s.island.Some? || s.capture.Some? || s.fact.Some? || s.table.Some? || rules.xbrl {
      if !(s.island.None? && s.capture.None? && s.fact.None? && s.table.None? && ReadingOf(e).ReadFact?) {
        UnseenOrderly(s, OnStart(rules, s, e));
      }
    } else {
      FlushOwnOrderly(s, false);
      var t := FlushOwn(s, false);
      if rules.islands && e.namespace == NS_XHTML {
        UnseenOrderly(t, BeginIsland(t, e));
      } else {
        MappedOrderly(rules, t, e);
      }
    }
  }

  lemma FinishCaptureOrderly(s: State, c: CaptureBuild)
    requires Orderly(s) && s.fact.None? && s.table.None?
    ensures Orderly(FinishCapture(s, c))
  {
    var (text, spans) := Finished(c.flow);
    var t := s.(capture := None);
    UnseenOrderly(s, t);
    FlushPendingOrderly(t);
    if text != "" {
      if c.isCaption {
        UnseenOrderly(FlushPending(t), FinishCapture(s, c));
      } else {
        var item := TextItem(
          c.spec.kind, c.spec.role, text, c.spec.level, c.spec.ordinal, c.element, spans, c.list, c.fromCdata);
        EmitItemOrderly(t, item, false);
      }
    }
  }

  lemma FinishRowOrderly(s: State, t: TableBuild, row: Row)
    requires Orderly(s) && s.fact.None? && s.table == Some(t)
    ensures Orderly(FinishRow(s, t, row))
  {
    if row.cells == [] {
      UnseenOrderly(s, FinishRow(s, t, row));
    } else {
      ReadSnoc(s.out, TableRow(t.reference, t.rowIndex, row.isHeader || AllHeaders(row.cells), row.cells));
    }
  }

  lemma FinishTableOrderly(s: State, t: TableBuild)
    requires Orderly(s) && s.fact.None? && s.table == Some(t)
    ensures Orderly(FinishTable(s, t))
  {
    ReadSnoc(s.out, TableEnd(t.reference, t.rowIndex, t.columnCount, t.columns));
  }

  /** What an end tag inside a table comes to. */
  lemma TableCloseCases(s: State, t: TableBuild)
    requires s.table == Some(t)
    ensures var u := TableClose(s, t);
      || Unseen(s, u)
      || (t.row.Some? && u == FinishRow(s, t, t.row.value))
      || u == FinishTable(s, t)
  {
  }

  lemma TableCloseOrderly(s: State, t: TableBuild)
    requires Orderly(s) && s.fact.None? && s.table == Some(t)
    ensures Orderly(TableClose(s, t))
  {
    var u := TableClose(s, t);
    TableCloseCases(s, t);
    if Unseen(s, u) {
      UnseenOrderly(s, u);
    } else if t.row.Some? && u == FinishRow(s, t, t.row.value) {
      FinishRowOrderly(s, t, t.row.value);
    } else {
      FinishTableOrderly(s, t);
    }
  }

  lemma IslandEndOrderly(s: State, i: IslandBuild)
    requires Orderly(s) && s.fact.None? && s.table.None? && s.island == Some(i)
    ensures Orderly(IslandEnd(s, i))
  {
    ReadSnoc(s.out, Island(s.index, i.element, Collapsed(i.text + " ")));
  }

  lemma FactEndOrderly(s: State, f: FactBuild)
    requires Orderly(s) && s.table.None? && s.fact == Some(f)
    ensures Orderly(FactEnd(s, f))
  {
    ReadSnoc(s.out, Fact(f.index, f.element, f.context, f.unit, Collapsed(f.text)));
  }

  lemma OnEndOrderly(s: State)
    requires Orderly(s) && AtMostOneOpen(s)
    ensures Orderly(OnEnd(s))
  {
    if s.island.Some? {
      IslandEndOrderly(s, s.island.value);
    } else if s.capture.Some? {
      var c := s.capture.value;
      if |s.stack| == c.depth {
        FinishCaptureOrderly(s, c);
        UnseenOrderly(FinishCapture(s, c), CaptureEnd(s, c));
      } else {
        UnseenOrderly(s, CaptureEnd(s, c));
      }
    } else if s.fact.Some? {
      FactEndOrderly(s, s.fact.value);
    } else if s.table.Some? {
      TableCloseOrderly(s, s.table.value);
      UnseenOrderly(TableClose(s, s.table.value), OnEnd(s));
    } else {
      FlushPendingOrderly(s);
      var t := if s.pending.Some? && |s.stack| == s.pending.value.wrapperDepth then FlushPending(s) else s;
      FlushOwnOrderly(t, true);
      UnseenOrderly(FlushOwn(t, true), PlainEnd(s));
    }
  }

  lemma OnTextUnseen(s: State, text: string, cdata: bool)
    ensures Unseen(s, OnText(s, text, cdata))
  {
  }

  lemma QuietStepUnseen(rules: Rules, s: State, step: Step)
    requires !step.Start? && !step.End?
    ensures Unseen(s, OnStep(rules, s, step))
  {
    if step.Text? {
      OnTextUnseen(s, step.text, false);
    } else if step.CData? {
      OnTextUnseen(s, step.text, true);
    } else if step.GeneralRef? {
      OnTextUnseen(s, ReferenceText(step.name, step.resolved), false);
    }
  }

  lemma StartStepOrderly(rules: Rules, s: State, e: Element)
    requires Orderly(s) && Modes(s) && s.progress == Running
    ensures Orderly(OnStep(rules, s, Start(e)))
  {
    var t := CountElement(s);
    UnseenOrderly(s, t);
    if s.openElements >= MAX_DEPTH {
      UnseenOrderly(s, Fail(s, Refused));
    } else if s.skipping > 0 {
      UnseenOrderly(s, OnStep(rules, s, Start(e)));
    } else {
      OnStartOrderly(rules, t, e);
    }
  }

  /** What a note link sends: its notes, none of them numbered. */
  lemma {:induction false} NotesOrderly(s: State, notes: seq<XbrlNote>)
    requires Orderly(s) && s.fact.None? && s.table.None?
    ensures var n := s.counts.records;
      Orderly(Keep(s, s.kept, n.(notes := n.notes + |notes|)).(out := s.out + NoteItems(notes)))
    decreases |notes|
  {
    if notes == [] {
      assert s.out + NoteItems(notes) == s.out;
    } else {
      var n := |notes| - 1;
      NotesOrderly(s, notes[..n]);
      assert s.out + NoteItems(notes) == s.out + NoteItems(notes[..n]) + [NoteItem(notes[n])];
      ReadSnoc(s.out + NoteItems(notes[..n]), NoteItem(notes[n]));
    }
  }

  lemma RecordOrderly(s: State, r: Record)
    requires Orderly(s) && s.fact.None? && s.table.None?
    ensures Orderly(FinishRecord(s, r))
  {
    var t := s.(kept := s.kept.(record := None));
    UnseenOrderly(s, t);
    if r.kind.NoteRecord? {
      NotesOrderly(t, NotesOf(r.kind.footnote, r.read));
    } else if r.kind.MetaRecord? {
      ReadSnoc(s.out, MetaItem(r.element, r.kind.shape, TreeOf(r.read)));
    } else {
      UnseenOrderly(s, FinishRecord(s, r));
    }
  }

  lemma SkippedEndOrderly(rules: Rules, s: State)
    requires Orderly(s) && Modes(s) && s.progress == Running && s.skipping > 0
    ensures Orderly(OnStep(rules, s, End))
  {
    var t := UncountElement(s).(skipping := 0);
    if s.skipping > 1 || s.kept.record.None? {
      UnseenOrderly(s, OnStep(rules, s, End));
    } else {
      UnseenOrderly(s, t);
      RecordOrderly(t, t.kept.record.value);
    }
  }

  lemma EndStepOrderly(rules: Rules, s: State)
    requires Orderly(s) && Modes(s) && s.progress == Running
    ensures Orderly(OnStep(rules, s, End))
  {
    if s.skipping > 0 {
      SkippedEndOrderly(rules, s);
    } else {
      HandledEndOrderly(s);
    }
  }

  lemma HandledEndOrderly(s: State)
    requires Orderly(s) && AtMostOneOpen(s)
    ensures Orderly(OnEnd(UncountElement(s)))
  {
    UnseenOrderly(s, UncountElement(s));
    OnEndOrderly(UncountElement(s));
  }

  lemma OnStepOrderly(rules: Rules, s: State, step: Step)
    requires Orderly(s) && Modes(s)
    ensures Orderly(OnStep(rules, s, step))
  {
    if s.progress == Running {
      if step.Start? {
        StartStepOrderly(rules, s, step.element);
      } else if step.End? {
        EndStepOrderly(rules, s);
      } else {
        QuietStepUnseen(rules, s, step);
        UnseenOrderly(s, OnStep(rules, s, step));
      }
    }
  }

  lemma {:induction false} OnStepsOrderly(rules: Rules, s: State, steps: seq<Step>)
    requires Sane(rules) && Modes(s) && Orderly(s)
    ensures Modes(OnSteps(rules, s, steps)) && Orderly(OnSteps(rules, s, steps))
    decreases |steps|
  {
    if steps != [] {
      OnStepModes(rules, s, steps[0]);
      OnStepOrderly(rules, s, steps[0]);
      OnStepsOrderly(rules, OnStep(rules, s, steps[0]), steps[1..]);
    }
  }

  /** A run up to its end, trailer or not, is content after Info. */
  lemma RunsAreOrderly(rules: Rules, root: Element, steps: seq<Step>)
    requires Sane(rules)
    ensures Modes(OnSteps(rules, Begin(rules, root), steps + [Eof]))
    ensures Orderly(OnSteps(rules, Begin(rules, root), steps + [Eof]))
  {
    BeginModes(rules, root);
    assert ReadAll([Info(root)]) == Read(ReadAll([]), Info(root));
    OnStepsOrderly(rules, Begin(rules, root), steps + [Eof]);
  }

  /** Every finished run, read from outside: Info, then content, then one trailer
      whose counts are those of the events sent; the k-th indexed event carries k;
      tables are numbered from one, and between a start and its end there are only
      its rows, numbered from zero, the end stating how many and how wide. */
  lemma FinishedRunsAreOrderly(rules: Rules, root: Element, steps: seq<Step>)
    requires Sane(rules)
    ensures var s := Parse(rules, root, steps); var r := ReadAll(s.out);
      s.progress == Closed ==>
        r.ok && r.ended && r.open.None? && r.next == s.index && r.counts == Seen(s.counts)
  {
    RunsAreOrderly(rules, root, steps);
    var s := OnSteps(rules, Begin(rules, root), steps + [Eof]);
    ReadSnoc(s.out, Status(s.counts));
  }
}
