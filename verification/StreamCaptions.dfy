/** Captions are conserved: each one captured is delivered once, with a table or on
    its own. */
module StreamCaptions {
  import opened Wrappers
  import opened Collapse
  import opened Xml
  import opened Flatten
  import opened Records
  import opened Stream
  import opened StreamModes

  /** The captions a stream delivers, with a table or on their own, in order. */
  function Delivered(out: seq<Event>): seq<string> {
    if out == [] then [] else Delivered(out[..|out| - 1]) + DeliveredBy(out[|out| - 1])
  }

  function DeliveredBy(e: Event): seq<string> {
    match e
    case TableStart(_, _, caption, _) => if caption.Some? then [caption.value] else []
    case Item(_, item, waited) => if waited then [item.text] else []
    case _ => []
  }

  /** The caption an end tag finishes capturing, if it does and it is not blank. */
  function CapturedAt(s: State, c: CaptureBuild): seq<string> {
    if c.isCaption && |s.stack| == c.depth && Collapsed(c.flow.text) != "" then [Collapsed(c.flow.text)] else []
  }

  /** The caption a step finishes capturing. */
  function Captured(s: State, step: Step): seq<string> {
    if s.progress == Running && s.skipping == 0 && step.End? && s.island.None? && s.capture.Some?
    then CapturedAt(s, s.capture.value)
    else []
  }

  function AllCaptured(rules: Rules, s: State, steps: seq<Step>): seq<string>
    decreases |steps|
  {
    if steps == [] then [] else Captured(s, steps[0]) + AllCaptured(rules, OnStep(rules, s, steps[0]), steps[1..])
  }

  function Held(s: State): seq<string> {
    if s.pending.Some? then [s.pending.value.text] else []
  }

  /** Delivered and still held, in order. */
  function Accounted(s: State): seq<string> {
    Delivered(s.out) + Held(s)
  }

  lemma DeliveredSnoc(out: seq<Event>, e: Event)
    ensures Delivered(out + [e]) == Delivered(out) + DeliveredBy(e)
  {
    assert (out + [e])[..|out|] == out;
  }

  /** Steps that send nothing and leave the waiting caption alone. */
  predicate Untouched(s: State, t: State) {
    t.out == s.out && t.pending == s.pending
  }

  /** An event that is no caption goes out; the waiting caption goes on waiting. */
  lemma SentAside(s: State, t: State, e: Event)
    requires t.out == s.out + [e] && DeliveredBy(e) == [] && t.pending == s.pending
    ensures Accounted(t) == Accounted(s)
  {
    DeliveredSnoc(s.out, e);
    assert Delivered(s.out) + [] == Delivered(s.out);
  }

  lemma FlushPendingAccounts(s: State)
    ensures Accounted(FlushPending(s)) == Accounted(s) == Delivered(FlushPending(s).out)
  {
    var t := FlushPending(s);
    if s.pending.Some? {
      DeliveredSnoc(s.out, t.out[|s.out|]);
    }
  }

  lemma EmitItemAccounts(s: State, item: TextItem)
    ensures Delivered(EmitItem(s, item, false).out) == Delivered(s.out)
  {
    DeliveredSnoc(s.out, Item(s.index, item, false));
  }

  lemma FlushOwnAccounts(s: State, closing: bool)
    ensures Accounted(FlushOwn(s, closing)) == Accounted(s) && FlushOwn(s, closing).pending == s.pending
  {
    var t := FlushOwn(s, closing);
    if t.out != s.out {
      DeliveredSnoc(s.out, t.out[|s.out|]);
    }
  }

  lemma BeginTableAccounts(s: State, e: Element)
    ensures Accounted(BeginTable(s, e)) == Accounted(s)
  {
    var caption := if s.pending.Some? then Some(s.pending.value.text) else None;
    DeliveredSnoc(s.out, TableStart(s.index, s.counts.tables + 1, caption, e));
  }

  lemma AttributeItemAccounts(rules: Rules, s: State, kind: Label, role: string, attr: string, e: Element)
    ensures Accounted(AttributeItem(rules, s, kind, role, attr, e)) == Accounted(s)
  {
    var t := Push(s, e);
    var u := if rules.doclang && kind.Picture? then FlushPending(t) else t;
    var text := if e.Get(attr).Some? then Collapsed(e.Get(attr).value) else "";
    assert Accounted(u) == Accounted(t) by {
      FlushPendingAccounts(t);
    }
    assert Accounted(t) == Accounted(s) by {
      assert Untouched(s, t);
    }
    if text != "" {
      SentAside(u, AttributeItem(rules, s, kind, role, attr, e),
                Item(u.index, TextItem(kind, role, text, None, None, e, [], None, false), false));
    }
  }

  lemma MappedAccounts(rules: Rules, s: State, e: Element)
    ensures Accounted(Mapped(rules, s, e)) == Accounted(s)
  {
    var action := rules.action(s.Open(), e);
    if action.Table? {
      BeginTableAccounts(Push(s, e), e);
    } else if action.AttrText? {
      AttributeItemAccounts(rules, s, action.kind, action.role, action.attr, e);
    } else {
      assert Untouched(s, Mapped(rules, s, e));
    }
  }

  lemma OnStartAccounts(rules: Rules, s: State, e: Element)
    ensures Accounted(OnStart(rules, s, e)) == Accounted(s)
  {
    if s.island.None? && s.capture.None? && s.fact.None? && s.table.None? && !rules.xbrl {
      var t := FlushOwn(s, false);
      FlushOwnAccounts(s, false);
      if rules.islands && e.namespace == NS_XHTML {
        assert Untouched(t, BeginIsland(t, e));
      } else {
        MappedAccounts(rules, t, e);
      }
    } else {
      assert Untouched(s, OnStart(rules, s, e));
    }
  }

  lemma FinishCaptureAccounts(s: State, c: CaptureBuild)
    ensures Accounted(FinishCapture(s, c)) ==
      Accounted(s) + if c.isCaption && Collapsed(c.flow.text) != "" then [Collapsed(c.flow.text)] else []
  {
    var (text, spans) := Finished(c.flow);
    var t := s.(capture := None);
    FlushPendingAccounts(t);
    EmitItemAccounts(t, TextItem(
      c.spec.kind, c.spec.role, text, c.spec.level, c.spec.ordinal, c.element, spans, c.list, c.fromCdata));
  }

  lemma FinishRowAccounts(s: State, t: TableBuild, row: Row)
    ensures Accounted(FinishRow(s, t, row)) == Accounted(s)
  {
    if row.cells != [] {
      SentAside(s, FinishRow(s, t, row),
                TableRow(t.reference, t.rowIndex, row.isHeader || AllHeaders(row.cells), row.cells));
    }
  }

  lemma FinishTableAccounts(s: State, t: TableBuild)
    ensures Accounted(FinishTable(s, t)) == Accounted(s)
  {
    SentAside(s, FinishTable(s, t), TableEnd(t.reference, t.rowIndex, t.columnCount, t.columns));
  }

  lemma TableCloseAccounts(s: State, t: TableBuild)
    ensures Accounted(TableClose(s, t)) == Accounted(s)
  {
    var u := TableClose(s, t);
    if !Untouched(s, u) {
      if t.row.Some? && u == FinishRow(s, t, t.row.value) {
        FinishRowAccounts(s, t, t.row.value);
      } else {
        FinishTableAccounts(s, t);
      }
    }
  }

  lemma IslandEndAccounts(s: State, i: IslandBuild)
    ensures Accounted(IslandEnd(s, i)) == Accounted(s)
  {
    if |s.stack| == i.depth {
      SentAside(s, IslandEnd(s, i), Island(s.index, i.element, Collapsed(i.text + " ")));
    }
  }

  lemma FactEndAccounts(s: State, f: FactBuild)
    ensures Accounted(FactEnd(s, f)) == Accounted(s)
  {
    if |s.stack| == f.depth {
      SentAside(s, FactEnd(s, f), Fact(f.index, f.element, f.context, f.unit, Collapsed(f.text)));
    }
  }

  lemma PlainEndAccounts(s: State)
    ensures Accounted(PlainEnd(s)) == Accounted(s)
  {
    FlushPendingAccounts(s);
    var t := if s.pending.Some? && |s.stack| == s.pending.value.wrapperDepth then FlushPending(s) else s;
    FlushOwnAccounts(t, true);
    assert Untouched(FlushOwn(t, true), PlainEnd(s));
  }

  lemma CaptureEndAccounts(s: State, c: CaptureBuild)
    requires s.capture == Some(c)
    ensures Accounted(CaptureEnd(s, c)) == Accounted(s) + CapturedAt(s, c)
  {
    if |s.stack| == c.depth {
      FinishCaptureAccounts(s, c);
      assert Untouched(FinishCapture(s, c), CaptureEnd(s, c));
    } else {
      assert Untouched(s, CaptureEnd(s, c));
    }
  }

  lemma OnEndAccounts(s: State)
    ensures Accounted(OnEnd(s)) == Accounted(s) +
      if s.island.None? && s.capture.Some? then CapturedAt(s, s.capture.value) else []
  {
    if s.island.Some? {
      IslandEndAccounts(s, s.island.value);
    } else if s.capture.Some? {
      CaptureEndAccounts(s, s.capture.value);
    } else if s.fact.Some? {
      FactEndAccounts(s, s.fact.value);
    } else if s.table.Some? {
      TableCloseAccounts(s, s.table.value);
      assert Untouched(TableClose(s, s.table.value), OnEnd(s));
    } else {
      PlainEndAccounts(s);
    }
  }

  lemma OnTextUntouched(s: State, text: string, cdata: bool)
    ensures Untouched(s, OnText(s, text, cdata))
  {
  }

  /** Events with no caption among them go out one after another. */
  lemma {:induction false} AllSentAside(s: State, t: State, events: seq<Event>)
    requires t.out == s.out + events && t.pending == s.pending
    requires forall i :: 0 <= i < |events| ==> DeliveredBy(events[i]) == []
    ensures Accounted(t) == Accounted(s)
    decreases |events|
  {
    if events == [] {
      assert Untouched(s, t);
    } else {
      var n := |events| - 1;
      var k := t.(out := s.out + events[..n]);
      AllSentAside(s, k, events[..n]);
      assert t.out == k.out + [events[n]];
      SentAside(k, t, events[n]);
    }
  }

  lemma EndUnmappedAccounts(s: State)
    ensures Accounted(EndUnmapped(s)) == Accounted(s)
  {
    var t := EndUnmapped(s);
    if s.kept.record.Some? && s.kept.record.value.kind.NoteRecord? {
      AllSentAside(s, t, NoteItems(NotesOf(s.kept.record.value.kind.footnote, s.kept.record.value.read)));
    } else if s.kept.record.Some? && s.kept.record.value.kind.MetaRecord? {
      var r := s.kept.record.value;
      SentAside(s, t, MetaItem(r.element, r.kind.shape, TreeOf(r.read)));
    } else {
      assert Untouched(s, t);
    }
  }

  lemma EndStepAccounts(rules: Rules, s: State)
    ensures Accounted(OnStep(rules, s, End)) == Accounted(s) + Captured(s, End)
  {
    if s.progress == Running {
      assert Untouched(s, UncountElement(s));
      if s.skipping == 0 {
        OnEndAccounts(UncountElement(s));
      } else if s.skipping == 1 {
        EndUnmappedAccounts(UncountElement(s));
      } else {
        assert Untouched(UncountElement(s), OnStep(rules, s, End));
      }
    }
  }

  lemma StartStepAccounts(rules: Rules, s: State, e: Element)
    ensures Accounted(OnStep(rules, s, Start(e))) == Accounted(s)
  {
    if s.progress == Running && s.openElements < MAX_DEPTH && s.skipping == 0 {
      assert Untouched(s, CountElement(s));
      OnStartAccounts(rules, CountElement(s), e);
    } else {
      assert Untouched(s, OnStep(rules, s, Start(e)));
    }
  }

  /** No step loses, repeats or reorders a caption. */
  lemma OnStepAccounts(rules: Rules, s: State, step: Step)
    ensures Accounted(OnStep(rules, s, step)) == Accounted(s) + Captured(s, step)
  {
    if step.Start? {
      StartStepAccounts(rules, s, step.element);
    } else if step.End? {
      EndStepAccounts(rules, s);
    } else if step.Text? {
      OnTextUntouched(s, step.text, false);
    } else if step.CData? {
      OnTextUntouched(s, step.text, true);
    } else if step.GeneralRef? {
      OnTextUntouched(s, ReferenceText(step.name, step.resolved), false);
    }
  }

  lemma {:induction false} OnStepsAccount(rules: Rules, s: State, steps: seq<Step>)
    ensures Accounted(OnSteps(rules, s, steps)) == Accounted(s) + AllCaptured(rules, s, steps)
    decreases |steps|
  {
    if steps != [] {
      var t := OnStep(rules, s, steps[0]);
      OnStepAccounts(rules, s, steps[0]);
      OnStepsAccount(rules, t, steps[1..]);
    }
  }

  /** Captions are conserved: every caption captured on a finished run is delivered
      exactly once, in the order captured, as a table's caption or on its own. */
  lemma CaptionsAreConserved(rules: Rules, root: Element, steps: seq<Step>)
    requires Sane(rules)
    ensures var s := Parse(rules, root, steps);
      s.progress == Closed ==> Delivered(s.out) == AllCaptured(rules, Begin(rules, root), steps + [Eof])
  {
    var b := Begin(rules, root);
    BeginModes(rules, root);
    OnStepsModes(rules, b, steps + [Eof]);
    OnStepsAccount(rules, b, steps + [Eof]);
    var s := OnSteps(rules, b, steps + [Eof]);
    DeliveredSnoc([], Info(root));
    assert [] + [Info(root)] == [Info(root)];
    DeliveredSnoc(s.out, Status(s.counts));
  }

  /** A caption still waiting has its wrapper open around it, whatever happens; so
      it leaves no later than with its wrapper's end tag. */
  lemma WaitingCaptionsStayInside(rules: Rules, root: Element, steps: seq<Step>)
    requires Sane(rules)
    ensures var s := OnSteps(rules, Begin(rules, root), steps);
      s.pending.Some? ==> 1 <= s.pending.value.wrapperDepth <= |s.stack| && s.table.None?
    ensures AtMostOneOpen(OnSteps(rules, Begin(rules, root), steps))
  {
    BeginModes(rules, root);
    OnStepsModes(rules, Begin(rules, root), steps);
  }
}
