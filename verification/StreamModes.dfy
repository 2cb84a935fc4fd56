/** What every step of the forward pass keeps: at most one special thing is open, and
    all that is open lies within the open elements. */
module StreamModes {
  import opened Wrappers
  import opened Collapse
  import opened Xml
  import opened Flatten
  import opened Records
  import opened Stream

  // ------------------------------------------------------------------- one mode

  function Count(b: bool): nat {
    if b then 1 else 0
  }

  predicate AtMostOneOpen(s: State) {
    Count(s.island.Some?) + Count(s.capture.Some?) + Count(s.fact.Some?) + Count(s.table.Some?) <= 1
  }

  /** Where what is open began: inside the root, at or above the top of the stack. */
  predicate Deep(depth: nat, s: State) {
    2 <= depth <= |s.stack|
  }

  /** Some element open between two depths is a row. */
  predicate RowOpen(stack: seq<Frame>, lo: nat, hi: nat) {
    exists i :: lo <= i < hi && i < |stack| && stack[i].local in ROW_ELEMENTS
  }

  /** The depth a row of the table is open above: that of the open cell, if any. */
  function RowTop(t: TableBuild, stack: seq<Frame>): nat {
    if t.cell.Some? && t.cell.value.depth > 0 then t.cell.value.depth - 1 else |stack|
  }

  predicate TablePlaced(s: State, t: TableBuild) {
    && Deep(t.depth, s)
    && s.stack[t.depth - 1].local !in HEADER_SECTION_ELEMENTS
    && (t.cell.Some? ==> t.depth < t.cell.value.depth <= |s.stack|)
    && (t.row.Some? ==> RowOpen(s.stack, t.depth, RowTop(t, s.stack)))
  }

  /** The open elements are counted, and what is open lies within them. */
  predicate Placed(s: State) {
    && s.openElements == |s.stack| + s.skipping
    && (s.progress == Running ==> s.stack != [])
    && (s.skipping > 0 ==> s.island.None? && s.capture.None? && s.fact.None? && s.table.None?)
    && (s.kept.record.Some? ==> s.skipping > 0)
    && (s.island.Some? ==> Deep(s.island.value.depth, s))
    && (s.capture.Some? ==> Deep(s.capture.value.depth, s))
    && (s.fact.Some? ==> Deep(s.fact.value.depth, s))
    && (s.table.Some? ==> TablePlaced(s, s.table.value))
  }

  /** Nothing is open when the pass is over. */
  predicate Over(s: State) {
    s.progress == Closed ==>
      && s.stack == [] && s.pending.None?
      && s.island.None? && s.capture.None? && s.fact.None? && s.table.None? && s.kept.record.None?
  }

  /** A caption that waits: its wrapper is open, and outside whatever else is. */
  predicate Waiting(s: State) {
    s.pending.Some? ==>
      var depth := s.pending.value.wrapperDepth;
      && 1 <= depth <= |s.stack|
      && s.table.None?
      && (s.island.Some? ==> depth < s.island.value.depth)
      && (s.capture.Some? ==> depth < s.capture.value.depth)
      && (s.fact.Some? ==> depth < s.fact.value.depth)
  }

  predicate Modes(s: State) {
    AtMostOneOpen(s) && Placed(s) && Over(s) && Waiting(s)
  }

  /** A table element is never itself a header section. */
  ghost predicate Sane(rules: Rules) {
    forall open: seq<string>, e: Element :: rules.action(open, e).Table? ==> e.local !in HEADER_SECTION_ELEMENTS
  }

  /** Nothing special is open. */
  predicate Plain(s: State) {
    s.island.None? && s.capture.None? && s.fact.None? && s.table.None? && s.skipping == 0 && s.progress == Running
  }

  /** A row stays open as long as its frame stays where it is. */
  lemma RowStaysOpen(stack: seq<Frame>, stack': seq<Frame>, lo: nat, hi: nat, hi': nat)
    requires RowOpen(stack, lo, hi)
    requires forall i :: lo <= i < hi && i < |stack| && stack[i].local in ROW_ELEMENTS ==>
      i < hi' && i < |stack'| && stack'[i].local == stack[i].local
    ensures RowOpen(stack', lo, hi')
  {
    var i :| lo <= i < hi && i < |stack| && stack[i].local in ROW_ELEMENTS;
    assert stack'[i].local in ROW_ELEMENTS;
  }

  lemma FlushPendingModes(s: State)
    requires Modes(s)
    ensures Modes(FlushPending(s)) && FlushPending(s).pending.None?
    ensures FlushPending(s).(index := s.index, counts := s.counts, out := s.out, pending := s.pending) == s
  {
  }

  lemma FlushOwnModes(s: State, closing: bool)
    requires Modes(s) && Plain(s)
    ensures Modes(FlushOwn(s, closing)) && Plain(FlushOwn(s, closing)) && |FlushOwn(s, closing).stack| == |s.stack|
    ensures FlushOwn(s, closing).pending == s.pending
  {
  }

  /** The state a start tag is handled in: its element is counted and not yet on
      the stack. */
  predicate JustCounted(s: State) {
    Modes(s.(openElements := |s.stack| + s.skipping)) && s.openElements == |s.stack| + 1 && s.skipping == 0
      && s.progress == Running
  }

  lemma AttributeItemModes(rules: Rules, s: State, kind: Label, role: string, attr: string, e: Element)
    requires JustCounted(s) && Plain(s)
    ensures Modes(AttributeItem(rules, s, kind, role, attr, e))
  {
    var t := Push(s, e);
    assert Modes(t);
    FlushPendingModes(t);
  }

  lemma BeginTableModes(s: State, e: Element)
    requires JustCounted(s) && Plain(s) && e.local !in HEADER_SECTION_ELEMENTS
    ensures Modes(BeginTable(Push(s, e), e))
  {
  }

  lemma MappedModes(rules: Rules, s: State, e: Element)
    requires Sane(rules) && JustCounted(s) && Plain(s)
    ensures Modes(Mapped(rules, s, e))
  {
    hide BeginTable, AttributeItem;
    var action := rules.action(s.Open(), e);
    if action.AttrText? {
      AttributeItemModes(rules, s, action.kind, action.role, action.attr, e);
    } else if action.Table? {
      BeginTableModes(s, e);
    }
  }

  lemma PlainStartModes(rules: Rules, s: State, e: Element)
    requires Sane(rules) && JustCounted(s) && Plain(s)
    ensures Modes(PlainStart(rules, s, e))
  {
    var b := s.(openElements := |s.stack|);
    FlushOwnModes(b, false);
    assert FlushOwn(s, false) == FlushOwn(b, false).(openElements := s.openElements);
    MappedModes(rules, FlushOwn(s, false), e);
  }

  lemma TableChildModes(rules: Rules, s: State, e: Element)
    requires JustCounted(s) && s.table.Some?
    ensures Modes(TableChild(rules, s, s.table.value, e))
  {
    var t, u := s.table.value, TableChild(rules, s, s.table.value, e);
    assert u.stack[|s.stack|].local == e.local;
    if t.row.Some? {
      RowStaysOpen(s.stack, u.stack, t.depth, RowTop(t, s.stack), RowTop(u.table.value, u.stack));
    }
  }

  lemma OnStartModes(rules: Rules, s: State, e: Element)
    requires Sane(rules) && JustCounted(s)
    ensures Modes(OnStart(rules, s, e))
  {
    if s.island.Some? || s.capture.Some? || s.fact.Some? {
    } else if s.table.Some? {
      TableChildModes(rules, s, e);
    } else if !rules.xbrl {
      PlainStartModes(rules, s, e);
    }
  }

  /** The state an end tag is handled in: its element is still on the stack. */
  predicate Discounted(s: State) {
    Modes(s.(openElements := s.openElements + 1)) && s.skipping == 0 && s.progress == Running
  }

  lemma PlainEndModes(s: State)
    requires Discounted(s) && Plain(s)
    ensures Modes(PlainEnd(s))
  {
  }

  lemma CaptureEndModes(s: State)
    requires Discounted(s) && s.capture.Some?
    ensures Modes(CaptureEnd(s, s.capture.value))
  {
  }

  lemma TableCloseModes(s: State)
    requires Discounted(s) && s.table.Some?
    ensures Modes(Pop(TableClose(s, s.table.value)))
  {
    if s.table.value.cell.Some? {
      CellCloseModes(s, s.table.value);
    } else {
      StructureCloseModes(s, s.table.value);
    }
  }

  lemma CellCloseModes(s: State, t: TableBuild)
    requires Discounted(s) && s.table == Some(t) && t.cell.Some?
    ensures Modes(Pop(TableClose(s, t)))
  {
    var u := Pop(TableClose(s, t));
    if t.row.Some? {
      RowStaysOpen(s.stack, u.stack, t.depth, RowTop(t, s.stack), RowTop(u.table.value, u.stack));
    }
  }

  /** A row ends: no row is open in its table. */
  lemma RowCloseModes(s: State, t: TableBuild, row: Row)
    requires Discounted(s) && s.table == Some(t) && t.cell.None? && t.row == Some(row) && |s.stack| > t.depth
    ensures Modes(Pop(FinishRow(s, t, row)))
  {
  }

  /** A header section ends, or the table, or an element of no meaning to it. */
  lemma OtherCloseModes(s: State, t: TableBuild, u: State)
    requires Discounted(s) && s.table == Some(t) && t.cell.None? && u == Pop(TableClose(s, t))
    requires !(s.stack != [] && s.stack[|s.stack| - 1].local in ROW_ELEMENTS && t.row.Some?)
    ensures Modes(u)
  {
    hide FinishRow;
    if u.table.Some? && u.table.value.row.Some? {
      RowStaysOpen(s.stack, u.stack, t.depth, RowTop(t, s.stack), RowTop(u.table.value, u.stack));
    }
  }

  lemma RowElementCloses(s: State, t: TableBuild)
    requires s.table == Some(t) && t.cell.None? && t.row.Some? && s.stack != []
    requires s.stack[|s.stack| - 1].local in ROW_ELEMENTS
    ensures TableClose(s, t) == FinishRow(s, t, t.row.value)
  {
  }

  lemma StructureCloseModes(s: State, t: TableBuild)
    requires Discounted(s) && s.table == Some(t) && t.cell.None?
    ensures Modes(Pop(TableClose(s, t)))
  {
    hide TableClose, FinishRow, Modes;
    if s.stack != [] && s.stack[|s.stack| - 1].local in ROW_ELEMENTS && t.row.Some? {
      RowOpenBelow(s, t);
      RowElementCloses(s, t);
      RowCloseModes(s, t, t.row.value);
    } else {
      OtherCloseModes(s, t, Pop(TableClose(s, t)));
    }
  }

  /** An open row lies below its table's own element. */
  lemma RowOpenBelow(s: State, t: TableBuild)
    requires Discounted(s) && s.table == Some(t) && t.cell.None? && t.row.Some?
    ensures |s.stack| > t.depth
  {
  }

  lemma OnEndModes(s: State)
    requires Discounted(s)
    ensures Modes(OnEnd(s))
  {
    if s.island.Some? {
    } else if s.capture.Some? {
      CaptureEndModes(s);
    } else if s.fact.Some? {
    } else if s.table.Some? {
      TableCloseModes(s);
    } else {
      PlainEndModes(s);
    }
  }

  lemma AppendOwnModes(s: State, text: string, cdata: bool)
    requires Modes(s) && s.progress == Running
    ensures Modes(AppendOwn(s, text, cdata))
  {
    var u := AppendOwn(s, text, cdata);
    if s.table.Some? && s.table.value.row.Some? {
      RowStaysOpen(s.stack, u.stack, s.table.value.depth, RowTop(s.table.value, s.stack),
        RowTop(u.table.value, u.stack));
    }
  }

  lemma OnTextModes(s: State, text: string, cdata: bool)
    requires Modes(s) && s.progress == Running
    ensures Modes(OnText(s, text, cdata))
  {
    hide AppendOwn;
    AppendOwnModes(s, text, cdata);
  }

  lemma UnmappedStartModes(s: State, e: Element)
    requires Modes(s) && s.progress == Running && s.skipping > 0
    ensures Modes(Noted(CountUnmapped(s), Start(e)).(skipping := s.skipping + 1))
  {
  }

  lemma StartStepModes(rules: Rules, s: State, e: Element)
    requires Sane(rules) && Modes(s) && s.progress == Running
    ensures Modes(OnStep(rules, s, Start(e)))
  {
    if s.openElements < MAX_DEPTH && s.skipping == 0 {
      assert JustCounted(CountElement(s));
      OnStartModes(rules, CountElement(s), e);
    } else if s.openElements < MAX_DEPTH {
      UnmappedStartModes(s, e);
    }
  }

  lemma EndUnmappedModes(s: State)
    requires Modes(s) && s.progress == Running && s.skipping == 1
    ensures Modes(EndUnmapped(UncountElement(s)))
  {
  }

  lemma EndStepModes(rules: Rules, s: State)
    requires Modes(s) && s.progress == Running
    ensures Modes(OnStep(rules, s, End))
  {
    if s.skipping == 0 {
      var t := UncountElement(s);
      assert t.(openElements := t.openElements + 1) == s;
      OnEndModes(t);
    } else if s.skipping == 1 {
      EndUnmappedModes(s);
    }
  }

  lemma NotedModes(s: State, step: Step)
    requires Modes(s) && s.progress == Running && s.skipping > 0
    ensures Modes(Noted(s, step))
  {
  }

  lemma OtherStepModes(rules: Rules, s: State, step: Step)
    requires Modes(s) && s.progress == Running && !step.Start? && !step.End?
    ensures Modes(OnStep(rules, s, step))
  {
    if s.skipping > 0 {
      NotedModes(s, step);
    } else if step.Text? {
      OnTextModes(s, step.text, false);
    } else if step.CData? {
      OnTextModes(s, step.text, true);
    } else if step.GeneralRef? {
      OnTextModes(s, ReferenceText(step.name, step.resolved), false);
    }
  }

  /** Every step, in any order, keeps the modes apart and in place. */
  lemma OnStepModes(rules: Rules, s: State, step: Step)
    requires Sane(rules) && Modes(s)
    ensures Modes(OnStep(rules, s, step))
  {
    if s.progress == Running {
      if step.Start? {
        StartStepModes(rules, s, step.element);
      } else if step.End? {
        EndStepModes(rules, s);
      } else {
        OtherStepModes(rules, s, step);
      }
    }
  }

  lemma {:induction false} OnStepsModes(rules: Rules, s: State, steps: seq<Step>)
    requires Sane(rules) && Modes(s)
    ensures Modes(OnSteps(rules, s, steps))
    decreases |steps|
  {
    if steps != [] {
      OnStepModes(rules, s, steps[0]);
      OnStepsModes(rules, OnStep(rules, s, steps[0]), steps[1..]);
    }
  }

  lemma BeginModes(rules: Rules, root: Element)
    ensures Modes(Begin(rules, root))
  {
  }
}
