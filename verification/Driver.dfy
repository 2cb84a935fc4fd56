/** The driver: a pass over the parser's steps that keeps its open elements and
    everything half read in fields it updates, proved against Stream. */
module Driver {
  import opened Basics
  import opened Wrappers
  import opened Collapse
  import opened Xml
  import opened Flatten
  import opened Records
  import opened Stream
  import opened StreamBalance
  import Document

  // ------------------------------------------------------------- runs and collapsing

  /** Flatten.CloseInnermost, computed by a search from the end of the list. */
  method CloseRun(spans: seq<SpanBuild>, depth: nat, at: nat) returns (r: seq<SpanBuild>)
    ensures r == CloseInnermost(spans, depth, at)
  {
    r := spans;
    var i := |spans|;
    assert spans[..i] == spans;
    while i > 0
      invariant 0 <= i <= |spans| && r == spans
      invariant CloseInnermost(spans, depth, at) == CloseInnermost(spans[..i], depth, at) + spans[i..]
    {
      var span := spans[i - 1];
      CloseLast(spans[..i], depth, at);
      assert spans[..i][..i - 1] == spans[..i - 1] && spans[..i][i - 1] == span;
      if span.end.None? && span.depth == depth {
        r := spans[i - 1 := span.(end := Some(at))];
        assert r == spans[..i - 1] + [span.(end := Some(at))] + spans[i..];
        return;
      }
      Assoc(CloseInnermost(spans[..i - 1], depth, at), [span], spans[i..]);
      assert [span] + spans[i..] == spans[i - 1..];
      i := i - 1;
    }
  }

  /** The last run either closes or is kept behind what the search finds before it. */
  lemma CloseLast(spans: seq<SpanBuild>, depth: nat, at: nat)
    requires spans != []
    ensures var n := |spans| - 1;
      CloseInnermost(spans, depth, at) ==
        if spans[n].end.None? && spans[n].depth == depth then spans[..n] + [spans[n].(end := Some(at))]
        else CloseInnermost(spans[..n], depth, at) + [spans[n]]
  {
  }

  /** Translate recorded runs onto the collapsed text; one that left no text goes. */
  method FinishRuns(spans: seq<SpanBuild>, text: string, positions: seq<Option<nat>>) returns (r: seq<InlineSpan>)
    ensures r == FinishSpans(spans, text, positions)
  {
    r := [];
    for i := 0 to |spans|
      invariant r == FinishSpans(spans[..i], text, positions)
    {
      var span := spans[i];
      assert spans[..i + 1][..i] == spans[..i];
      var range := CollapsedRange(positions, span.start, if span.end.Some? then span.end.value else |positions|);
      if range.Some? {
        var hyperlink := span.inline.hyperlink;
        if hyperlink.None? && span.inline.linkFromText.Some? {
          var run := Between(text, range.value.start, range.value.end);
          if run != "" {
            hyperlink := Some(span.inline.linkFromText.value + run);
          }
        }
        r := r + [InlineSpan(range.value, span.inline.styles, hyperlink, span.inline.references,
                             span.inline.referenceKind, span.element)];
      }
    }
    assert spans[..|spans|] == spans;
  }

  method FinishFlow(flow: Flow) returns (text: string, spans: seq<InlineSpan>)
    ensures (text, spans) == Finished(flow)
  {
    var positions;
    text, positions := CollapsePositions(flow.text);
    CollapsedIsJoinedWords(flow.text);
    spans := FinishRuns(flow.spans, text, positions);
  }

  /** A child's start tag inside a capture or cell: the word boundary it implies, and
      the run it opens if the dialect knows it and there is room. */
  method EnterFlow(flow: Flow, open: seq<string>, e: Element, rules: Rules) returns (f: Flow)
    ensures f == flow.Enter(open, e, rules.inline, rules.inlineSpans)
  {
    f := flow;
    if f.afterChild && f.text != "" && !IsWhitespace(f.text[|f.text| - 1]) {
      f := f.(text := f.text + " ", chars := f.chars + 1);
    }
    f := f.(afterChild := false);
    if rules.inlineSpans {
      var inline := rules.inline(open, e);
      if inline.Some? && |f.spans| < MAX_INLINE_SPANS {
        f := f.(spans := f.spans + [SpanBuild(|open| + 1, f.chars, None, inline.value, e)]);
      }
    }
  }

  method LeaveFlow(flow: Flow, depth: nat) returns (f: Flow)
    ensures f == flow.Close(depth)
  {
    var spans := CloseRun(flow.spans, depth, flow.chars);
    f := flow.(spans := spans, afterChild := true);
  }

  // ---------------------------------------------------------------- what is read off

  /** How many list containers are open and whether the innermost is ordered. */
  method ReadOpenList(stack: seq<Frame>) returns (list: Option<ListPlacement>)
    ensures list == OpenList(stack)
  {
    var depth, ordered := 0, false;
    for i := 0 to |stack|
      invariant OpenList(stack[..i]) == if depth > 0 then Some(ListPlacement(depth, ordered)) else None
    {
      assert stack[..i + 1][..i] == stack[..i];
      if stack[i].list.Some? {
        depth := depth + 1;
        ordered := stack[i].list.value;
      }
    }
    assert stack[..|stack|] == stack;
    list := if depth > 0 then Some(ListPlacement(depth, ordered)) else None;
  }

  method ReadSectionLevel(stack: seq<Frame>, sections: set<string>) returns (level: nat)
    ensures level == Max(SectionsOpen(stack, sections), 1)
  {
    var depth := 0;
    for i := 0 to |stack|
      invariant depth == SectionsOpen(stack[..i], sections)
    {
      assert stack[..i + 1][..i] == stack[..i];
      if stack[i].local in sections {
        depth := depth + 1;
      }
    }
    assert stack[..|stack|] == stack;
    level := if depth > 1 then depth else 1;
  }

  method RenderAttributes(e: Element) returns (text: Option<string>)
    ensures text == AttributeText(e)
  {
    var out := "";
    for i := 0 to |e.attrs|
      invariant out == AttributePairs(e.attrs[..i])
    {
      assert e.attrs[..i + 1][..i] == e.attrs[..i];
      var (name, value) := e.attrs[i];
      if name != "xmlns" && !("xmlns:" <= name) {
        out := out + (if out == "" then "" else " ") + name + "=\"" + value + "\"";
      }
    }
    assert e.attrs[..|e.attrs|] == e.attrs;
    text := if out == "" then None else Some(out);
  }

  /** The column a row reaches, and whether all its cells are header cells. */
  method MeasureRow(cells: seq<TableCell>) returns (width: nat, headers: bool)
    ensures width == RowWidth(cells) && headers == AllHeaders(cells)
  {
    width, headers := 0, true;
    for i := 0 to |cells|
      invariant width == RowWidth(cells[..i]) && headers == AllHeaders(cells[..i])
    {
      assert cells[..i + 1][..i] == cells[..i];
      var reach := SatU32(cells[i].columnIndex + cells[i].columnSpan);
      if reach > width {
        width := reach;
      }
      headers := headers && cells[i].isHeader;
    }
    assert cells[..|cells|] == cells;
  }

  /** The declared columns with those of one more element, up to the bound. */
  method DeclareColumns(columns: seq<ColumnSpec>, e: Element) returns (r: seq<ColumnSpec>)
    ensures r == AddColumns(columns, ColumnsDeclared(e))
  {
    var more := ColumnsDeclared(e);
    r := columns;
    var i := 0;
    while i < |more| && |r| < MAX_COLUMN_SPECS
      invariant 0 <= i <= |more| && r == columns + more[..i]
      invariant |columns| < MAX_COLUMN_SPECS ==> |r| <= MAX_COLUMN_SPECS
      invariant |columns| >= MAX_COLUMN_SPECS ==> r == columns
    {
      r := r + [more[i]];
      i := i + 1;
    }
    assert |columns| < MAX_COLUMN_SPECS ==> r == Take(columns + more, MAX_COLUMN_SPECS);
  }

  // ------------------------------------------------------------------- record readers

  lemma FoldSnoc<B>(f: (B, Step) -> B, b: B, read: seq<Step>, step: Step)
    ensures FoldSteps(f, b, read + [step]) == f(FoldSteps(f, b, read), step)
  {
    assert (read + [step])[..|read|] == read;
  }

  /** One step inside a context. */
  method ReadInContext(b: ContextBuild, step: Step) returns (r: ContextBuild)
    ensures r == ContextStep(b, step)
  {
    var context, path, text, dimension := b.context, b.path, b.text, b.dimension;
    match step {
      case Start(e) =>
        text := "";
        if e.local == "identifier" {
          context := context.(scheme := e.Get("scheme"));
        } else if e.local == "explicitMember" || e.local == "typedMember" {
          dimension := Some(Dimension(OrEmpty(e.Get("dimension")), None, None, "scenario" in path));
        }
        path := path + [e.local];
      case End =>
        var closing := "";
        if path != [] {
          closing := path[|path| - 1];
          path := path[..|path| - 1];
        }
        var value := CollapseText(text);
        CollapsedIsJoinedWords(text);
        text := "";
        if closing == "identifier" {
          context := context.(entity := Some(value));
        } else if closing == "explicitMember" || closing == "typedMember" {
          if dimension.Some? {
            var d := dimension.value;
            d := if closing == "typedMember" then d.(typedValue := Some(value)) else d.(member := Some(value));
            context := context.(dimensions := context.dimensions + [d]);
            dimension := None;
          }
        } else {
          context := context.(period := PeriodWith(context.period, closing, value));
        }
      case Text(chunk) =>
        text := text + chunk;
      case CData(chunk) =>
        text := text + chunk;
      case GeneralRef(_, resolved) =>
        if resolved.Some? {
          text := text + resolved.value;
        }
      case _ =>
    }
    r := ContextBuild(context, path, text, dimension);
  }

  method TakeContext(b: ContextBuild, step: Step, ghost e: Element, ghost read: seq<Step>) returns (r: ContextBuild)
    requires b == ContextAfter(e, read)
    ensures r == ContextAfter(e, if step.Ignorable? then read else read + [step])
  {
    r := ReadInContext(b, step);
    FoldSnoc(ContextStep, NewContext(OrEmpty(e.Get("id"))), read, step);
  }

  /** What the end of an element says about the period. */
  function PeriodWith(p: Period, closing: string, value: string): Period {
    match closing
    case "instant" => p.(instant := Some(value))
    case "startDate" => p.(startDate := Some(value))
    case "endDate" => p.(endDate := Some(value))
    case "forever" => p.(forever := true)
    case _ => p
  }

  /** One step inside a unit. */
  method ReadInUnit(b: UnitBuild, step: Step) returns (r: UnitBuild)
    ensures r == UnitStep(b, step)
  {
    var unit, path, text := b.unit, b.path, b.text;
    match step {
      case Start(e) =>
        text := "";
        path := path + [e.local];
      case End =>
        var closing := "";
        if path != [] {
          closing := path[|path| - 1];
          path := path[..|path| - 1];
        }
        var value := CollapseText(text);
        CollapsedIsJoinedWords(text);
        text := "";
        if closing == "measure" {
          if "unitNumerator" in path {
            unit := unit.(numerator := unit.numerator + [value]);
          } else if "unitDenominator" in path {
            unit := unit.(denominator := unit.denominator + [value]);
          } else {
            unit := unit.(measures := unit.measures + [value]);
          }
        }
      case Text(chunk) =>
        text := text + chunk;
      case CData(chunk) =>
        text := text + chunk;
      case GeneralRef(_, resolved) =>
        if resolved.Some? {
          text := text + resolved.value;
        }
      case _ =>
    }
    r := UnitBuild(unit, path, text);
  }

  method TakeUnit(b: UnitBuild, step: Step, ghost e: Element, ghost read: seq<Step>) returns (r: UnitBuild)
    requires b == UnitAfter(e, read)
    ensures r == UnitAfter(e, if step.Ignorable? then read else read + [step])
  {
    r := ReadInUnit(b, step);
    FoldSnoc(UnitStep, NewUnit(OrEmpty(e.Get("id"))), read, step);
  }

  /** One step inside a note link. */
  method ReadInLink(b: LinkBuild, step: Step) returns (r: LinkBuild)
    ensures r == LinkStep(b, step)
  {
    r := b;
    match step {
      case Start(e) =>
        r := r.(depth := r.depth + 1, elements := r.elements + 1);
        if r.elements <= MAX_NOTE_LINK_ELEMENTS && r.open.None? {
          var name := OrEmpty(e.Get("label"));
          if e.local == "loc" {
            r := r.(locators := r.locators + [(name, OrEmpty(e.Get("href")))]);
          } else if e.local == "footnoteArc" || e.local == "labelArc" {
            r := r.(arcs := r.arcs + [(OrEmpty(e.Get("from")), OrEmpty(e.Get("to")))]);
          } else if e.local == "footnote" || e.local == "label" {
            r := r.(open := Some((XbrlNote(r.footnote, name, e.Get("role"), e.Get("lang"), [], ""), r.depth)));
          }
        }
      case End =>
        r := r.(depth := if r.depth > 0 then r.depth - 1 else 0);
        if r.open.Some? && r.depth < r.open.value.1 {
          var note := r.open.value.0;
          var text := CollapseText(note.text);
          CollapsedIsJoinedWords(note.text);
          r := r.(notes := r.notes + [note.(text := text)], open := None);
        }
      case Text(chunk) =>
        r := NoteText(r, chunk);
      case CData(chunk) =>
        r := NoteText(r, chunk);
      case GeneralRef(_, resolved) =>
        if resolved.Some? {
          r := NoteText(r, resolved.value);
        } else {
          NothingNoted(r);
        }
      case _ =>
    }
  }

  method TakeLink(b: LinkBuild, step: Step, ghost footnote: bool, ghost read: seq<Step>) returns (r: LinkBuild)
    requires b == LinkAfter(footnote, read)
    ensures r == LinkAfter(footnote, if step.Ignorable? then read else read + [step])
  {
    r := ReadInLink(b, step);
    FoldSnoc(LinkStep, NewLink(footnote), read, step);
  }

  lemma NothingNoted(b: LinkBuild)
    ensures NoteText(b, "") == b
  {
    if b.open.Some? {
      assert b.open.value.0.text + "" == b.open.value.0.text;
    }
  }

  /** The first locator of a name, if there is one. */
  method FindLocator(locators: seq<(string, string)>, name: string) returns (found: seq<string>)
    ensures found == Locate(locators, name)
  {
    var j := 0;
    while j < |locators| && locators[j].0 != name
      invariant 0 <= j <= |locators|
      invariant Locate(locators, name) == Locate(locators[j..], name)
    {
      assert locators[j..][1..] == locators[j + 1..];
      j := j + 1;
    }
    found := if j < |locators| then [locators[j].1] else [];
  }

  /** Where the arcs into a note come from: the first locator each of them names. */
  method FindTargets(locators: seq<(string, string)>, arcs: seq<(string, string)>, name: string)
    returns (targets: seq<string>)
    ensures targets == TargetsOf(locators, arcs, name)
  {
    targets := [];
    for i := 0 to |arcs|
      invariant TargetsOf(locators, arcs, name) == targets + TargetsOf(locators, arcs[i..], name)
    {
      assert arcs[i..][1..] == arcs[i + 1..];
      if arcs[i].1 == name {
        var found := FindLocator(locators, arcs[i].0);
        Assoc(targets, found, TargetsOf(locators, arcs[i + 1..], name));
        targets := targets + found;
      }
    }
  }

  /** One step inside a metadata record. */
  method ReadInMeta(b: MetaBuild, step: Step) returns (r: MetaBuild)
    ensures r == MetaStep(b, step)
  {
    r := b;
    var n := |b.open|;
    match step {
      case Start(e) =>
        r := r.(elements := r.elements + 1);
        if r.elements <= MAX_META_ELEMENTS {
          r := r.(open := r.open + [Leaf(e, "")]);
        }
      case End =>
        if n > 0 {
          var leaf := b.open[n - 1];
          var text := CollapseText(leaf.text);
          CollapsedIsJoinedWords(leaf.text);
          var all := if text == "" then b.tree.text else AppendWords(b.tree.text, text);
          r := r.(tree := MetaTree(b.tree.leaves + [leaf.(text := text)], all), open := b.open[..n - 1]);
        }
      case Text(chunk) =>
        r := ReadMetaText(b, chunk);
      case CData(chunk) =>
        r := ReadMetaText(b, chunk);
      case GeneralRef(_, resolved) =>
        if resolved.Some? && n > 0 {
          r := r.(open := b.open[n - 1 := b.open[n - 1].(text := b.open[n - 1].text + resolved.value)]);
        } else {
          NothingRead(b);
        }
      case _ =>
    }
  }

  method TakeMeta(b: MetaBuild, step: Step, ghost read: seq<Step>) returns (r: MetaBuild)
    requires b == MetaAfter(read)
    ensures r == MetaAfter(if step.Ignorable? then read else read + [step])
  {
    r := ReadInMeta(b, step);
    FoldSnoc(MetaStep, NEW_META, read, step);
  }

  lemma NothingRead(b: MetaBuild)
    ensures MetaInner(b, "") == b
  {
    if b.open != [] {
      var n := |b.open| - 1;
      assert b.open[n].text + "" == b.open[n].text;
      assert b.open[n := b.open[n]] == b.open;
    }
  }

  function AppendWords(text: string, words: string): string {
    (if text == "" then "" else text + " ") + words
  }

  method ReadMetaText(b: MetaBuild, chunk: string) returns (r: MetaBuild)
    ensures r == MetaText(b, chunk)
  {
    r := b;
    var n := |b.open|;
    if n > 0 {
      r := r.(open := b.open[n - 1 := b.open[n - 1].(text := b.open[n - 1].text + chunk)]);
    } else {
      var words := CollapseText(chunk);
      CollapsedIsJoinedWords(chunk);
      if words != "" {
        r := r.(tree := r.tree.(text := AppendWords(r.tree.text, words)));
      }
    }
  }

  // --------------------------------------------------------------------- the driver

  /** What becomes of an element: it stays open, its subtree falls away, or it is read as
      a record. */
  datatype Fate = Stays | Falls | IsRead(kind: RecordKind)

  function Fated(s: State, fate: Fate, e: Element): State {
    match fate
    case Stays => s
    case Falls => s.(skipping := 1)
    case IsRead(kind) => BeginRecord(s, kind, e)
  }

  class Driver {
    const rules: Rules
    const steps: seq<Step>
    var pos: nat

    var stack: seq<Frame>
    var openElements: nat
    var capture: Option<CaptureBuild>
    var table: Option<TableBuild>
    var island: Option<IslandBuild>
    var fact: Option<FactBuild>
    var pending: Option<PendingCaption>
    var contexts: map<string, Context>
    var units: map<string, Unit>
    var index: nat
    var counts: Counts
    var out: seq<Event>

    /** How deep the pass is in a subtree it does not map, and what it has read of it if
        it reads it as a record. */
    ghost var skipping: nat
    ghost var record: Option<Record>

    ghost function View(progress: Progress): State
      reads this
    {
      State(stack, openElements, skipping, Kept(record, contexts, units), capture, table, island, fact, pending,
            index, counts, out, progress)
    }

    /** The pass is not inside a subtree that is not mapped. */
    ghost predicate Mapping()
      reads this
    {
      skipping == 0 && record.None?
    }

    ghost function Now(): State
      reads this
    {
      View(Running)
    }

    /** Read the root's start tag and announce it. */
    constructor (rules: Rules, root: Element, steps: seq<Step>)
      ensures this.rules == rules && this.steps == steps && pos == 0
      ensures Now() == Begin(rules, root)
    {
      this.rules := rules;
      this.steps := steps;
      pos := 0;
      openElements := 1;
      capture, table, island, fact, pending := None, None, None, None, None;
      contexts, units := map[], map[];
      index, counts, out, skipping, record := 0, NO_COUNTS.(elements := 1), [Info(root)], 0, None;
      stack := [];
      new;
      var own := NewOwnText(root);
      stack := [Frame(root.local, None, own)];
    }

    method NewOwnText(e: Element) returns (own: Option<OwnText>)
      ensures own == OwnTextFor(rules, Locals(stack), e)
    {
      var spec := rules.ownText(OpenNames(), e);
      if spec.None? {
        return None;
      }
      var attributes := RenderAttributes(e);
      own := Some(OwnText(spec.value, e, "", false, false, attributes));
    }

    function OpenNames(): seq<string>
      reads this
    {
      Locals(stack)
    }

    method PushFrame(e: Element)
      modifies `stack
      ensures Now() == Push(old(Now()), e)
    {
      stack := stack + [Frame(e.local, None, None)];
    }

    /** The top element is done; true when it was the root. */
    method PopFrame() returns (closed: bool)
      modifies `stack
      ensures View(if closed then Closed else Running) == Pop(old(Now()))
      ensures closed <==> stack == []
    {
      if stack != [] {
        stack := stack[..|stack| - 1];
      }
      closed := stack == [];
    }

    method SendItem(item: TextItem, waited: bool)
      modifies `index, `counts, `out
      ensures Now() == EmitItem(old(Now()), item, waited)
    {
      out := out + [Item(index, item, waited)];
      index := index + 1;
      counts := counts.(textItems := counts.textItems + 1);
    }

    /** Read one step; past the last the reader answers end of input. An element that
        would nest too deep is refused here, whoever is reading. */
    method NextStep() returns (step: Step, error: Option<ParseError>)
      requires pos <= |steps|
      modifies `pos, `openElements
      ensures step == (if old(pos) < |steps| then steps[old(pos)] else Eof)
      ensures pos == if old(pos) < |steps| then old(pos) + 1 else old(pos)
      ensures error == if step.Start? && old(openElements) >= MAX_DEPTH then Some(Refused) else None
      ensures openElements ==
        if step.Start? && error.None? then old(openElements) + 1
        else if step.End? && old(openElements) > 0 then old(openElements) - 1
        else old(openElements)
    {
      error := None;
      if pos == |steps| {
        return Eof, None;
      }
      step := steps[pos];
      pos := pos + 1;
      if step.Start? {
        if openElements >= MAX_DEPTH {
          return step, Some(Refused);
        }
        openElements := openElements + 1;
      } else if step.End? && openElements > 0 {
        openElements := openElements - 1;
      }
    }

    method FlushPendingCaption()
      modifies `pending, `index, `counts, `out
      ensures Now() == FlushPending(old(Now()))
    {
      if pending.Some? {
        var p := pending.value;
        pending := None;
        SendItem(TextItem(Document.Label.Caption, "", p.text, None, None, p.element, p.spans, None, p.fromCdata), true);
      }
    }

    // ---------------------------------------------------------------------- own text

    /** Send the innermost element's run of own text, and start a new one. */
    method FlushOwnText(closing: bool)
      modifies `stack, `index, `counts, `out
      ensures Now() == FlushOwn(old(Now()), closing)
    {
      if stack == [] || stack[|stack| - 1].own.None? {
        return;
      }
      var n := |stack| - 1;
      var own := stack[n].own.value;
      var raw, cdata := own.text, own.fromCdata;
      own := own.(text := "", fromCdata := false);
      var text := CollapseText(raw);
      CollapsedIsJoinedWords(raw);
      var kind := own.spec.kind;
      if text == "" {
        var rendered := None;
        if closing && !own.emitted {
          rendered := own.attributeText;
          own := own.(attributeText := None);
        }
        if rendered.None? {
          stack := stack[n := stack[n].(own := Some(own))];
          return;
        }
        text, kind := rendered.value, Document.Paragraph;
      }
      own := own.(emitted := true);
      stack := stack[n := stack[n].(own := Some(own))];
      var spec := own.spec;
      SendItem(TextItem(kind, spec.role, text, spec.level, spec.ordinal, own.element, [], None, cdata), false);
    }

    method AppendOwnText(text: string, cdata: bool)
      modifies `stack
      ensures Now() == AppendOwn(old(Now()), text, cdata)
    {
      if stack != [] && stack[|stack| - 1].own.Some? {
        var n := |stack| - 1;
        var own := stack[n].own.value;
        stack := stack[n := stack[n].(own := Some(own.(text := own.text + text, fromCdata := own.fromCdata || cdata)))];
      }
    }

    // ---------------------------------------------------------------------- captures

    method StartCapture(spec: Spec, e: Element, isCaption: bool)
      modifies `capture
      ensures Now() == BeginCapture(rules, old(Now()), spec, e, isCaption)
    {
      var level := spec.level;
      if level.None? && spec.kind.SectionHeader? {
        var depth := ReadSectionLevel(stack, rules.sections);
        level := Some(depth);
      }
      var list := None;
      if spec.kind.ListItem? {
        list := ReadOpenList(stack);
      }
      capture := Some(CaptureBuild(|stack|, spec.(level := level), e, Flatten.EMPTY, list, false, isCaption));
    }

    method EndCapture()
      requires capture.Some?
      modifies `capture, `pending, `index, `counts, `out
      ensures Now() == FinishCapture(old(Now()), old(capture).value)
    {
      var c := capture.value;
      capture := None;
      var text, spans := FinishFlow(c.flow);
      if text == "" {
        return;
      }
      if c.isCaption {
        FlushPendingCaption();
        pending := Some(PendingCaption(text, spans, c.element, c.fromCdata, if c.depth > 0 then c.depth - 1 else 0));
      } else {
        var item := TextItem(
          c.spec.kind, c.spec.role, text, c.spec.level, c.spec.ordinal, c.element, spans, c.list, c.fromCdata);
        SendItem(item, false);
      }
    }

    // ------------------------------------------------------------------------ tables

    method OpenTable(e: Element)
      modifies `pending, `table, `index, `counts, `out
      ensures Now() == BeginTable(old(Now()), e)
    {
      var n := counts.tables + 1;
      var caption := None;
      if pending.Some? {
        caption := Some(pending.value.text);
      }
      pending := None;
      out := out + [Event.TableStart(index, n, caption, e)];
      index := index + 1;
      table := Some(TableBuild(|stack|, n, 0, 0, 0, None, None, []));
      counts := counts.(tables := n);
    }

    /** A start tag inside a table: markup in a cell, or the table's own structure. */
    method StartInTable(e: Element)
      requires table.Some?
      modifies `table, `stack
      ensures Now() == TableChild(rules, old(Now()), old(table).value, e)
    {
      var t := table.value;
      if t.cell.Some? {
        var flow := EnterFlow(t.cell.value.flow, OpenNames(), e, rules);
        t := t.(cell := Some(t.cell.value.(flow := flow)));
      } else if e.local in COLUMN_SPEC_ELEMENTS {
        var columns := DeclareColumns(t.columns, e);
        t := t.(columns := columns);
      } else if e.local in HEADER_SECTION_ELEMENTS {
        t := t.(headerSections := t.headerSections + 1);
      } else if e.local in ROW_ELEMENTS {
        t := t.(row := Some(Row(t.headerSections > 0, [], 0)));
      } else if e.local in CELL_ELEMENTS {
        t := t.(cell := Some(OpenCell(t, |stack| + 1, e)));
      }
      table := Some(t);
      PushFrame(e);
    }

    method EndInTable()
      requires table.Some?
      modifies `table, `counts, `out
      ensures Now() == TableClose(old(Now()), old(table).value)
    {
      var t, depth := table.value, |stack|;
      if t.cell.Some? {
        var c := t.cell.value;
        if depth != c.depth {
          var flow := LeaveFlow(c.flow, depth);
          table := Some(t.(cell := Some(c.(flow := flow))));
        } else {
          var closed := CloseCell(t, c);
          table := Some(closed);
        }
        return;
      }
      var closing := if stack == [] then "" else stack[|stack| - 1].local;
      if closing in HEADER_SECTION_ELEMENTS {
        table := Some(t.(headerSections := if t.headerSections > 0 then t.headerSections - 1 else 0));
      } else if closing in ROW_ELEMENTS && t.row.Some? {
        SendRow(t, t.row.value);
      } else if depth == t.depth {
        table := None;
        out := out + [Event.TableEnd(t.reference, t.rowIndex, t.columnCount, t.columns)];
      }
    }

    method CloseCell(t: TableBuild, c: CellBuild) returns (t': TableBuild)
      ensures t' == FinishCell(t, c)
    {
      var text, spans := FinishFlow(c.flow);
      t' := t.(cell := None);
      if t.row.Some? {
        var cell := TableCell(c.columnIndex, text, c.columnSpan, c.rowSpan, c.isHeader, spans);
        t' := t'.(row := Some(t.row.value.(
          cells := t.row.value.cells + [cell], nextColumn := SatU32(c.columnIndex + c.columnSpan))));
      }
    }

    method SendRow(t: TableBuild, row: Row)
      modifies `table, `counts, `out
      ensures Now() == FinishRow(old(Now()), t, row)
    {
      var t' := t.(row := None);
      if row.cells == [] {
        table := Some(t');
        return;
      }
      var width, headers := MeasureRow(row.cells);
      var columnCount := if width > t.columnCount then width else t.columnCount;
      table := Some(t'.(columnCount := columnCount, rowIndex := t.rowIndex + 1));
      counts := counts.(tableRows := counts.tableRows + 1);
      out := out + [Event.TableRow(t.reference, t.rowIndex, row.isHeader || headers, row.cells)];
    }

    // ----------------------------------------------------------------- start and end

    /** One step inside a skipped subtree, and how deep in it the pass stands after it. */
    method SkipStep(depth: nat) returns (left: nat, error: Option<ParseError>)
      requires pos <= |steps| && depth > 0 && skipping == depth && record.None?
      modifies `pos, `openElements, `counts, `skipping
      ensures old(pos) <= pos <= |steps|
      ensures error.None? ==>
        && old(pos) < |steps| && pos == old(pos) + 1 && skipping == left
        && Now() == OnStep(rules, old(Now()), steps[old(pos)])
      ensures error.Some? ==>
        View(Failed(error.value)) == OnStep(rules, old(Now()), if old(pos) < |steps| then steps[old(pos)] else Eof)
    {
      hide OnStep;
      left := depth;
      ghost var before := Now();
      var step;
      step, error := NextStep();
      UnmappedStep(rules, before, step);
      if error.Some? {
        return;
      }
      match step {
        case Start(_) =>
          left := left + 1;
          counts := counts.(elements := counts.elements + 1);
        case End =>
          left := left - 1;
        case Eof =>
          error := Some(Truncated);
        case _ =>
      }
      skipping := left;
    }

    /** Read a subtree through its end tag and drop it. */
    method ConsumeSubtree() returns (error: Option<ParseError>)
      requires pos <= |steps| && Mapping()
      modifies `pos, `openElements, `counts, `skipping
      ensures old(pos) <= pos <= |steps|
      ensures error.None? ==>
        Now() == OnSteps(rules, old(Now()).(skipping := 1), steps[old(pos)..pos]) && Mapping()
      ensures error.Some? ==>
        View(Failed(error.value)) == OnSteps(rules, old(Now()).(skipping := 1), steps[old(pos)..] + [Eof])
    {
      hide OnStep;
      var depth: nat := 1;
      skipping := depth;
      ghost var first, was := pos, Now();
      error := None;
      while depth > 0
        invariant first <= pos <= |steps| && skipping == depth && error.None?
        invariant Now() == OnSteps(rules, was, steps[first..pos])
        decreases |steps| - pos
      {
        ghost var at := pos;
        StepsSplit(rules, was, steps, first, at);
        depth, error := SkipStep(depth);
        if error.Some? {
          StopsHere(rules, was, steps, first, at, if at < |steps| then steps[at] else Eof);
          return;
        }
      }
    }

    // ----------------------------------------------------------------------- records

    /** The pass stands so deep in a record begun at the state and step named. */
    ghost predicate Reading(was: State, first: nat, depth: nat, r: Record)
      reads this
    {
      && first <= pos <= |steps| && skipping == depth > 0 && record == Some(r)
      && Now() == OnSteps(rules, was, steps[first..pos])
    }

    /** The record's own end tag was read, and is still to be acted on. */
    ghost predicate Finishing(was: State, first: nat, r: Record)
      reads this
    {
      && first <= pos <= |steps| && record == Some(r)
      && FinishRecord(Now().(skipping := 0), r) == OnSteps(rules, was, steps[first..pos])
    }

    /** One step of a record, and how deep in it the pass stands after it. */
    method RecordStep(depth: nat, tallied: bool, ghost was: State, ghost first: nat, ghost r: Record)
      returns (step: Step, left: nat, error: Option<ParseError>, ghost more: Record)
      requires Reading(was, first, depth, r) && tallied == r.kind.Tallied()
      modifies `pos, `openElements, `counts, `skipping, `record
      ensures old(pos) <= pos <= |steps|
      ensures error.None? ==> old(pos) < pos
      ensures error.None? && left == 0 ==> Finishing(was, first, r)
      ensures error.None? && left > 0 ==> Reading(was, first, left, more)
      ensures more == if left == 0 || step.Ignorable? then r else r.(read := r.read + [step])
      ensures error.Some? ==> View(Failed(error.value)) == OnSteps(rules, was, steps[first..] + [Eof])
    {
      hide OnStep;
      ghost var at, before := pos, Now();
      StepsSplit(rules, was, steps, first, at);
      step, left, error := RecordTag(depth, tallied);
      more := if left == 0 || step.Ignorable? then r else r.(read := r.read + [step]);
      if error.Some? {
        StopsHere(rules, was, steps, first, at, step);
      } else if left > 0 {
        skipping, record := left, Some(more);
      }
    }

    /** What one step does to the counts; the record itself keeps what it says. */
    method RecordTag(depth: nat, tallied: bool) returns (step: Step, left: nat, error: Option<ParseError>)
      requires pos <= |steps| && skipping == depth > 0 && record.Some? && tallied == record.value.kind.Tallied()
      modifies `pos, `openElements, `counts
      ensures old(pos) <= pos <= |steps|
      ensures step == if old(pos) < |steps| then steps[old(pos)] else Eof
      ensures error.None? ==>
        && old(pos) < |steps| && pos == old(pos) + 1
        && (left == 0 ==> step.End? && depth == 1 && EndUnmapped(Now()) == OnStep(rules, old(Now()), step))
        && (left > 0 ==>
              OnStep(rules, old(Now()), step) ==
              (if step.Ignorable? then Now() else Noted(Now(), step)).(skipping := left))
      ensures error.Some? ==> View(Failed(error.value)) == OnStep(rules, old(Now()), step)
    {
      hide OnStep;
      left := depth;
      ghost var before := Now();
      step, error := NextStep();
      UnmappedStep(rules, before, step);
      if error.Some? {
        return;
      }
      match step {
        case Start(_) =>
          left := left + 1;
          if tallied {
            counts := counts.(elements := counts.elements + 1);
          }
        case End =>
          left := left - 1;
        case Declaration =>
          error := Some(Malformed);
        case DocType(_, _) =>
          error := Some(Malformed);
        case Eof =>
          error := Some(Truncated);
        case _ =>
      }
    }

    /** The pass turns to reading a record; nothing of it is read yet. */
    ghost method OpenRecord(r: Record, was: State)
      requires pos <= |steps| && Mapping() && r.read == [] && was == BeginRecord(Now(), r.kind, r.element)
      modifies `skipping, `record
      ensures Reading(was, pos, 1, r)
    {
      skipping, record := 1, Some(r);
      assert steps[pos..pos] == [];
    }

    /** A context: read whole and kept for the facts that name it. */
    method ReadContext(e: Element, ghost was: State) returns (error: Option<ParseError>)
      requires pos <= |steps| && Mapping() && was == BeginRecord(Now(), ContextRecord, e)
      modifies `pos, `openElements, `counts, `skipping, `record, `contexts
      ensures old(pos) <= pos <= |steps|
      ensures error.None? ==> Mapping() && Now() == OnSteps(rules, was, steps[old(pos)..pos])
      ensures error.Some? ==> View(Failed(error.value)) == OnSteps(rules, was, steps[old(pos)..] + [Eof])
    {
      ghost var first, read := pos, [];
      OpenRecord(Record(ContextRecord, e, []), was);
      var b;
      b, error, read := ReadContextBody(e, was, first);
      if error.None? {
        KeepContext(b.context, was, first, Record(ContextRecord, e, read));
      }
    }

    method ReadContextBody(e: Element, ghost was: State, ghost first: nat)
      returns (b: ContextBuild, error: Option<ParseError>, ghost read: seq<Step>)
      requires Reading(was, first, 1, Record(ContextRecord, e, []))
      modifies `pos, `openElements, `counts, `skipping, `record
      ensures old(pos) <= pos <= |steps|
      ensures error.None? ==> Finishing(was, first, Record(ContextRecord, e, read))
      ensures error.None? ==> b == ContextAfter(e, read)
      ensures error.Some? ==> View(Failed(error.value)) == OnSteps(rules, was, steps[first..] + [Eof])
    {
      ghost var r := Record(ContextRecord, e, []);
      var depth: nat := 1;
      b, error, read := NewContext(OrEmpty(e.Get("id"))), None, [];
      while depth > 0
        invariant error.None? && old(pos) <= pos <= |steps| && r == Record(ContextRecord, e, read)
        invariant if depth > 0 then Reading(was, first, depth, r) else Finishing(was, first, r)
        invariant b == ContextAfter(e, read)
        decreases |steps| - pos
      {
        var step;
        step, depth, error, r := RecordStep(depth, false, was, first, r);
        if error.Some? {
          return;
        }
        if depth > 0 {
          b := TakeContext(b, step, e, read);
          read := r.read;
        }
      }
    }

    /** A context that was read is kept, in place of an earlier one under its name. */
    method KeepContext(c: Context, ghost was: State, ghost first: nat, ghost r: Record)
      requires Finishing(was, first, r) && r.kind.ContextRecord? && c == ContextOf(r.element, r.read)
      modifies `counts, `skipping, `record, `contexts
      ensures Mapping() && Now() == OnSteps(rules, was, steps[first..pos])
    {
      hide ContextOf;
      contexts := contexts[c.id := c];
      counts := counts.(records := counts.records.(contexts := counts.records.contexts + 1));
      skipping, record := 0, None;
    }

    /** A unit: read whole and kept for the facts that name it. */
    method ReadUnit(e: Element, ghost was: State) returns (error: Option<ParseError>)
      requires pos <= |steps| && Mapping() && was == BeginRecord(Now(), UnitRecord, e)
      modifies `pos, `openElements, `counts, `skipping, `record, `units
      ensures old(pos) <= pos <= |steps|
      ensures error.None? ==> Mapping() && Now() == OnSteps(rules, was, steps[old(pos)..pos])
      ensures error.Some? ==> View(Failed(error.value)) == OnSteps(rules, was, steps[old(pos)..] + [Eof])
    {
      ghost var first, read := pos, [];
      OpenRecord(Record(UnitRecord, e, []), was);
      var b;
      b, error, read := ReadUnitBody(e, was, first);
      if error.None? {
        KeepUnit(b.unit, was, first, Record(UnitRecord, e, read));
      }
    }

    method ReadUnitBody(e: Element, ghost was: State, ghost first: nat)
      returns (b: UnitBuild, error: Option<ParseError>, ghost read: seq<Step>)
      requires Reading(was, first, 1, Record(UnitRecord, e, []))
      modifies `pos, `openElements, `counts, `skipping, `record
      ensures old(pos) <= pos <= |steps|
      ensures error.None? ==> Finishing(was, first, Record(UnitRecord, e, read))
      ensures error.None? ==> b == UnitAfter(e, read)
      ensures error.Some? ==> View(Failed(error.value)) == OnSteps(rules, was, steps[first..] + [Eof])
    {
      ghost var r := Record(UnitRecord, e, []);
      var depth: nat := 1;
      b, error, read := NewUnit(OrEmpty(e.Get("id"))), None, [];
      while depth > 0
        invariant error.None? && old(pos) <= pos <= |steps| && r == Record(UnitRecord, e, read)
        invariant if depth > 0 then Reading(was, first, depth, r) else Finishing(was, first, r)
        invariant b == UnitAfter(e, read)
        decreases |steps| - pos
      {
        var step;
        step, depth, error, r := RecordStep(depth, false, was, first, r);
        if error.Some? {
          return;
        }
        if depth > 0 {
          b := TakeUnit(b, step, e, read);
          read := r.read;
        }
      }
    }

    /** A unit that was read is kept, in place of an earlier one under its name. */
    method KeepUnit(u: Unit, ghost was: State, ghost first: nat, ghost r: Record)
      requires Finishing(was, first, r) && r.kind.UnitRecord? && u == UnitOf(r.element, r.read)
      modifies `counts, `skipping, `record, `units
      ensures Mapping() && Now() == OnSteps(rules, was, steps[first..pos])
    {
      hide UnitOf;
      units := units[u.id := u];
      counts := counts.(records := counts.records.(units := counts.records.units + 1));
      skipping, record := 0, None;
    }

    /** A note link: read whole before any of its notes is sent. */
    method ReadNoteLink(footnote: bool, e: Element, ghost was: State) returns (error: Option<ParseError>)
      requires pos <= |steps| && Mapping() && was == BeginRecord(Now(), NoteRecord(footnote), e)
      modifies `pos, `openElements, `counts, `skipping, `record, `out
      ensures old(pos) <= pos <= |steps|
      ensures error.None? ==> Mapping() && Now() == OnSteps(rules, was, steps[old(pos)..pos])
      ensures error.Some? ==> View(Failed(error.value)) == OnSteps(rules, was, steps[old(pos)..] + [Eof])
    {
      ghost var first, read := pos, [];
      OpenRecord(Record(NoteRecord(footnote), e, []), was);
      var b;
      b, error, read := ReadLinkBody(footnote, e, was, first);
      if error.None? {
        SendNotes(b, was, first, Record(NoteRecord(footnote), e, read));
      }
    }

    method ReadLinkBody(footnote: bool, e: Element, ghost was: State, ghost first: nat)
      returns (b: LinkBuild, error: Option<ParseError>, ghost read: seq<Step>)
      requires Reading(was, first, 1, Record(NoteRecord(footnote), e, []))
      modifies `pos, `openElements, `counts, `skipping, `record
      ensures old(pos) <= pos <= |steps|
      ensures error.None? ==> Finishing(was, first, Record(NoteRecord(footnote), e, read))
      ensures error.None? ==> b == LinkAfter(footnote, read)
      ensures error.Some? ==> View(Failed(error.value)) == OnSteps(rules, was, steps[first..] + [Eof])
    {
      ghost var r := Record(NoteRecord(footnote), e, []);
      var depth: nat := 1;
      b, error, read := NewLink(footnote), None, [];
      while depth > 0
        invariant error.None? && old(pos) <= pos <= |steps| && r == Record(NoteRecord(footnote), e, read)
        invariant if depth > 0 then Reading(was, first, depth, r) else Finishing(was, first, r)
        invariant b == LinkAfter(footnote, read)
        decreases |steps| - pos
      {
        var step;
        step, depth, error, r := RecordStep(depth, true, was, first, r);
        if error.Some? {
          return;
        }
        if depth > 0 {
          b := TakeLink(b, step, footnote, read);
          read := r.read;
        }
      }
    }

    method SendEach(b: LinkBuild)
      modifies `counts, `out
      ensures out == old(out) + NoteItems(Targeted(b))
      ensures counts == old(counts).(records := old(counts).records.(notes := old(counts).records.notes + |b.notes|))
    {
      ghost var sent, n := NoteItems(Targeted(b)), counts.records;
      for i := 0 to |b.notes|
        invariant out == old(out) + sent[..i]
        invariant counts == old(counts).(records := n.(notes := n.notes + i))
      {
        var targets := FindTargets(b.locators, b.arcs, b.notes[i].name);
        out := out + [NoteItem(b.notes[i].(targets := targets))];
        counts := counts.(records := counts.records.(notes := counts.records.notes + 1));
        assert sent[..i + 1] == sent[..i] + [sent[i]];
      }
      assert sent[..|b.notes|] == sent;
    }

    /** The notes of a link go out, each with what the arcs into it come from. */
    method SendNotes(b: LinkBuild, ghost was: State, ghost first: nat, ghost r: Record)
      requires Finishing(was, first, r) && r.kind.NoteRecord? && b == LinkAfter(r.kind.footnote, r.read)
      modifies `counts, `skipping, `record, `out
      ensures Mapping() && Now() == OnSteps(rules, was, steps[first..pos])
    {
      SendEach(b);
      skipping, record := 0, None;
    }

    /** A metadata record: read whole and sent. */
    method ReadMeta(shape: Shape, e: Element, ghost was: State) returns (error: Option<ParseError>)
      requires pos <= |steps| && Mapping() && was == BeginRecord(Now(), MetaRecord(shape), e)
      modifies `pos, `openElements, `counts, `skipping, `record, `out
      ensures old(pos) <= pos <= |steps|
      ensures error.None? ==> Mapping() && Now() == OnSteps(rules, was, steps[old(pos)..pos])
      ensures error.Some? ==> View(Failed(error.value)) == OnSteps(rules, was, steps[old(pos)..] + [Eof])
    {
      ghost var first, read := pos, [];
      OpenRecord(Record(MetaRecord(shape), e, []), was);
      var b;
      b, error, read := ReadMetaBody(shape, e, was, first);
      if error.None? {
        SendMeta(shape, e, b.tree, was, first, Record(MetaRecord(shape), e, read));
      }
    }

    method ReadMetaBody(shape: Shape, e: Element, ghost was: State, ghost first: nat)
      returns (b: MetaBuild, error: Option<ParseError>, ghost read: seq<Step>)
      requires Reading(was, first, 1, Record(MetaRecord(shape), e, []))
      modifies `pos, `openElements, `counts, `skipping, `record
      ensures old(pos) <= pos <= |steps|
      ensures error.None? ==> Finishing(was, first, Record(MetaRecord(shape), e, read))
      ensures error.None? ==> b == MetaAfter(read)
      ensures error.Some? ==> View(Failed(error.value)) == OnSteps(rules, was, steps[first..] + [Eof])
    {
      ghost var r := Record(MetaRecord(shape), e, []);
      var depth: nat := 1;
      b, error, read := NEW_META, None, [];
      while depth > 0
        invariant error.None? && old(pos) <= pos <= |steps| && r == Record(MetaRecord(shape), e, read)
        invariant if depth > 0 then Reading(was, first, depth, r) else Finishing(was, first, r)
        invariant b == MetaAfter(read)
        decreases |steps| - pos
      {
        var step;
        step, depth, error, r := RecordStep(depth, true, was, first, r);
        if error.Some? {
          return;
        }
        if depth > 0 {
          b := TakeMeta(b, step, read);
          read := r.read;
        }
      }
    }

    /** What a metadata record says goes out. */
    method SendMeta(shape: Shape, e: Element, tree: MetaTree, ghost was: State, ghost first: nat, ghost r: Record)
      requires Finishing(was, first, r) && r.kind == MetaRecord(shape) && e == r.element && tree == TreeOf(r.read)
      modifies `counts, `skipping, `record, `out
      ensures Mapping() && Now() == OnSteps(rules, was, steps[first..pos])
    {
      hide TreeOf;
      counts := counts.(records := counts.records.(metaItems := counts.records.metaItems + 1));
      out := out + [MetaItem(e, shape, tree)];
      skipping, record := 0, None;
    }

    method ReadRecord(kind: RecordKind, e: Element, ghost was: State) returns (error: Option<ParseError>)
      requires pos <= |steps| && Mapping() && was == BeginRecord(Now(), kind, e)
      modifies `pos, `openElements, `counts, `skipping, `record, `contexts, `units, `out
      ensures old(pos) <= pos <= |steps|
      ensures error.None? ==> Mapping() && Now() == OnSteps(rules, was, steps[old(pos)..pos])
      ensures error.Some? ==> View(Failed(error.value)) == OnSteps(rules, was, steps[old(pos)..] + [Eof])
    {
      match kind {
        case ContextRecord =>
          error := ReadContext(e, was);
        case UnitRecord =>
          error := ReadUnit(e, was);
        case NoteRecord(footnote) =>
          error := ReadNoteLink(footnote, e, was);
        case MetaRecord(shape) =>
          error := ReadMeta(shape, e, was);
      }
    }

    method OpenIsland(e: Element)
      modifies `stack, `island
      ensures Now() == BeginIsland(old(Now()), e)
    {
      PushFrame(e);
      island := Some(IslandBuild(|stack|, e, ""));
    }

    method OpenFact(e: Element)
      modifies `stack, `fact, `index
      ensures Now() == BeginFact(old(Now()), e)
    {
      PushFrame(e);
      var contextRef, unitRef := e.Get("contextRef"), e.Get("unitRef");
      var context, unit := None, None;
      if contextRef.Some? && contextRef.value in contexts {
        context := Some(contexts[contextRef.value]);
      }
      if unitRef.Some? && unitRef.value in units {
        unit := Some(units[unitRef.value]);
      }
      fact := Some(FactBuild(|stack|, index, e, context, unit, ""));
      index := index + 1;
    }

    method SendAttribute(kind: Label, role: string, attr: string, e: Element)
      modifies `stack, `pending, `index, `counts, `out
      ensures Now() == AttributeItem(rules, old(Now()), kind, role, attr, e)
    {
      PushFrame(e);
      if rules.doclang && kind.Picture? {
        FlushPendingCaption();
      }
      var value := e.Get(attr);
      if value.Some? {
        var text := CollapseText(value.value);
        CollapsedIsJoinedWords(value.value);
        if text != "" {
          SendItem(TextItem(kind, role, text, None, None, e, [], None, false), false);
        }
      }
    }

    method Descend(e: Element)
      modifies `stack
      ensures Now() == Enter(rules, old(Now()), e)
    {
      var own := NewOwnText(e);
      stack := stack + [Frame(e.local, rules.listContainer(OpenNames(), e), own)];
    }

    /** The dialect decides about an element that nothing open has claimed. */
    method Map(e: Element) returns (fate: Fate)
      requires Mapping()
      modifies `stack, `capture, `table, `pending, `index, `counts, `out
      ensures Fated(Now(), fate, e) == Stream.Mapped(rules, old(Now()), e)
    {
      fate := Stays;
      match rules.action(OpenNames(), e) {
        case Descend =>
          Descend(e);
        case Skip =>
          fate := Falls;
        case Table =>
          PushFrame(e);
          OpenTable(e);
        case Caption =>
          PushFrame(e);
          StartCapture(Spec(Document.Label.Caption, "", None, None), e, true);
        case Capture(spec) =>
          PushFrame(e);
          StartCapture(spec, e, false);
        case AttrText(kind, role, attr) =>
          SendAttribute(kind, role, attr, e);
        case Meta(shape) =>
          fate := if rules.metadata then IsRead(MetaRecord(shape)) else Falls;
      }
    }

    method StartPlain(e: Element) returns (fate: Fate)
      requires Mapping()
      modifies `stack, `capture, `table, `island, `pending, `index, `counts, `out
      ensures Fated(Now(), fate, e) == PlainStart(rules, old(Now()), e)
    {
      fate := Stays;
      FlushOwnText(false);
      if rules.islands && e.namespace == NS_XHTML {
        OpenIsland(e);
      } else {
        fate := Map(e);
      }
    }

    /** An XBRL instance: contexts and units, then facts, then the rest by namespace. */
    method StartXbrl(e: Element) returns (fate: Fate)
      requires Mapping()
      modifies `stack, `fact, `index
      ensures Fated(Now(), fate, e) == XbrlStart(rules, old(Now()), e)
    {
      fate := Stays;
      if e.namespace == NS_XBRL_INSTANCE && e.local == "context" {
        fate := IsRead(ContextRecord);
      } else if e.namespace == NS_XBRL_INSTANCE && e.local == "unit" {
        fate := IsRead(UnitRecord);
      } else if e.Get("contextRef").Some? {
        OpenFact(e);
      } else if e.namespace == NS_XBRL_INSTANCE || e.namespace == NS_XBRL_LINKBASE {
        if e.local == "footnoteLink" || e.local == "labelLink" {
          fate := IsRead(NoteRecord(e.local == "footnoteLink"));
        } else {
          fate := Falls;
        }
      } else {
        PushFrame(e);
      }
    }

    /** A start tag, once counted: whatever is open claims it before the dialect is
        asked. */
    method Claim(e: Element) returns (fate: Fate)
      requires Mapping()
      modifies `stack, `capture, `table, `island, `fact, `pending, `index, `counts, `out
      ensures Fated(Now(), fate, e) == Stream.OnStart(rules, old(Now()), e)
    {
      fate := Stays;
      if island.Some? {
        island := Some(island.value.(text := island.value.text + " "));
        PushFrame(e);
      } else if capture.Some? {
        var flow := EnterFlow(capture.value.flow, OpenNames(), e, rules);
        capture := Some(capture.value.(flow := flow));
        PushFrame(e);
      } else if fact.Some? {
        PushFrame(e);
      } else if table.Some? {
        StartInTable(e);
      } else if rules.xbrl {
        fate := StartXbrl(e);
      } else {
        fate := StartPlain(e);
      }
    }

    /** Count an element as visited and have it claimed. */
    method Visit(e: Element) returns (fate: Fate, ghost claimed: State)
      requires Mapping()
      modifies `stack, `capture, `table, `island, `fact, `pending, `index, `counts, `out
      ensures claimed == Stream.OnStart(rules, Tallied(old(Now())), e) == Fated(Now(), fate, e)
    {
      counts := counts.(elements := counts.elements + 1);
      assert Now() == Tallied(old(Now()));
      fate := Claim(e);
      claimed := Fated(Now(), fate, e);
    }

    method Start(e: Element) returns (error: Option<ParseError>, ghost claimed: State)
      requires pos <= |steps| && Mapping()
      modifies this
      ensures old(pos) <= pos <= |steps|
      ensures claimed == Stream.OnStart(rules, Tallied(old(Now())), e)
      ensures error.None? ==> Mapping() && Now() == OnSteps(rules, claimed, steps[old(pos)..pos])
      ensures error.Some? ==> View(Failed(error.value)) == OnSteps(rules, claimed, steps[old(pos)..] + [Eof])
    {
      var fate;
      fate, claimed := Visit(e);
      match fate {
        case Falls =>
          error := ConsumeSubtree();
        case IsRead(kind) =>
          error := ReadRecord(kind, e, claimed);
        case Stays =>
          error := None;
          assert steps[pos..pos] == [];
      }
    }

    method EndIsland()
      requires island.Some?
      modifies `island, `index, `counts, `out
      ensures var i, s := old(island).value, old(Now());
        Pop(Now()) == IslandEnd(s, i) && stack == s.stack
    {
      var i := island.value;
      i := i.(text := i.text + " ");
      if |stack| != i.depth {
        island := Some(i);
        return;
      }
      var text := CollapseText(i.text);
      CollapsedIsJoinedWords(i.text);
      island := None;
      counts := counts.(islands := counts.islands + 1);
      out := out + [Event.Island(index, i.element, text)];
      index := index + 1;
    }

    method EndFact()
      requires fact.Some?
      modifies `fact, `counts, `out
      ensures Pop(Now()) == FactEnd(old(Now()), old(fact).value) && stack == old(stack)
    {
      var f := fact.value;
      if |stack| == f.depth {
        var value := CollapseText(f.text);
        CollapsedIsJoinedWords(f.text);
        fact := None;
        counts := counts.(facts := counts.facts + 1);
        out := out + [Event.Fact(f.index, f.element, f.context, f.unit, value)];
      }
    }

    method EndPlain()
      modifies `stack, `pending, `index, `counts, `out
      ensures Pop(Now()) == PlainEnd(old(Now()))
    {
      if pending.Some? && |stack| == pending.value.wrapperDepth {
        FlushPendingCaption();
      }
      FlushOwnText(true);
    }

    /** An end tag; true when it was the root's. */
    method End() returns (closed: bool)
      modifies `stack, `capture, `table, `island, `fact, `pending, `index, `counts, `out
      ensures View(if closed then Closed else Running) == Stream.OnEnd(old(Now()))
    {
      if island.Some? {
        EndIsland();
      } else if capture.Some? {
        if |stack| == capture.value.depth {
          EndCapture();
        } else {
          var flow := LeaveFlow(capture.value.flow, |stack|);
          capture := Some(capture.value.(flow := flow));
        }
      } else if fact.Some? {
        EndFact();
      } else if table.Some? {
        EndInTable();
      } else {
        EndPlain();
      }
      closed := PopFrame();
    }

    method TextIn(text: string, cdata: bool)
      modifies `stack, `capture, `table, `island, `fact
      ensures Now() == Stream.OnText(old(Now()), text, cdata)
    {
      if island.Some? {
        island := Some(island.value.(text := island.value.text + text));
      } else if capture.Some? {
        var c := capture.value;
        var flow := c.flow;
        capture := Some(c.(flow := flow.(text := flow.text + text, chars := flow.chars + |text|, afterChild := false),
                           fromCdata := c.fromCdata || cdata));
      } else if fact.Some? {
        fact := Some(fact.value.(text := fact.value.text + text));
      } else if table.Some? && table.value.cell.Some? {
        var t, b := table.value, table.value.cell.value;
        table := Some(t.(cell := Some(b.(
          flow := b.flow.(text := b.flow.text + text, chars := b.flow.chars + |text|, afterChild := false)))));
      } else {
        AppendOwnText(text, cdata);
      }
    }

    // ----------------------------------------------------------------------- the loop

    /** Act on a start tag that was just read; a skipped subtree is read along with it. */
    method ActOnStart(e: Element, ghost before: State) returns (progress: Progress, ghost next: State)
      requires pos <= |steps| && Mapping() && before.progress == Running && before.openElements < MAX_DEPTH
      requires Now() == before.(openElements := before.openElements + 1)
      modifies this
      ensures old(pos) <= pos <= |steps| && next == OnStep(rules, before, Step.Start(e))
      ensures progress == Running ==> Mapping() && Now() == OnSteps(rules, next, steps[old(pos)..pos])
      ensures progress != Running ==> View(progress) == OnSteps(rules, next, steps[old(pos)..] + [Eof])
    {
      var error;
      assert Tallied(Now()) == CountElement(before);
      error, next := Start(e);
      progress := if error.Some? then Failed(error.value) else Running;
    }

    /** Act on any other step that was just read. */
    method Act(step: Step, ghost before: State) returns (progress: Progress, ghost next: State)
      requires !step.Start? && Mapping() && before.progress == Running
      requires Now() == if step.End? then UncountElement(before) else before
      modifies `stack, `capture, `table, `island, `fact, `pending, `index, `counts, `out
      ensures next == OnStep(rules, before, step) == View(progress)
      ensures step.Eof? ==> progress != Running
    {
      progress := Running;
      match step {
        case End =>
          var closed := End();
          if closed {
            progress := Closed;
          }
        case Text(text) =>
          TextIn(text, false);
        case CData(text) =>
          TextIn(text, true);
        case GeneralRef(name, resolved) =>
          TextIn(ReferenceText(name, resolved), false);
        case Ignorable =>
        case Declaration =>
          progress := Failed(Malformed);
        case DocType(_, _) =>
          progress := Failed(Malformed);
        case Eof =>
          progress := Failed(Truncated);
      }
      next := View(progress);
    }

    /** Read one step and act on it. */
    method OneStep() returns (progress: Progress)
      requires pos <= |steps| && Mapping()
      modifies this
      ensures old(pos) <= pos <= |steps|
      ensures progress == Running ==>
        Mapping() && pos > old(pos) && Now() == OnSteps(rules, old(Now()), steps[old(pos)..pos])
      ensures progress != Running ==> View(progress) == OnSteps(rules, old(Now()), steps[old(pos)..] + [Eof])
    {
      hide OnStep;
      ghost var at, before := pos, Now();
      var step, error := NextStep();
      ghost var next;
      if error.Some? {
        next := View(Failed(Refused));
        DeeperIsRefused(rules, before, step);
        progress := Failed(Refused);
      } else if step.Start? {
        progress, next := ActOnStart(step.element, before);
      } else {
        progress, next := Act(step, before);
      }
      FirstStep(rules, before, steps, at, step, next, pos);
    }

    // ----------------------------------------------------------------------- the loop

    /** Read steps until the root closes or the input is at fault. */
    method ContentLoop() returns (progress: Progress)
      requires pos <= |steps| && Mapping()
      modifies this
      ensures View(progress) == OnSteps(rules, old(Now()), steps[old(pos)..] + [Eof])
      ensures progress != Running
    {
      hide OnStep;
      ghost var first, was := pos, Now();
      progress := Running;
      assert steps[first..first] == [];
      while progress == Running
        invariant first <= pos <= |steps|
        invariant progress == Running ==> Mapping() && Now() == OnSteps(rules, was, steps[first..pos])
        invariant progress != Running ==> View(progress) == OnSteps(rules, was, steps[first..] + [Eof])
        decreases progress == Running, |steps| - pos
      {
        ghost var at := pos;
        progress := OneStep();
        Resumes(rules, was, steps, first, at, pos);
      }
    }

    method SendStatus()
      modifies `out
      ensures out == old(out) + [Status(counts)]
    {
      out := out + [Event.Status(counts)];
    }
  }

  /** The state once a start tag that was read is also counted as visited. */
  function Tallied(s: State): State {
    s.(counts := s.counts.(elements := s.counts.elements + 1))
  }

  /** A whole document: what is sent, and how it ended. */
  method ParseDocument(rules: Rules, root: Element, steps: seq<Step>) returns (out: seq<Event>, progress: Progress)
    ensures out == Parse(rules, root, steps).out && progress == Parse(rules, root, steps).progress
  {
    var driver := new Driver(rules, root, steps);
    assert steps[0..] == steps;
    progress := driver.ContentLoop();
    if progress == Closed {
      driver.SendStatus();
    }
    out := driver.out;
  }

  lemma DeeperIsRefused(rules: Rules, s: State, step: Step)
    requires s.progress == Running && step.Start? && s.openElements >= MAX_DEPTH
    ensures OnStep(rules, s, step) == Fail(s, Refused)
  {
  }

  /** What a step does inside a subtree that is not mapped. */
  lemma UnmappedStep(rules: Rules, s: State, step: Step)
    requires s.progress == Running && s.skipping > 0
    ensures OnStep(rules, s, step) ==
      match step
      case Start(_) =>
        if s.openElements >= MAX_DEPTH then Fail(s, Refused)
        else Noted(CountUnmapped(s), step).(skipping := s.skipping + 1)
      case End =>
        if s.skipping > 1 then Noted(UncountElement(s), step).(skipping := s.skipping - 1)
        else EndUnmapped(UncountElement(s))
      case Ignorable => s
      case Declaration => OnStray(s)
      case DocType(_, _) => OnStray(s)
      case Eof => Fail(s, Truncated)
      case _ => Noted(s, step)
  {
  }

  /** What follows a step picks up where the step left off. */
  lemma Resumes(rules: Rules, was: State, steps: seq<Step>, first: nat, mid: nat, pos: nat)
    requires first <= mid <= pos <= |steps|
    ensures OnSteps(rules, was, steps[first..pos])
      == OnSteps(rules, OnSteps(rules, was, steps[first..mid]), steps[mid..pos])
    ensures OnSteps(rules, was, steps[first..] + [Eof])
      == OnSteps(rules, OnSteps(rules, was, steps[first..mid]), steps[mid..] + [Eof])
  {
    assert steps[first..pos] == steps[first..mid] + steps[mid..pos];
    OnStepsConcat(rules, was, steps[first..mid], steps[mid..pos]);
    assert steps[first..] == steps[first..mid] + steps[mid..];
    Assoc(steps[first..mid], steps[mid..], [Eof]);
    OnStepsConcat(rules, was, steps[first..mid], steps[mid..] + [Eof]);
  }

  /** The next step taken off the front of what is left. */
  lemma StepsSplit(rules: Rules, was: State, steps: seq<Step>, first: nat, pos: nat)
    requires first <= pos <= |steps|
    ensures pos < |steps| ==>
      OnSteps(rules, was, steps[first..pos + 1]) == OnStep(rules, OnSteps(rules, was, steps[first..pos]), steps[pos])
  {
    if pos < |steps| {
      assert steps[first..pos + 1] == steps[first..pos] + [steps[pos]];
      OnStepsConcat(rules, was, steps[first..pos], [steps[pos]]);
      OnStepsOne(rules, OnSteps(rules, was, steps[first..pos]), steps[pos]);
    }
  }

  /** A step that ends the pass ends it for good. */
  lemma StopsHere(rules: Rules, was: State, steps: seq<Step>, first: nat, pos: nat, step: Step)
    requires first <= pos <= |steps| && step == if pos < |steps| then steps[pos] else Eof
    requires OnStep(rules, OnSteps(rules, was, steps[first..pos]), step).progress != Running
    ensures OnSteps(rules, was, steps[first..] + [Eof]) == OnStep(rules, OnSteps(rules, was, steps[first..pos]), step)
  {
    var s, rest := OnSteps(rules, was, steps[first..pos]), steps[pos..] + [Eof];
    assert steps[first..] == steps[first..pos] + steps[pos..];
    Assoc(steps[first..pos], steps[pos..], [Eof]);
    OnStepsConcat(rules, was, steps[first..pos], rest);
    assert rest[0] == step;
    OverStaysOver(rules, OnStep(rules, s, step), rest[1..]);
  }

  /** What the first step makes of a state, what follows goes on from; and nothing
      follows once the pass is over. */
  lemma FirstStep(rules: Rules, s: State, steps: seq<Step>, at: nat, step: Step, next: State, pos: nat)
    requires at <= |steps| && step == (if at < |steps| then steps[at] else Eof) && next == OnStep(rules, s, step)
    ensures at < pos <= |steps| ==> OnSteps(rules, s, steps[at..pos]) == OnSteps(rules, next, steps[at + 1..pos])
    ensures at < |steps| ==> OnSteps(rules, s, steps[at..] + [Eof]) == OnSteps(rules, next, steps[at + 1..] + [Eof])
    ensures next.progress != Running ==> OnSteps(rules, s, steps[at..] + [Eof]) == next
  {
    if at < pos <= |steps| {
      assert steps[at..pos][0] == step && steps[at..pos][1..] == steps[at + 1..pos];
    }
    var rest := steps[at..] + [Eof];
    assert rest[0] == step;
    assert at < |steps| ==> rest[1..] == steps[at + 1..] + [Eof];
    if next.progress != Running {
      OverStaysOver(rules, next, rest[1..]);
    }
  }
}
