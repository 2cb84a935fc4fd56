/** Captures and table cells inside the forward pass: the item or cell that comes out
    of an element says what the law of captures says of its content. */
module StreamText {
  import opened Basics
  import opened Wrappers
  import opened Collapse
  import opened Xml
  import opened Flatten
  import opened Stream
  import opened StreamBalance
  import opened CellSpans
  import Document

  /** Some of the content, at any depth, was written as CDATA. */
  function AnyCdata(nodes: seq<Node>): bool
    decreases nodes
  {
    nodes != [] && (CdataIn(nodes[0]) || AnyCdata(nodes[1..]))
  }

  function CdataIn(node: Node): bool
    decreases node
  {
    match node
    case Chars(_, cdata) => cdata
    case Elem(_, kids) => AnyCdata(kids)
    case _ => false
  }

  function Counted(s: State, elements: nat): State {
    s.(counts := s.counts.(elements := s.counts.elements + elements))
  }

  // --------------------------------------------------------------------- captures

  /** A capture is open, at this depth or above. */
  predicate Capturing(s: State, c: CaptureBuild) {
    && s.capture == Some(c) && s.island.None? && s.skipping == 0 && s.progress == Running
    && 1 <= c.depth <= |s.stack| && Shallow(c.flow.spans, |s.stack|)
  }

  /** The state of the same capture with more poured into it. */
  function Filled(s: State, c: CaptureBuild, flow: Flow, cdata: bool, elements: nat): State {
    Counted(s, elements).(capture := Some(c.(flow := flow, fromCdata := cdata)))
  }

  lemma {:induction false} ContentIsCaptured(rules: Rules, s: State, c: CaptureBuild, nodes: seq<Node>, flow: Flow)
    requires Capturing(s, c) && !TooDeep(s, Depth(nodes)) && Clean(nodes)
    requires flow == Poured(s.Open(), c.flow, nodes, rules.inline, rules.inlineSpans)
    ensures OnSteps(rules, s, StepsOf(nodes)) == Filled(s, c, flow, c.fromCdata || AnyCdata(nodes), Elements(nodes))
    ensures Shallow(flow.spans, |s.stack|)
    decreases nodes, 0
  {
    hide OnStep;
    if nodes != [] {
      var first := PouredNode(s.Open(), c.flow, nodes[0], rules.inline, rules.inlineSpans);
      var cdata := c.fromCdata || CdataIn(nodes[0]);
      NodeIsCaptured(rules, s, c, nodes[0], first);
      OnStepsConcat(rules, s, StepsOfNode(nodes[0]), StepsOf(nodes[1..]));
      var t := Filled(s, c, first, cdata, ElementsIn(nodes[0]));
      ContentIsCaptured(rules, t, c.(flow := first, fromCdata := cdata), nodes[1..], flow);
    }
  }

  lemma {:induction false} NodeIsCaptured(rules: Rules, s: State, c: CaptureBuild, node: Node, flow: Flow)
    requires Capturing(s, c) && !TooDeep(s, DepthOf(node)) && CleanNode(node)
    requires flow == PouredNode(s.Open(), c.flow, node, rules.inline, rules.inlineSpans)
    ensures OnSteps(rules, s, StepsOfNode(node)) == Filled(s, c, flow, c.fromCdata || CdataIn(node), ElementsIn(node))
    ensures Shallow(flow.spans, |s.stack|)
    decreases node, 0
  {
    if node.Elem? {
      var entered, inside := PouredParts(s.Open(), c.flow, node.element, node.kids, rules.inline, rules.inlineSpans);
      ElementIsCaptured(rules, s, c, node.element, node.kids, entered, inside, c.fromCdata || AnyCdata(node.kids),
                        Elements(node.kids), OnSteps(rules, s, StepsOfNode(node)));
    } else {
      OnStepsOne(rules, s, StepsOfNode(node)[0]);
    }
  }

  lemma {:induction false} ElementIsCaptured(
    rules: Rules, s: State, c: CaptureBuild, e: Element, kids: seq<Node>, entered: Flow, inside: Flow,
    cdata: bool, elements: nat, u: State)
    requires Capturing(s, c) && !TooDeep(s, 1 + Depth(kids)) && Clean(kids)
    requires entered == c.flow.Enter(s.Open(), e, rules.inline, rules.inlineSpans)
    requires inside == Poured(s.Open() + [e.local], entered, kids, rules.inline, rules.inlineSpans)
    requires Shallow(entered.spans, |s.stack| + 1)
    requires cdata == (c.fromCdata || AnyCdata(kids)) && elements == Elements(kids)
    requires u == OnSteps(rules, s, StepsOfNode(Elem(e, kids)))
    ensures u == Filled(s, c, inside.Close(|s.stack| + 1), cdata, 1 + elements)
    decreases kids, 2
  {
    hide OnStep;
    var b := ElementIsEntered(rules, s, c, e, kids, entered, inside, cdata, elements, u);
    CaptureLeaves(rules, s, c, e, entered, inside, cdata, elements, b);
  }

  lemma {:induction false} ElementIsEntered(
    rules: Rules, s: State, c: CaptureBuild, e: Element, kids: seq<Node>, entered: Flow, inside: Flow,
    cdata: bool, elements: nat, u: State) returns (b: State)
    requires Capturing(s, c) && !TooDeep(s, 1 + Depth(kids)) && Clean(kids)
    requires entered == c.flow.Enter(s.Open(), e, rules.inline, rules.inlineSpans)
    requires inside == Poured(s.Open() + [e.local], entered, kids, rules.inline, rules.inlineSpans)
    requires Shallow(entered.spans, |s.stack| + 1)
    requires cdata == (c.fromCdata || AnyCdata(kids)) && elements == Elements(kids)
    requires u == OnSteps(rules, s, StepsOfNode(Elem(e, kids)))
    ensures b == Filled(Inside(s, c, e, entered), c.(flow := entered), inside, cdata, elements)
    ensures u == OnStep(rules, b, End)
    decreases kids, 1
  {
    hide OnStep;
    var a := CaptureEnters(rules, s, c, e, kids, entered);
    ContentIsCaptured(rules, a, c.(flow := entered), kids, inside);
    b := OnSteps(rules, a, StepsOf(kids));
  }

  lemma PouredParts(open: seq<string>, f: Flow, e: Element, kids: seq<Node>, rule: InlineRule, recording: bool)
    returns (entered: Flow, inside: Flow)
    requires Shallow(f.spans, |open|)
    ensures entered == f.Enter(open, e, rule, recording) && Shallow(entered.spans, |open| + 1)
    ensures inside == Poured(open + [e.local], entered, kids, rule, recording)
    ensures PouredNode(open, f, Elem(e, kids), rule, recording) == inside.Close(|open| + 1)
    ensures Shallow(inside.Close(|open| + 1).spans, |open|)
  {
    PouredElement(open, f, e, kids, rule, recording);
    entered := f.Enter(open, e, rule, recording);
    inside := Poured(open + [e.local], entered, kids, rule, recording);
  }

  lemma CaptureEnters(
    rules: Rules, s: State, c: CaptureBuild, e: Element, kids: seq<Node>, entered: Flow) returns (a: State)
    requires Capturing(s, c) && s.openElements < MAX_DEPTH
    requires entered == c.flow.Enter(s.Open(), e, rules.inline, rules.inlineSpans)
      && Shallow(entered.spans, |s.stack| + 1)
    ensures OnSteps(rules, s, StepsOfNode(Elem(e, kids))) == OnStep(rules, OnSteps(rules, a, StepsOf(kids)), End)
    ensures a == Inside(s, c, e, entered) && Capturing(a, c.(flow := entered)) && a.Open() == s.Open() + [e.local]
    ensures a.openElements == s.openElements + 1
  {
    OnElement(rules, s, e, kids);
    a := OnStep(rules, s, Start(e));
  }

  /** One element further in. */
  function Inside(s: State, c: CaptureBuild, e: Element, entered: Flow): State {
    Filled(s, c, entered, c.fromCdata, 1).(
      openElements := s.openElements + 1, stack := s.stack + [Frame(e.local, None, None)])
  }

  lemma CaptureLeaves(
    rules: Rules, s: State, c: CaptureBuild, e: Element, entered: Flow, inside: Flow, cdata: bool, elements: nat,
    b: State)
    requires Capturing(s, c) && b == Filled(Inside(s, c, e, entered), c.(flow := entered), inside, cdata, elements)
    ensures OnStep(rules, b, End) == Filled(s, c, inside.Close(|s.stack| + 1), cdata, 1 + elements)
  {
    assert b.stack[..|b.stack| - 1] == s.stack;
  }

  /** A text and its runs say what this content says. */
  predicate Says(text: string, spans: seq<InlineSpan>, open: seq<string>, nodes: seq<Node>, rules: Rules) {
    && text == Collapsed(Spaced(nodes, false).0)
    && (if rules.inlineSpans then
          && Within(spans, text) && NestedOrDisjoint(spans)
          && ShowAll(spans, text) == KeptRuns(Take(Runs(open, nodes, rules.inline), MAX_INLINE_SPANS))
        else spans == [])
  }

  lemma FinishedSays(open: seq<string>, nodes: seq<Node>, rules: Rules)
    ensures var (text, spans) := Finished(Poured(open, EMPTY, nodes, rules.inline, rules.inlineSpans));
      Says(text, spans, open, nodes, rules)
  {
    if rules.inlineSpans {
      CaptureLaw(open, nodes, rules.inline);
    } else {
      CaptureLawWithoutRuns(open, nodes, rules.inline);
    }
  }

  /** What a capture is for: an item of this spec, or a caption. */
  datatype Wanted = Wanted(spec: Spec, isCaption: bool)

  function WantedBy(action: Action): Option<Wanted> {
    if action.Caption? then Some(Wanted(Spec(Document.Label.Caption, "", None, None), true))
    else if action.Capture? then Some(Wanted(action.spec, false))
    else None
  }

  /** Where the dialect decides about this element, and decides to capture it. */
  predicate Captures(rules: Rules, s: State, e: Element, w: Wanted) {
    && s.capture.None? && s.table.None? && s.island.None? && s.fact.None? && s.skipping == 0 && s.progress == Running
    && s.stack != [] && !rules.xbrl && !(rules.islands && e.namespace == NS_XHTML)
    && WantedBy(rules.action(s.Open(), e)) == Some(w)
  }

  /** The capture of an element just opened, over the state its parent's text left. */
  function Opened(rules: Rules, s: State, e: Element, w: Wanted): CaptureBuild {
    BeginCapture(rules, Push(FlushOwn(s, false), e), w.spec, e, w.isCaption).capture.value
  }

  /** s with the element's capture open, once its start tag was read. */
  function CaptureOpened(rules: Rules, s: State, e: Element, w: Wanted): State {
    var t := FlushOwn(s, false);
    Counted(t, 1).(openElements := s.openElements + 1, stack := t.stack + [Frame(e.local, None, None)],
                   capture := Some(Opened(rules, s, e, w)))
  }

  lemma FlushOwnIgnoresCounters(s: State, t: State)
    requires t == Counted(s, 1).(openElements := s.openElements + 1)
    ensures FlushOwn(t, false) == Counted(FlushOwn(s, false), 1).(openElements := s.openElements + 1)
    ensures FlushOwn(s, false).Open() == s.Open() && |FlushOwn(s, false).stack| == |s.stack|
  {
    var n := |s.stack| - 1;
    assert forall f: Frame :: s.stack != [] && f.local == s.stack[n].local ==>
      Locals(s.stack[n := f]) == Locals(s.stack);
  }

  lemma CaptureOpens(rules: Rules, s: State, e: Element, w: Wanted)
    requires Captures(rules, s, e, w) && s.openElements < MAX_DEPTH
    ensures OnStep(rules, s, Start(e)) == CaptureOpened(rules, s, e, w)
  {
    FlushOwnIgnoresCounters(s, CountElement(s));
  }

  lemma CaptureOpenedReady(rules: Rules, s: State, e: Element, w: Wanted)
    requires Captures(rules, s, e, w)
    ensures var a, c := CaptureOpened(rules, s, e, w), Opened(rules, s, e, w);
      && Capturing(a, c) && a.Open() == s.Open() + [e.local] && |a.stack| == |s.stack| + 1
      && c.flow == EMPTY && !c.fromCdata && c.depth == |s.stack| + 1 && c.element == e && c.isCaption == w.isCaption
  {
    FlushOwnIgnoresCounters(s, CountElement(s));
  }

  /** A captured element up to its end tag: all of its content is poured into its
      capture, which then finishes as the law of captures says. */
  lemma CaptureFills(rules: Rules, s: State, e: Element, kids: seq<Node>, w: Wanted) returns (flow: Flow, b: State)
    requires Captures(rules, s, e, w) && !TooDeep(s, 1 + Depth(kids)) && Clean(kids)
    ensures Says(Finished(flow).0, Finished(flow).1, s.Open() + [e.local], kids, rules)
    ensures b == Filled(CaptureOpened(rules, s, e, w), Opened(rules, s, e, w), flow, AnyCdata(kids), Elements(kids))
    ensures b == OnSteps(rules, OnStep(rules, s, Start(e)), StepsOf(kids))
    ensures OnSteps(rules, s, StepsOfNode(Elem(e, kids))) == OnStep(rules, b, End)
  {
    hide OnStep, Finished, Says, FlushOwn, Opened;
    var open, a, c := s.Open() + [e.local], CaptureOpened(rules, s, e, w), Opened(rules, s, e, w);
    flow := Poured(open, EMPTY, kids, rules.inline, rules.inlineSpans);
    FinishedSays(open, kids, rules);
    OnElement(rules, s, e, kids);
    CaptureOpens(rules, s, e, w);
    CaptureOpenedReady(rules, s, e, w);
    ContentIsCaptured(rules, a, c, kids, flow);
    b := Filled(a, c, flow, AnyCdata(kids), Elements(kids));
  }

  /** Which of the open elements are sections, by position. */
  function SectionsAmong(open: seq<string>, sections: set<string>): set<nat> {
    set i: nat | i < |open| && open[i] in sections
  }

  lemma {:induction false} SectionsAreCounted(stack: seq<Frame>, sections: set<string>)
    ensures SectionsOpen(stack, sections) == |SectionsAmong(Locals(stack), sections)|
    decreases |stack|
  {
    if stack == [] {
      assert SectionsAmong([], sections) == {};
    } else {
      var n := |stack| - 1;
      SectionsAreCounted(stack[..n], sections);
      assert Locals(stack[..n]) == Locals(stack)[..n];
      var before, all := SectionsAmong(Locals(stack[..n]), sections), SectionsAmong(Locals(stack), sections);
      assert all == if stack[n].local in sections then before + {n} else before;
    }
  }

  /** The level of a captured item: as its rule states it, and for a header whose rule
      states none how many sections it is in, itself among them, but one at least. */
  predicate LevelStated(level: Option<nat>, spec: Spec, open: seq<string>, sections: set<string>) {
    if spec.level != None then level == spec.level
    else if spec.kind != Document.SectionHeader then level == None
    else level == Some(Max(1, |SectionsAmong(open, sections)|))
  }

  lemma LevelIsStated(rules: Rules, s: State, e: Element, w: Wanted)
    requires Captures(rules, s, e, w)
    ensures LevelStated(Opened(rules, s, e, w).spec.level, w.spec, s.Open() + [e.local], rules.sections)
  {
    CaptureOpenedReady(rules, s, e, w);
    var stack := Push(FlushOwn(s, false), e).stack;
    SectionsAreCounted(stack, rules.sections);
    assert Locals(stack) == s.Open() + [e.local] by {
      assert CaptureOpened(rules, s, e, w).stack == stack;
    }
  }

  /** An element the dialect captures sends at most one item, after what its parent's
      own text sent: none when its content is blank, and otherwise one whose text and
      runs are what the law of captures says of the content. */
  lemma CaptureSends(rules: Rules, s: State, e: Element, kids: seq<Node>, spec: Spec) returns (item: TextItem)
    requires Captures(rules, s, e, Wanted(spec, false)) && !TooDeep(s, 1 + Depth(kids)) && Clean(kids)
    ensures Says(item.text, item.spans, s.Open() + [e.local], kids, rules)
    ensures item.kind == spec.kind && item.role == spec.role && item.element == e && item.fromCdata == AnyCdata(kids)
    ensures item.ordinal == spec.ordinal && LevelStated(item.level, spec, s.Open() + [e.local], rules.sections)
    ensures var t, u := FlushOwn(s, false), OnSteps(rules, s, StepsOfNode(Elem(e, kids)));
      && u.out == t.out + (if item.text == "" then [] else [Item(t.index, item, false)])
      && u.stack == t.stack && u.capture.None? && u.pending == s.pending && u.progress == Running
  {
    hide OnStep;
    var flow, b := CaptureFills(rules, s, e, kids, Wanted(spec, false));
    item := CaptureCloses(rules, s, e, spec, flow, AnyCdata(kids), Elements(kids), b);
    LevelIsStated(rules, s, e, Wanted(spec, false));
  }

  /** A capture's own end tag. */
  lemma CaptureEndTag(rules: Rules, b: State, c: CaptureBuild)
    requires b.capture == Some(c) && b.island.None? && b.skipping == 0 && b.progress == Running && c.depth == |b.stack|
    ensures OnStep(rules, b, End) == Pop(FinishCapture(UncountElement(b), c))
  {
  }

  lemma CaptureCloses(rules: Rules, s: State, e: Element, spec: Spec, flow: Flow, cdata: bool, elements: nat, b: State)
    returns (item: TextItem)
    requires Captures(rules, s, e, Wanted(spec, false))
    requires var w := Wanted(spec, false);
      b == Filled(CaptureOpened(rules, s, e, w), Opened(rules, s, e, w), flow, cdata, elements)
    ensures item.text == Finished(flow).0 && item.spans == Finished(flow).1
    ensures item.kind == spec.kind && item.role == spec.role && item.element == e && item.fromCdata == cdata
    ensures item.ordinal == spec.ordinal && item.level == Opened(rules, s, e, Wanted(spec, false)).spec.level
    ensures var t, u := FlushOwn(s, false), OnStep(rules, b, End);
      && u.out == t.out + (if item.text == "" then [] else [Item(t.index, item, false)])
      && u.stack == t.stack && u.capture.None? && u.pending == s.pending && u.progress == Running
  {
    hide Finished, OpenList, SectionsOpen, OnStep;
    CaptureEndTag(rules, b, b.capture.value);
    var c, t := Opened(rules, s, e, Wanted(spec, false)), FlushOwn(s, false);
    var (text, spans) := Finished(flow);
    item := TextItem(c.spec.kind, c.spec.role, text, c.spec.level, c.spec.ordinal, c.element, spans, c.list, cdata);
    assert b.stack[..|b.stack| - 1] == t.stack;
    assert t.out + [] == t.out;
  }

  /** The item a waiting caption goes out as when no table comes for it. */
  function WaitedInVain(index: nat, pending: Option<PendingCaption>): seq<Event> {
    if pending.None? then []
    else
      var p := pending.value;
      var item := TextItem(Document.Label.Caption, "", p.text, None, None, p.element, p.spans, None, p.fromCdata);
      [Item(index, item, true)]
  }

  /** After an element mapped as a caption, the caption that waits is the one its own
      content makes, to be delivered within the element's parent, and the one that
      waited before has gone out as an item; blank content changes neither. */
  lemma CaptionWaits(rules: Rules, s: State, e: Element, kids: seq<Node>) returns (text: string, spans: seq<InlineSpan>)
    requires Captures(rules, s, e, WantedBy(Action.Caption).value) && !TooDeep(s, 1 + Depth(kids)) && Clean(kids)
    ensures Says(text, spans, s.Open() + [e.local], kids, rules)
    ensures var t, u := FlushOwn(s, false), OnSteps(rules, s, StepsOfNode(Elem(e, kids)));
      && u.pending ==
           (if text == "" then s.pending else Some(PendingCaption(text, spans, e, AnyCdata(kids), |s.stack|)))
      && u.out == t.out + (if text == "" then [] else WaitedInVain(t.index, s.pending))
      && u.stack == t.stack && u.capture.None? && u.progress == Running
  {
    hide OnStep;
    var flow, b := CaptureFills(rules, s, e, kids, WantedBy(Action.Caption).value);
    text, spans := Finished(flow).0, Finished(flow).1;
    CaptionCloses(rules, s, e, flow, AnyCdata(kids), Elements(kids), b);
  }

  lemma CaptionCloses(rules: Rules, s: State, e: Element, flow: Flow, cdata: bool, elements: nat, b: State)
    requires Captures(rules, s, e, WantedBy(Action.Caption).value)
    requires var w := WantedBy(Action.Caption).value;
      b == Filled(CaptureOpened(rules, s, e, w), Opened(rules, s, e, w), flow, cdata, elements)
    ensures var t, u, text := FlushOwn(s, false), OnStep(rules, b, End), Finished(flow).0;
      && u.pending ==
           (if text == "" then s.pending else Some(PendingCaption(text, Finished(flow).1, e, cdata, |s.stack|)))
      && u.out == t.out + (if text == "" then [] else WaitedInVain(t.index, s.pending))
      && u.stack == t.stack && u.capture.None? && u.progress == Running
  {
    hide Finished, OpenList, SectionsOpen, OnStep;
    CaptureEndTag(rules, b, b.capture.value);
    var w, t := WantedBy(Action.Caption).value, FlushOwn(s, false);
    CaptureOpenedReady(rules, s, e, w);
    assert b.stack[..|b.stack| - 1] == t.stack;
    assert t.out + [] == t.out;
  }

  /** An element the dialect reads for an attribute sends at most one item when it opens,
      after what its parent's own text sent: the collapse of the attribute, unless that is
      blank. In DocLang a picture sends the caption that waits first. */
  lemma AttributeIsSent(rules: Rules, s: State, e: Element, action: Action)
    requires s.capture.None? && s.table.None? && s.island.None? && s.fact.None? && s.skipping == 0
    requires s.progress == Running && s.openElements < MAX_DEPTH
    requires !rules.xbrl && !(rules.islands && e.namespace == NS_XHTML)
    requires action == rules.action(s.Open(), e) && action.AttrText?
    ensures var t, u := FlushOwn(s, false), OnStep(rules, s, Start(e));
      var vain := if rules.doclang && action.kind == Document.Picture then WaitedInVain(t.index, s.pending) else [];
      var text := if e.Get(action.attr) == None then "" else Collapsed(e.Get(action.attr).value);
      && u.out == t.out + vain + SentAs(text, t.index + |vain|, action, e)
      && u.pending == (if rules.doclang && action.kind == Document.Picture then None else s.pending)
      && u.Open() == s.Open() + [e.local] && u.progress == Running
  {
    hide OnStep, FlushOwn, AttributeItem;
    var t := FlushOwn(s, false);
    var c := AttributeStarts(rules, s, e, action);
    AttributeItemIs(rules, c, action, e);
    assert Locals(c.stack + [Frame(e.local, None, None)]) == Locals(t.stack) + [e.local];
  }

  lemma AttributeStarts(rules: Rules, s: State, e: Element, action: Action) returns (c: State)
    requires s.capture.None? && s.table.None? && s.island.None? && s.fact.None? && s.skipping == 0
    requires s.progress == Running && s.openElements < MAX_DEPTH
    requires !rules.xbrl && !(rules.islands && e.namespace == NS_XHTML)
    requires action == rules.action(s.Open(), e) && action.AttrText?
    ensures c == Counted(FlushOwn(s, false), 1).(openElements := s.openElements + 1)
    ensures OnStep(rules, s, Start(e)) == AttributeItem(rules, c, action.kind, action.role, action.attr, e)
    ensures FlushOwn(s, false).Open() == s.Open() && c.progress == Running && c.pending == s.pending
  {
    hide AttributeItem;
    FlushOwnIgnoresCounters(s, CountElement(s));
    c := Counted(FlushOwn(s, false), 1).(openElements := s.openElements + 1);
  }

  /** The item of that text, or none when there is no text. */
  function SentAs(text: string, index: nat, action: Action, e: Element): seq<Event>
    requires action.AttrText?
  {
    if text == "" then []
    else [Item(index, TextItem(action.kind, action.role, text, None, None, e, [], None, false), false)]
  }

  lemma AttributeItemIs(rules: Rules, c: State, action: Action, e: Element)
    requires action.AttrText?
    ensures var u := AttributeItem(rules, c, action.kind, action.role, action.attr, e);
      var vain := if rules.doclang && action.kind == Document.Picture then WaitedInVain(c.index, c.pending) else [];
      var text := if e.Get(action.attr) == None then "" else Collapsed(e.Get(action.attr).value);
      && u.out == c.out + vain + SentAs(text, c.index + |vain|, action, e)
      && u.pending == (if rules.doclang && action.kind == Document.Picture then None else c.pending)
      && u.stack == c.stack + [Frame(e.local, None, None)] && u.progress == c.progress
  {
    assert c.out + [] == c.out;
  }

  /** A reference that resolves to nothing is kept as it was written: an element whose
      content is that alone is captured as the reference itself. */
  lemma UnresolvedReferenceIsKept(rules: Rules, s: State, e: Element, name: string, spec: Spec)
    returns (item: TextItem)
    requires Captures(rules, s, e, Wanted(spec, false)) && !TooDeep(s, 1)
    requires forall i :: 0 <= i < |name| ==> !IsWhitespace(name[i])
    ensures item.text == "&" + name + ";"
    ensures var t, u := FlushOwn(s, false), OnSteps(rules, s, [Start(e), GeneralRef(name, None), End]);
      u.out == t.out + [Item(t.index, item, false)]
  {
    hide OnStep, OnSteps, Collapsed, Says;
    var kids := [Node.Ref(name, None)];
    LoneReference(name);
    assert StepsOfNode(Elem(e, kids)) == [Start(e), GeneralRef(name, None), End];
    item := CaptureSends(rules, s, e, kids, spec);
    SaidAlone(item.text, item.spans, s.Open() + [e.local], name, rules);
  }

  lemma LoneReference(name: string)
    ensures var kids := [Node.Ref(name, None)];
      && StepsOf(kids) == [GeneralRef(name, None)] && Clean(kids) && Depth(kids) == 0
      && Spaced(kids, false).0 == "&" + name + ";"
  {
    var kids := [Node.Ref(name, None)];
    assert kids[1..] == [] && CleanNode(kids[0]) && Clean(kids[1..]);
    assert StepsOf(kids[1..]) == [] && Spaced(kids[1..], false).0 == "";
    assert DepthOf(kids[0]) == 0 && Depth(kids[1..]) == 0;
  }

  lemma SaidAlone(text: string, spans: seq<InlineSpan>, open: seq<string>, name: string, rules: Rules)
    requires Says(text, spans, open, [Node.Ref(name, None)], rules)
    requires forall i :: 0 <= i < |name| ==> !IsWhitespace(name[i])
    ensures text == "&" + name + ";"
  {
    LoneReference(name);
    ScanWord(START, "&" + name + ";");
    assert START.out + ("&" + name + ";") == "&" + name + ";";
  }

  // ----------------------------------------------------------------------- cells

  /** A cell is open, at this depth or above. */
  predicate InCell(s: State, t: TableBuild, b: CellBuild) {
    && s.table == Some(t) && t.cell == Some(b) && s.capture.None? && s.island.None? && s.fact.None?
    && s.skipping == 0 && s.progress == Running
    && 1 <= b.depth <= |s.stack| && Shallow(b.flow.spans, |s.stack|)
  }

  function WithFlow(t: TableBuild, b: CellBuild, flow: Flow): TableBuild {
    t.(cell := Some(b.(flow := flow)))
  }

  /** The state of the same cell with more poured into it. */
  function CellFilled(s: State, t: TableBuild, b: CellBuild, flow: Flow, elements: nat): State {
    Counted(s, elements).(table := Some(WithFlow(t, b, flow)))
  }

  lemma {:induction false} ContentIsCelled(
    rules: Rules, s: State, t: TableBuild, b: CellBuild, nodes: seq<Node>, flow: Flow)
    requires InCell(s, t, b) && !TooDeep(s, Depth(nodes)) && Clean(nodes)
    requires flow == Poured(s.Open(), b.flow, nodes, rules.inline, rules.inlineSpans)
    ensures OnSteps(rules, s, StepsOf(nodes)) == CellFilled(s, t, b, flow, Elements(nodes))
    ensures Shallow(flow.spans, |s.stack|)
    decreases nodes, 0
  {
    hide OnStep;
    if nodes != [] {
      var first := PouredNode(s.Open(), b.flow, nodes[0], rules.inline, rules.inlineSpans);
      NodeIsCelled(rules, s, t, b, nodes[0], first);
      OnStepsConcat(rules, s, StepsOfNode(nodes[0]), StepsOf(nodes[1..]));
      var u := CellFilled(s, t, b, first, ElementsIn(nodes[0]));
      ContentIsCelled(rules, u, WithFlow(t, b, first), b.(flow := first), nodes[1..], flow);
    }
  }

  lemma {:induction false} NodeIsCelled(rules: Rules, s: State, t: TableBuild, b: CellBuild, node: Node, flow: Flow)
    requires InCell(s, t, b) && !TooDeep(s, DepthOf(node)) && CleanNode(node)
    requires flow == PouredNode(s.Open(), b.flow, node, rules.inline, rules.inlineSpans)
    ensures OnSteps(rules, s, StepsOfNode(node)) == CellFilled(s, t, b, flow, ElementsIn(node))
    ensures Shallow(flow.spans, |s.stack|)
    decreases node, 0
  {
    hide OnStep;
    if node.Elem? {
      var entered, inside := PouredParts(s.Open(), b.flow, node.element, node.kids, rules.inline, rules.inlineSpans);
      ElementIsCelled(rules, s, t, b, node.element, node.kids, entered, inside, Elements(node.kids),
                      OnSteps(rules, s, StepsOfNode(node)));
    } else {
      OnStepsOne(rules, s, StepsOfNode(node)[0]);
      LeafIsCelled(rules, s, t, b, node, flow);
    }
  }

  lemma LeafIsCelled(rules: Rules, s: State, t: TableBuild, b: CellBuild, node: Node, flow: Flow)
    requires InCell(s, t, b) && !node.Elem? && CleanNode(node)
    requires flow == PouredNode(s.Open(), b.flow, node, rules.inline, rules.inlineSpans)
    ensures OnStep(rules, s, StepsOfNode(node)[0]) == CellFilled(s, t, b, flow, 0)
    ensures Shallow(flow.spans, |s.stack|)
  {
  }

  lemma {:induction false} ElementIsCelled(
    rules: Rules, s: State, t: TableBuild, b: CellBuild, e: Element, kids: seq<Node>, entered: Flow, inside: Flow,
    elements: nat, u: State)
    requires InCell(s, t, b) && !TooDeep(s, 1 + Depth(kids)) && Clean(kids)
    requires entered == b.flow.Enter(s.Open(), e, rules.inline, rules.inlineSpans)
    requires inside == Poured(s.Open() + [e.local], entered, kids, rules.inline, rules.inlineSpans)
    requires Shallow(entered.spans, |s.stack| + 1) && elements == Elements(kids)
    requires u == OnSteps(rules, s, StepsOfNode(Elem(e, kids)))
    ensures u == CellFilled(s, t, b, inside.Close(|s.stack| + 1), 1 + elements)
    decreases kids, 1
  {
    hide OnStep;
    var a := CellEnters(rules, s, t, b, e, kids, entered);
    ContentIsCelled(rules, a, WithFlow(t, b, entered), b.(flow := entered), kids, inside);
    CellLeaves(rules, s, t, b, e, entered, inside, elements, OnSteps(rules, a, StepsOf(kids)));
  }

  /** One element further into a cell. */
  function InsideCell(s: State, t: TableBuild, b: CellBuild, e: Element, entered: Flow): State {
    CellFilled(s, t, b, entered, 1).(
      openElements := s.openElements + 1, stack := s.stack + [Frame(e.local, None, None)])
  }

  lemma CellEnters(
    rules: Rules, s: State, t: TableBuild, b: CellBuild, e: Element, kids: seq<Node>, entered: Flow) returns (a: State)
    requires InCell(s, t, b) && s.openElements < MAX_DEPTH
    requires entered == b.flow.Enter(s.Open(), e, rules.inline, rules.inlineSpans)
      && Shallow(entered.spans, |s.stack| + 1)
    ensures OnSteps(rules, s, StepsOfNode(Elem(e, kids))) == OnStep(rules, OnSteps(rules, a, StepsOf(kids)), End)
    ensures a == InsideCell(s, t, b, e, entered) && InCell(a, WithFlow(t, b, entered), b.(flow := entered))
    ensures a.Open() == s.Open() + [e.local] && a.openElements == s.openElements + 1
  {
    OnElement(rules, s, e, kids);
    a := OnStep(rules, s, Start(e));
  }

  lemma CellLeaves(
    rules: Rules, s: State, t: TableBuild, b: CellBuild, e: Element, entered: Flow, inside: Flow, elements: nat,
    u: State)
    requires InCell(s, t, b)
    requires u ==
      CellFilled(InsideCell(s, t, b, e, entered), WithFlow(t, b, entered), b.(flow := entered), inside, elements)
    ensures OnStep(rules, u, End) == CellFilled(s, t, b, inside.Close(|s.stack| + 1), 1 + elements)
  {
    assert u.stack[..|u.stack| - 1] == s.stack;
  }

  /** A row is open in a table, and no cell. */
  predicate InRow(s: State, t: TableBuild, row: Row) {
    && s.table == Some(t) && t.cell.None? && t.row == Some(row)
    && s.capture.None? && s.island.None? && s.fact.None? && s.skipping == 0 && s.progress == Running && s.stack != []
  }

  /** A cell element adds one cell to its row, at the row's next column and with the
      spans its element states, and the next column is the one after it; its text and
      runs are what the law of captures says of its content. */
  lemma CellJoinsRow(
    rules: Rules, s: State, t: TableBuild, row: Row, e: Element, kids: seq<Node>) returns (cell: TableCell)
    requires InRow(s, t, row) && IsCell(e) && !TooDeep(s, 1 + Depth(kids)) && Clean(kids)
    ensures Says(cell.text, cell.spans, s.Open() + [e.local], kids, rules)
    ensures cell.columnIndex == row.nextColumn && StatesSpans(cell, e)
    ensures cell.isHeader == (e.local == "th" || t.headerSections > 0)
    ensures var u := OnSteps(rules, s, StepsOfNode(Elem(e, kids)));
      && u.table == Some(t.(row := Some(row.(cells := row.cells + [cell], nextColumn := EndOf(cell)))))
      && u.out == s.out && u.stack == s.stack && u.progress == Running
  {
    hide OnStep, OnSteps, StatesSpans, Says, InRow;
    cell := CellIsAdded(rules, s, t, row, e, kids);
    SpansAreStated(cell, e);
  }

  lemma CellIsAdded(
    rules: Rules, s: State, t: TableBuild, row: Row, e: Element, kids: seq<Node>) returns (cell: TableCell)
    requires InRow(s, t, row) && e.local in CELL_ELEMENTS && !TooDeep(s, 1 + Depth(kids)) && Clean(kids)
    ensures Says(cell.text, cell.spans, s.Open() + [e.local], kids, rules)
    ensures cell.columnIndex == row.nextColumn && cell.columnSpan == ColumnSpan(e) && cell.rowSpan == RowSpan(e)
    ensures cell.isHeader == (e.local in HEADER_CELL_ELEMENTS || t.headerSections > 0)
    ensures var u := OnSteps(rules, s, StepsOfNode(Elem(e, kids)));
      && u.table == Some(t.(row := Some(row.(cells := row.cells + [cell],
                                             nextColumn := SatU32(cell.columnIndex + cell.columnSpan)))))
      && u.out == s.out && u.stack == s.stack && u.progress == Running
  {
    hide OnStep;
    var open, b := s.Open() + [e.local], OpenCell(t, |s.stack| + 1, e);
    var flow := Poured(open, EMPTY, kids, rules.inline, rules.inlineSpans);
    FinishedSays(open, kids, rules);
    OnElement(rules, s, e, kids);
    CellOpens(rules, s, t, row, e);
    var a := OnStep(rules, s, Start(e));
    assert a.Open() == open;
    ContentIsCelled(rules, a, t.(cell := Some(b)), b, kids, flow);
    cell := CellCloses(rules, s, t, row, e, flow, Elements(kids), OnSteps(rules, a, StepsOf(kids)));
  }

  function CellOpened(s: State, t: TableBuild, e: Element): State {
    Counted(s, 1).(openElements := s.openElements + 1, stack := s.stack + [Frame(e.local, None, None)],
                   table := Some(t.(cell := Some(OpenCell(t, |s.stack| + 1, e)))))
  }

  lemma CellOpens(rules: Rules, s: State, t: TableBuild, row: Row, e: Element)
    requires InRow(s, t, row) && e.local in CELL_ELEMENTS && s.openElements < MAX_DEPTH
    ensures OnStep(rules, s, Start(e)) == CellOpened(s, t, e)
  {
  }

  lemma CellCloses(
    rules: Rules, s: State, t: TableBuild, row: Row, e: Element, flow: Flow, elements: nat, before: State)
    returns (cell: TableCell)
    requires InRow(s, t, row)
    requires var b := OpenCell(t, |s.stack| + 1, e);
      before == CellFilled(CellOpened(s, t, e), t.(cell := Some(b)), b, flow, elements)
    ensures cell.text == Finished(flow).0 && cell.spans == Finished(flow).1
    ensures cell.columnIndex == row.nextColumn && cell.columnSpan == ColumnSpan(e) && cell.rowSpan == RowSpan(e)
    ensures cell.isHeader == (e.local in HEADER_CELL_ELEMENTS || t.headerSections > 0)
    ensures var u := OnStep(rules, before, End);
      && u.table == Some(t.(row := Some(row.(cells := row.cells + [cell],
                                             nextColumn := SatU32(cell.columnIndex + cell.columnSpan)))))
      && u.out == s.out && u.stack == s.stack && u.progress == Running
  {
    var b := OpenCell(t, |s.stack| + 1, e);
    cell := FinishedCell(t, row, b, flow);
    CellFinishes(rules, before, WithFlow(t, b, flow), b.(flow := flow));
    assert before.stack[..|before.stack| - 1] == s.stack;
  }

  /** What a cell just closed leaves in its table. */
  lemma FinishedCell(t: TableBuild, row: Row, b: CellBuild, flow: Flow) returns (cell: TableCell)
    requires t.cell.None? && t.row == Some(row)
    ensures cell == TableCell(b.columnIndex, Finished(flow).0, b.columnSpan, b.rowSpan, b.isHeader, Finished(flow).1)
    ensures FinishCell(WithFlow(t, b, flow), b.(flow := flow)) ==
      t.(row := Some(row.(cells := row.cells + [cell], nextColumn := SatU32(cell.columnIndex + cell.columnSpan))))
  {
    var (text, spans) := Finished(flow);
    cell := TableCell(b.columnIndex, text, b.columnSpan, b.rowSpan, b.isHeader, spans);
  }

  lemma CellFinishes(rules: Rules, s: State, t: TableBuild, b: CellBuild)
    requires s.table == Some(t) && t.cell == Some(b) && s.capture.None? && s.island.None? && s.fact.None?
    requires s.skipping == 0 && s.progress == Running && |s.stack| == b.depth
    ensures OnStep(rules, s, End) == Pop(UncountElement(s).(table := Some(FinishCell(t, b))))
  {
  }
}
