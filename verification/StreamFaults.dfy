/** Which documents the forward pass refuses, and for what: the first fault in document
    order, where a stray declaration is a fault unless it lies in a subtree the dialect
    drops, and an element past the nesting bound always is. */
module StreamFaults {
  import opened Wrappers
  import opened Xml
  import opened Records
  import opened Stream
  import opened StreamBalance
  import opened StreamModes

  /** What becomes of content: the rules decide about each element of it, something
      open has claimed all of it, it is read as a record, or it is dropped. */
  datatype Attention = Deciding | Claimed | Recorded | Dropped
  {
    /** Elements of such content are not put on the stack. */
    predicate Unmapped() {
      Recorded? || Dropped?
    }
  }

  /** What becomes of an element's content, given what becomes of the element. Only
      where the rules decide can an element be dropped: an island, a capture, a table,
      a fact or a record takes everything inside it. */
  function AttentionTo(rules: Rules, attention: Attention, open: seq<string>, e: Element): Attention {
    if !attention.Deciding? then attention
    else if rules.xbrl then
      match ReadingOf(e)
      case ReadFact => Claimed
      case ReadRecord(_) => Recorded
      case Discard => Dropped
      case Pass => Deciding
    else if rules.islands && e.namespace == NS_XHTML then Claimed
    else MappedTo(rules, rules.action(open, e))
  }

  /** A metadata record is read when the caller asked for metadata, and dropped when not. */
  function MappedTo(rules: Rules, action: Action): Attention {
    match action
    case Descend => Deciding
    case AttrText(_, _, _) => Deciding
    case Skip => Dropped
    case Meta(_) => if rules.metadata then Recorded else Dropped
    case _ => Claimed
  }

  /** The first fault of content inside so many open elements, in document order. */
  function FaultIn(
    rules: Rules, attention: Attention, open: seq<string>, level: nat, nodes: seq<Node>): Option<ParseError>
    decreases nodes
  {
    if nodes == [] then None
    else
      var first := FaultOf(rules, attention, open, level, nodes[0]);
      if first.Some? then first else FaultIn(rules, attention, open, level, nodes[1..])
  }

  function FaultOf(rules: Rules, attention: Attention, open: seq<string>, level: nat, node: Node): Option<ParseError>
    decreases node
  {
    match node
    case Stray(_) => if attention.Dropped? then None else Some(Malformed)
    case Elem(e, kids) =>
      if level >= MAX_DEPTH then Some(Refused)
      else FaultIn(rules, AttentionTo(rules, attention, open, e), open + [e.local], level + 1, kids)
    case _ => None
  }

  // ------------------------------------------------------- the machine's attention

  function AttentionOf(s: State): Attention {
    if s.skipping > 0 then if s.kept.record.Some? then Recorded else Dropped
    else if s.island.Some? || s.capture.Some? || s.fact.Some? || s.table.Some? then Claimed
    else Deciding
  }

  /** The depth of the element that claimed the content. */
  function ClaimDepth(s: State): nat {
    if s.island.Some? then s.island.value.depth
    else if s.capture.Some? then s.capture.value.depth
    else if s.fact.Some? then s.fact.value.depth
    else if s.table.Some? then s.table.value.depth
    else 0
  }

  /** The same elements are open, as much is skipped, and the same is claimed. */
  predicate Attends(s: State, t: State) {
    && Level(s, t) && t.Open() == s.Open()
    && AttentionOf(t) == AttentionOf(s) && ClaimDepth(t) == ClaimDepth(s)
  }

  lemma LocalsOfPrefix(stack: seq<Frame>, more: seq<Frame>, n: nat)
    requires n <= |stack| && n <= |more|
    requires forall i :: 0 <= i < n ==> stack[i].local == more[i].local
    ensures Locals(stack[..n]) == Locals(more[..n])
  {
  }

  lemma FlushOwnOpen(s: State, closing: bool)
    ensures FlushOwn(s, closing).Open() == s.Open()
  {
  }

  lemma PushOpen(s: State, e: Element)
    ensures Push(s, e).Open() == s.Open() + [e.local]
  {
  }

  /** What a start tag makes of the attention: a is the state after it. */
  predicate Turned(rules: Rules, s: State, e: Element, a: State) {
    && a.progress == Running && a.openElements == s.openElements + 1
    && AttentionOf(a) == AttentionTo(rules, AttentionOf(s), s.Open(), e)
    && (if AttentionOf(a).Unmapped() then a.skipping == s.skipping + 1 && a.Open() == s.Open()
        else a.skipping == 0 && a.Open() == s.Open() + [e.local])
    && (AttentionOf(s).Claimed? ==> ClaimDepth(a) == ClaimDepth(s))
    && (AttentionOf(s).Deciding? && AttentionOf(a).Claimed? ==> ClaimDepth(a) == |a.stack|)
  }

  lemma AttributeTurns(rules: Rules, s: State, e: Element, kind: Label, role: string, attr: string, a: State)
    requires Plain(s) && a == AttributeItem(rules, s, kind, role, attr, e)
    ensures a.progress == Running && a.openElements == s.openElements && AttentionOf(a).Deciding?
    ensures a.skipping == 0 && a.Open() == s.Open() + [e.local]
  {
    PushOpen(s, e);
  }

  lemma MappedTurns(rules: Rules, s: State, e: Element)
    requires Plain(s) && s.kept.record.None?
    ensures var a, action := Mapped(rules, s, e), rules.action(s.Open(), e);
      && a.progress == Running && a.openElements == s.openElements
      && AttentionOf(a) == MappedTo(rules, action)
      && (if AttentionOf(a).Unmapped() then a.skipping == 1 && a.Open() == s.Open()
          else a.skipping == 0 && a.Open() == s.Open() + [e.local])
      && (AttentionOf(a).Claimed? ==> ClaimDepth(a) == |a.stack|)
  {
    var action := rules.action(s.Open(), e);
    if action.AttrText? {
      AttributeTurns(rules, s, e, action.kind, action.role, action.attr, Mapped(rules, s, e));
    } else {
      hide AttributeItem;
      PushOpen(s, e);
    }
  }

  lemma PlainStartTurns(rules: Rules, s: State, e: Element)
    requires Plain(s) && s.kept.record.None? && !rules.xbrl && s.openElements < MAX_DEPTH
    ensures Turned(rules, s, e, OnStep(rules, s, Start(e)))
  {
    var c := CountElement(s);
    var t := FlushOwn(c, false);
    FlushOwnOpen(c, false);
    assert c.Open() == s.Open();
    assert Plain(t) && t.openElements == s.openElements + 1;
    if rules.islands && e.namespace == NS_XHTML {
      PushOpen(t, e);
    } else {
      MappedTurns(rules, t, e);
    }
  }

  lemma XbrlStartTurns(rules: Rules, s: State, e: Element)
    requires Plain(s) && s.kept.record.None? && rules.xbrl && s.openElements < MAX_DEPTH
    ensures Turned(rules, s, e, OnStep(rules, s, Start(e)))
  {
    PushOpen(s, e);
  }

  /** Inside what is claimed or unmapped the element changes nothing. */
  lemma HeldStartTurns(rules: Rules, s: State, e: Element)
    requires Modes(s) && !Plain(s) && s.progress == Running && s.openElements < MAX_DEPTH
    ensures Turned(rules, s, e, OnStep(rules, s, Start(e)))
  {
    PushOpen(s, e);
  }

  lemma StartTurns(rules: Rules, s: State, e: Element)
    requires Modes(s) && s.progress == Running && s.openElements < MAX_DEPTH
    ensures Turned(rules, s, e, OnStep(rules, s, Start(e)))
  {
    hide OnStep;
    if !Plain(s) {
      HeldStartTurns(rules, s, e);
    } else if rules.xbrl {
      XbrlStartTurns(rules, s, e);
    } else {
      PlainStartTurns(rules, s, e);
    }
  }

  /** What an end tag gives back: b stood where the element's content ended. */
  predicate Returned(b: State, t: State) {
    && t.progress == Running && b.openElements > 0 && t.openElements == b.openElements - 1
    && (if b.skipping > 0 then t.skipping == b.skipping - 1 && t.Open() == b.Open()
        else t.skipping == 0 && |b.stack| >= 2 && t.Open() == Locals(b.stack[..|b.stack| - 1]))
    && (AttentionOf(b).Unmapped() && b.skipping == 1 ==> AttentionOf(t).Deciding?)
    && (AttentionOf(b).Unmapped() && b.skipping > 1 ==> AttentionOf(t) == AttentionOf(b))
    && (AttentionOf(b).Deciding? ==> AttentionOf(t).Deciding?)
    && (AttentionOf(b).Claimed? && ClaimDepth(b) == |b.stack| ==> AttentionOf(t).Deciding?)
    && (AttentionOf(b).Claimed? && ClaimDepth(b) < |b.stack| ==>
          AttentionOf(t).Claimed? && ClaimDepth(t) == ClaimDepth(b))
  }

  /** A row can only be open below the table's own element. */
  lemma NoRowAtTable(s: State, t: TableBuild)
    requires Modes(s) && s.table == Some(t) && |s.stack| == t.depth
    ensures t.row.None? && t.cell.None? && s.stack[|s.stack| - 1].local !in HEADER_SECTION_ELEMENTS
  {
  }

  lemma TableEndReturns(s: State, t: TableBuild)
    requires Modes(s) && s.progress == Running && s.skipping == 0 && s.table == Some(t) && |s.stack| >= 2
    ensures var u := TableClose(UncountElement(s), t);
      && u.stack == s.stack && u.openElements == s.openElements - 1 && u.progress == Running && u.skipping == 0
      && u.island.None? && u.capture.None? && u.fact.None?
      && (if |s.stack| == t.depth then u.table.None? else u.table.Some? && u.table.value.depth == t.depth)
  {
    if |s.stack| == t.depth {
      NoRowAtTable(s, t);
    }
  }

  lemma FinishedStack(s: State, closing: bool)
    ensures FlushPending(s).stack == s.stack
    ensures Locals(FlushOwn(s, closing).stack) == Locals(s.stack)
  {
  }

  lemma PlainEndReturns(s: State)
    requires Modes(s) && Plain(s) && |s.stack| >= 2
    ensures Returned(s, OnEnd(UncountElement(s)))
  {
    var c := UncountElement(s);
    var t := if c.pending.Some? && |c.stack| == c.pending.value.wrapperDepth then FlushPending(c) else c;
    FinishedStack(c, true);
    FinishedStack(t, true);
    PoppedReturns(s, FlushOwn(t, true));
  }

  /** What remains is to pop the element itself. */
  lemma PoppedReturns(s: State, u: State)
    requires Plain(s) && |s.stack| >= 2 && Plain(u) && Locals(u.stack) == Locals(s.stack)
    requires s.openElements > 0 && u.openElements == s.openElements - 1
    ensures Returned(s, Pop(u))
  {
    assert |u.stack| == |Locals(u.stack)| && |s.stack| == |Locals(s.stack)|;
    assert forall i :: 0 <= i < |s.stack| ==> u.stack[i].local == Locals(u.stack)[i] == Locals(s.stack)[i];
    LocalsOfPrefix(u.stack, s.stack, |s.stack| - 1);
  }

  lemma CaptureEndReturns(s: State)
    requires Modes(s) && s.progress == Running && s.skipping == 0 && s.capture.Some? && |s.stack| >= 2
    ensures Returned(s, OnEnd(UncountElement(s)))
  {
    FinishedStack(UncountElement(s).(capture := None), true);
  }

  lemma IslandOrFactEndReturns(s: State)
    requires Modes(s) && s.progress == Running && s.skipping == 0 && (s.island.Some? || s.fact.Some?) && |s.stack| >= 2
    ensures Returned(s, OnEnd(UncountElement(s)))
  {
  }

  lemma TableEndPops(s: State)
    requires Modes(s) && s.progress == Running && s.skipping == 0 && s.table.Some? && |s.stack| >= 2
    ensures Returned(s, OnEnd(UncountElement(s)))
  {
    TableEndReturns(s, s.table.value);
  }

  /** The end tag of a subtree that is not mapped, or of an element inside it. */
  lemma UnmappedEndReturns(rules: Rules, s: State)
    requires Modes(s) && s.progress == Running && s.skipping > 0
    ensures Returned(s, OnStep(rules, s, End))
  {
  }

  lemma EndReturns(rules: Rules, s: State)
    requires Modes(s) && s.progress == Running && (s.skipping > 0 || |s.stack| >= 2)
    ensures Returned(s, OnStep(rules, s, End))
  {
    if s.skipping > 0 {
      UnmappedEndReturns(rules, s);
    } else if s.capture.Some? {
      CaptureEndReturns(s);
    } else if s.table.Some? {
      TableEndPops(s);
    } else if s.island.Some? || s.fact.Some? {
      IslandOrFactEndReturns(s);
    } else {
      PlainEndReturns(s);
    }
  }

  lemma SameLocals(a: seq<Frame>, b: seq<Frame>)
    requires |a| == |b| && forall i :: 0 <= i < |a| ==> a[i].local == b[i].local
    ensures Locals(a) == Locals(b)
  {
  }

  lemma OnTextAttends(s: State, text: string, cdata: bool)
    ensures Attends(s, OnText(s, text, cdata))
  {
    SameLocals(s.stack, OnText(s, text, cdata).stack);
  }

  lemma TextAttends(rules: Rules, s: State, step: Step)
    requires step.Text? || step.CData? || step.GeneralRef? || step.Ignorable?
    ensures Attends(s, OnStep(rules, s, step))
  {
    if step.Text? {
      OnTextAttends(s, step.text, false);
    } else if step.CData? {
      OnTextAttends(s, step.text, true);
    } else if step.GeneralRef? {
      OnTextAttends(s, ReferenceText(step.name, step.resolved), false);
    }
  }

  // ----------------------------------------------------------------- the two agree

  /** Where the rules still decide, the open elements are those of the machine. */
  predicate Within(s: State, attention: Attention, open: seq<string>, level: nat) {
    && Modes(s) && s.progress == Running && level == s.openElements && s.stack != []
    && AttentionOf(s) == attention && (attention.Deciding? ==> open == s.Open())
  }

  predicate Outcome(s: State, t: State, fault: Option<ParseError>) {
    if fault.Some? then t.progress == Failed(fault.value) else Attends(s, t)
  }

  lemma {:induction false} ContentFaults(
    rules: Rules, s: State, nodes: seq<Node>, attention: Attention, open: seq<string>, level: nat, t: State)
    requires Sane(rules) && Within(s, attention, open, level) && t == OnSteps(rules, s, StepsOf(nodes))
    ensures Outcome(s, t, FaultIn(rules, attention, open, level, nodes))
    decreases nodes, 0
  {
    hide OnStep;
    if nodes != [] {
      var k := OnSteps(rules, s, StepsOfNode(nodes[0]));
      OnStepsConcat(rules, s, StepsOfNode(nodes[0]), StepsOf(nodes[1..]));
      NodeFaults(rules, s, nodes[0], attention, open, level, k);
      OnStepsModes(rules, s, StepsOfNode(nodes[0]));
      if FaultOf(rules, attention, open, level, nodes[0]).Some? {
        OverStaysOver(rules, k, StepsOf(nodes[1..]));
      } else {
        ContentFaults(rules, k, nodes[1..], attention, open, level, t);
      }
    }
  }

  lemma {:induction false} NodeFaults(
    rules: Rules, s: State, node: Node, attention: Attention, open: seq<string>, level: nat, t: State)
    requires Sane(rules) && Within(s, attention, open, level) && t == OnSteps(rules, s, StepsOfNode(node))
    ensures Outcome(s, t, FaultOf(rules, attention, open, level, node))
    decreases node, 0
  {
    hide OnStep;
    if node.Elem? {
      OnElement(rules, s, node.element, node.kids);
      var a := OnStep(rules, s, Start(node.element));
      ElementFaults(rules, s, node.element, node.kids, attention, open, level, a, OnSteps(rules, a, StepsOf(node.kids)),
                    t);
    } else {
      LeafFaults(rules, s, node, attention, open, level);
    }
  }

  lemma LeafFaults(rules: Rules, s: State, node: Node, attention: Attention, open: seq<string>, level: nat)
    requires Within(s, attention, open, level) && !node.Elem?
    ensures Outcome(s, OnSteps(rules, s, StepsOfNode(node)), FaultOf(rules, attention, open, level, node))
  {
    OnStepsOne(rules, s, StepsOfNode(node)[0]);
    if !node.Stray? {
      TextAttends(rules, s, StepsOfNode(node)[0]);
    }
  }

  lemma {:induction false} ElementFaults(
    rules: Rules, s: State, e: Element, kids: seq<Node>, attention: Attention, open: seq<string>, level: nat,
    a: State, b: State, t: State)
    requires Sane(rules) && Within(s, attention, open, level)
    requires a == OnStep(rules, s, Start(e)) && b == OnSteps(rules, a, StepsOf(kids)) && t == OnStep(rules, b, End)
    ensures Outcome(s, t, FaultOf(rules, attention, open, level, Elem(e, kids)))
    decreases kids, 1
  {
    hide OnStep;
    if level >= MAX_DEPTH {
      DeeperIsRefused(rules, s, e, a, b, t, StepsOf(kids));
    } else {
      var inner := AttentionTo(rules, attention, open, e);
      EntersWithin(rules, s, e, attention, open, level, a);
      ContentFaults(rules, a, kids, inner, open + [e.local], level + 1, b);
      OnStepsModes(rules, a, StepsOf(kids));
      ElementEnds(rules, s, e, a, b, t, FaultIn(rules, inner, open + [e.local], level + 1, kids));
    }
  }

  lemma ElementEnds(rules: Rules, s: State, e: Element, a: State, b: State, t: State, fault: Option<ParseError>)
    requires Sane(rules) && Modes(s) && Modes(b) && s.progress == Running && s.stack != [] && s.openElements < MAX_DEPTH
    requires a == OnStep(rules, s, Start(e)) && t == OnStep(rules, b, End) && Outcome(a, b, fault)
    ensures Outcome(s, t, fault)
  {
    if fault.None? {
      ElementReturns(rules, s, e, a, b, t);
    }
  }

  /** An element past the bound ends the pass at its start tag. */
  lemma DeeperIsRefused(rules: Rules, s: State, e: Element, a: State, b: State, t: State, steps: seq<Step>)
    requires s.progress == Running && s.openElements >= MAX_DEPTH
    requires a == OnStep(rules, s, Start(e)) && b == OnSteps(rules, a, steps) && t == OnStep(rules, b, End)
    ensures t.progress == Failed(Refused)
  {
    OverStaysOver(rules, a, steps);
  }

  lemma EntersWithin(
    rules: Rules, s: State, e: Element, attention: Attention, open: seq<string>, level: nat, a: State)
    requires Sane(rules) && Within(s, attention, open, level) && level < MAX_DEPTH && a == OnStep(rules, s, Start(e))
    ensures Within(a, AttentionTo(rules, attention, open, e), open + [e.local], level + 1)
  {
    StartTurns(rules, s, e);
    OnStepModes(rules, s, Start(e));
  }

  lemma ElementReturns(rules: Rules, s: State, e: Element, a: State, b: State, t: State)
    requires Sane(rules) && Modes(s) && Modes(b) && s.progress == Running && s.stack != [] && s.openElements < MAX_DEPTH
    requires a == OnStep(rules, s, Start(e)) && t == OnStep(rules, b, End) && Attends(a, b)
    ensures Attends(s, t)
  {
    hide OnStep;
    StartTurns(rules, s, e);
    OnStepModes(rules, s, Start(e));
    EndReturns(rules, b);
    OnStepModes(rules, b, End);
    ElementAttends(rules, s, e, a, b, t);
  }

  /** Start and end of an element together leave the attention as it was. */
  lemma ElementAttends(rules: Rules, s: State, e: Element, a: State, b: State, t: State)
    requires Modes(s) && Modes(a) && Modes(b) && Modes(t) && s.progress == Running && s.stack != []
    requires Turned(rules, s, e, a) && Attends(a, b) && Returned(b, t)
    ensures Attends(s, t)
  {
    if b.skipping == 0 {
      assert Locals(b.stack[..|b.stack| - 1]) == b.Open()[..|b.stack| - 1];
      assert (s.Open() + [e.local])[..|s.stack|] == s.Open();
    }
    assert |t.stack| == |t.Open()| && |s.stack| == |s.Open()|;
    assert AttentionOf(t).Dropped? ==> ClaimDepth(t) == 0;
    assert AttentionOf(s).Dropped? ==> ClaimDepth(s) == 0;
  }

  /** A balanced document closes exactly when it has no fault, and is otherwise refused
      for the first it has. */
  lemma FirstFaultDecides(rules: Rules, root: Element, kids: seq<Node>)
    requires Sane(rules)
    ensures var fault := FaultIn(rules, Deciding, [root.local], 1, kids);
      Parse(rules, root, StepsOf(kids) + [End]).progress == if fault.Some? then Failed(fault.value) else Closed
  {
    var b, steps := Begin(rules, root), StepsOf(kids);
    BeginModes(rules, root);
    assert b.Open() == [root.local];
    var t := OnSteps(rules, b, steps);
    ContentFaults(rules, b, kids, Deciding, [root.local], 1, t);
    OnStepsConcat(rules, b, steps, [End] + [Eof]);
    assert steps + [End] + [Eof] == steps + ([End] + [Eof]);
    OnStepsConcat(rules, t, [End], [Eof]);
    OnStepsOne(rules, t, End);
    if t.progress == Running {
      LastEndCloses(rules, t);
    }
    OverStaysOver(rules, OnStep(rules, t, End), [Eof]);
  }

  // ------------------------------------------------------------ refused as malformed

  /** Some stray lies outside every element whose content is dropped. */
  predicate Exposed(rules: Rules, attention: Attention, open: seq<string>, nodes: seq<Node>)
    decreases nodes
  {
    nodes != [] && (ExposedNode(rules, attention, open, nodes[0]) || Exposed(rules, attention, open, nodes[1..]))
  }

  predicate ExposedNode(rules: Rules, attention: Attention, open: seq<string>, node: Node)
    decreases node
  {
    match node
    case Stray(_) => true
    case Elem(e, kids) =>
      var inner := AttentionTo(rules, attention, open, e);
      !inner.Dropped? && Exposed(rules, inner, open + [e.local], kids)
    case _ => false
  }

  lemma {:induction false} DroppedHasNoFault(rules: Rules, open: seq<string>, level: nat, nodes: seq<Node>)
    requires level + Depth(nodes) <= MAX_DEPTH
    ensures FaultIn(rules, Dropped, open, level, nodes).None?
    decreases nodes
  {
    if nodes != [] {
      if nodes[0].Elem? {
        DroppedHasNoFault(rules, open + [nodes[0].element.local], level + 1, nodes[0].kids);
      }
      DroppedHasNoFault(rules, open, level, nodes[1..]);
    }
  }

  lemma {:induction false} StrayFaults(
    rules: Rules, attention: Attention, open: seq<string>, level: nat, nodes: seq<Node>)
    requires level + Depth(nodes) <= MAX_DEPTH && !attention.Dropped?
    ensures FaultIn(rules, attention, open, level, nodes) ==
      if Exposed(rules, attention, open, nodes) then Some(Malformed) else None
    decreases nodes
  {
    if nodes != [] {
      if nodes[0].Elem? {
        var e := nodes[0].element;
        var inner := AttentionTo(rules, attention, open, e);
        if inner.Dropped? {
          DroppedHasNoFault(rules, open + [e.local], level + 1, nodes[0].kids);
        } else {
          StrayFaults(rules, inner, open + [e.local], level + 1, nodes[0].kids);
        }
      }
      StrayFaults(rules, attention, open, level, nodes[1..]);
    }
  }

  /** A balanced document within the nesting bound is refused as malformed if and only
      if some stray declaration lies outside every element whose content is dropped, and
      otherwise closes. */
  lemma MalformedExactlyWhenExposed(rules: Rules, root: Element, kids: seq<Node>)
    requires Sane(rules) && 1 + Depth(kids) <= MAX_DEPTH
    ensures Parse(rules, root, StepsOf(kids) + [End]).progress ==
      if Exposed(rules, Deciding, [root.local], kids) then Failed(Malformed) else Closed
  {
    FirstFaultDecides(rules, root, kids);
    StrayFaults(rules, Deciding, [root.local], 1, kids);
  }

  /** A lone declaration in a child of the root is passed over exactly when the child's
      content is dropped. */
  lemma DeclarationInChild(rules: Rules, root: Element, e: Element)
    requires Sane(rules)
    ensures Parse(rules, root, [Start(e), Declaration, End, End]).progress ==
      if AttentionTo(rules, Deciding, [root.local], e).Dropped? then Closed else Failed(Malformed)
  {
    var kids := [Elem(e, [Stray(false)])];
    assert kids[1..] == [] && [Stray(false)][1..] == [];
    assert StepsOf(kids) == StepsOfNode(kids[0]) + StepsOf([]);
    assert StepsOf([Stray(false)]) == [Declaration];
    assert StepsOf(kids) + [End] == [Start(e), Declaration, End, End];
    var inner := AttentionTo(rules, Deciding, [root.local], e);
    assert FaultIn(rules, inner, [root.local] + [e.local], 2, [Stray(false)]) ==
      if inner.Dropped? then None else Some(Malformed);
    FirstFaultDecides(rules, root, kids);
  }

  /** The declaration that a dropped subtree hides refuses the document inside an XBRL
      context, which is read. */
  lemma ContextRefusesDeclaration(rules: Rules, root: Element, e: Element)
    requires Sane(rules) && rules.xbrl && e.namespace == NS_XBRL_INSTANCE && e.local == "context"
    ensures Parse(rules, root, [Start(e), Declaration, End, End]).progress == Failed(Malformed)
  {
    DeclarationInChild(rules, root, e);
  }

  /** The same document closes or is refused according to whether the caller asked for
      its metadata. */
  lemma MetadataDecidesDeclaration(rules: Rules, root: Element, e: Element, shape: Shape)
    requires Sane(rules) && !rules.xbrl && !rules.islands && rules.action([root.local], e) == Meta(shape)
    ensures Parse(rules, root, [Start(e), Declaration, End, End]).progress ==
      if rules.metadata then Failed(Malformed) else Closed
  {
    DeclarationInChild(rules, root, e);
  }

  /** The same declaration passes unseen inside a skipped child and refuses the
      document next to it. */
  lemma SkippedDeclarationIsIgnored(rules: Rules, root: Element, e: Element)
    requires !rules.xbrl && !rules.islands && rules.action([root.local], e) == Skip
    ensures Parse(rules, root, [Start(e), Declaration, End, End]).progress == Closed
    ensures Parse(rules, root, [Declaration, End]).progress == Failed(Malformed)
  {
    var b := Begin(rules, root);
    assert b.Open() == [root.local];
    SkippedChildCloses(rules, b, e, [Start(e), Declaration, End, End] + [Eof]);
    assert ([Declaration, End] + [Eof])[1..] == [End, Eof];
    OverStaysOver(rules, OnStep(rules, b, Declaration), [End, Eof]);
  }

  lemma SkippedChildCloses(rules: Rules, b: State, e: Element, steps: seq<Step>)
    requires Plain(b) && b.kept.record.None? && |b.stack| == 1 && b.openElements == 1
    requires !rules.xbrl && !rules.islands && rules.action(b.Open(), e) == Skip
    requires steps == [Start(e), Declaration, End, End, Eof]
    ensures OnSteps(rules, b, steps).progress == Closed
  {
    FlushOwnOpen(CountElement(b), false);
    var a := OnStep(rules, b, Start(e));
    assert a.skipping == 1 && a.kept.record.None? && a.progress == Running && |a.stack| == 1;
    assert steps[1..] == [Declaration, End, End, Eof];
    SkippedTailCloses(rules, a, steps[1..]);
  }

  lemma SkippedTailCloses(rules: Rules, a: State, steps: seq<Step>)
    requires a.skipping == 1 && a.kept.record.None? && a.progress == Running && |a.stack| == 1
    requires steps == [Declaration, End, End, Eof]
    ensures OnSteps(rules, a, steps).progress == Closed
  {
    assert OnStep(rules, a, Declaration) == a;
    assert steps[1..] == [End, End, Eof];
    EndsClose(rules, a, steps[1..]);
  }

  lemma EndsClose(rules: Rules, a: State, steps: seq<Step>)
    requires a.skipping == 1 && a.kept.record.None? && a.progress == Running && |a.stack| == 1
    requires steps == [End, End, Eof]
    ensures OnSteps(rules, a, steps).progress == Closed
  {
    var t := OnStep(rules, a, End);
    assert t == UncountElement(a).(skipping := 0);
    LastEndCloses(rules, t);
    assert steps[1..] == [End, Eof] && steps[1..][1..] == [Eof];
    OverStaysOver(rules, OnStep(rules, t, End), [Eof]);
  }
}
