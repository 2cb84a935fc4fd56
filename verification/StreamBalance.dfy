/** Well-formed content through the forward pass: every element read leaves the open
    elements as they were, and only nesting past the bound stops the pass. */
module StreamBalance {
  import opened Basics
  import opened Wrappers
  import opened Xml
  import opened Stream

  /** How deep the elements of content nest. */
  function Depth(nodes: seq<Node>): nat
    decreases nodes
  {
    if nodes == [] then 0 else Max(DepthOf(nodes[0]), Depth(nodes[1..]))
  }

  function DepthOf(node: Node): nat
    decreases node
  {
    match node
    case Elem(_, kids) => 1 + Depth(kids)
    case _ => 0
  }

  /** Elements of content, at any depth. */
  function Elements(nodes: seq<Node>): nat
    decreases nodes
  {
    if nodes == [] then 0 else ElementsIn(nodes[0]) + Elements(nodes[1..])
  }

  function ElementsIn(node: Node): nat
    decreases node
  {
    match node
    case Elem(_, kids) => 1 + Elements(kids)
    case _ => 0
  }

  lemma {:induction false} OnStepsConcat(rules: Rules, s: State, a: seq<Step>, b: seq<Step>)
    ensures OnSteps(rules, s, a + b) == OnSteps(rules, OnSteps(rules, s, a), b)
    decreases |a|
  {
    if a == [] {
      assert a + b == b;
    } else {
      assert (a + b)[1..] == a[1..] + b;
      OnStepsConcat(rules, OnStep(rules, s, a[0]), a[1..], b);
    }
  }

  lemma OnStepsOne(rules: Rules, s: State, step: Step)
    ensures OnSteps(rules, s, [step]) == OnStep(rules, s, step)
  {
    assert OnSteps(rules, OnStep(rules, s, step), [step][1..]) == OnStep(rules, s, step);
  }

  /** An element is its start tag, its content and its end tag. */
  lemma OnElement(rules: Rules, s: State, e: Element, kids: seq<Node>)
    ensures OnSteps(rules, s, StepsOfNode(Elem(e, kids)))
         == OnStep(rules, OnSteps(rules, OnStep(rules, s, Start(e)), StepsOf(kids)), End)
  {
    OnStepsConcat(rules, s, [Start(e)] + StepsOf(kids), [End]);
    OnStepsConcat(rules, s, [Start(e)], StepsOf(kids));
    OnStepsOne(rules, s, Start(e));
    OnStepsOne(rules, OnSteps(rules, s, [Start(e)] + StepsOf(kids)), End);
  }

  lemma {:induction false} OverStaysOver(rules: Rules, s: State, steps: seq<Step>)
    requires s.progress != Running
    ensures OnSteps(rules, s, steps) == s
    decreases |steps|
  {
    if steps != [] {
      OverStaysOver(rules, s, steps[1..]);
    }
  }

  /** As many elements open and as much skipped. */
  predicate Level(s: State, t: State) {
    |t.stack| == |s.stack| && t.openElements == s.openElements && t.skipping == s.skipping && t.progress == s.progress
  }

  lemma FlushLevel(s: State, closing: bool)
    ensures Level(s, FlushPending(s)) && Level(s, FlushOwn(s, closing))
  {
  }

  lemma MappedLevel(rules: Rules, s: State, e: Element)
    requires s.skipping == 0
    ensures var t := Mapped(rules, s, e);
      && t.openElements == s.openElements && t.progress == s.progress
      && ((|t.stack| == |s.stack| + 1 && t.skipping == 0) || (|t.stack| == |s.stack| && t.skipping == 1))
  {
    var action, t := rules.action(s.Open(), e), Push(s, e);
    if action.AttrText? {
      FlushLevel(t, false);
    }
  }

  /** A start tag opens one element, or starts skipping it. */
  lemma StartLevel(rules: Rules, s: State, e: Element)
    requires s.progress == Running && s.openElements < MAX_DEPTH
    ensures var t := OnStep(rules, s, Start(e));
      && t.progress == Running && t.openElements == s.openElements + 1
      && ((|t.stack| == |s.stack| + 1 && t.skipping == s.skipping == 0)
        || (|t.stack| == |s.stack| && t.skipping == s.skipping + 1))
  {
    if s.skipping == 0 {
      var c := CountElement(s);
      if s.island.None? && s.capture.None? && s.fact.None? && s.table.None? && !rules.xbrl {
        FlushLevel(c, false);
        MappedLevel(rules, FlushOwn(c, false), e);
      }
    }
  }

  lemma TableCloseLevel(s: State, t: TableBuild)
    ensures Level(s, TableClose(s, t))
  {
  }

  lemma FinishCaptureLevel(s: State, c: CaptureBuild)
    ensures Level(s, FinishCapture(s, c))
  {
    FlushLevel(s.(capture := None), false);
  }

  lemma OnEndLevel(s: State)
    requires |s.stack| >= 2 && s.progress == Running
    ensures var t := OnEnd(s);
      t.progress == Running && |t.stack| == |s.stack| - 1 && t.openElements == s.openElements
        && t.skipping == s.skipping
  {
    if s.island.Some? {
    } else if s.capture.Some? {
      FinishCaptureLevel(s, s.capture.value);
    } else if s.fact.Some? {
    } else if s.table.Some? {
      TableCloseLevel(s, s.table.value);
    } else {
      FlushLevel(s, true);
      var t := if s.pending.Some? && |s.stack| == s.pending.value.wrapperDepth then FlushPending(s) else s;
      FlushLevel(t, true);
    }
  }

  /** An end tag undoes what its start tag did to the open elements. */
  lemma EndLevel(rules: Rules, s: State)
    requires s.progress == Running && s.openElements > 0 && (s.skipping > 0 || |s.stack| >= 2)
    ensures var t := OnStep(rules, s, End);
      && t.progress == Running && t.openElements == s.openElements - 1
      && (if s.skipping > 0 then |t.stack| == |s.stack| && t.skipping == s.skipping - 1
          else |t.stack| == |s.stack| - 1 && t.skipping == 0)
  {
    if s.skipping == 0 {
      OnEndLevel(UncountElement(s));
    }
  }

  lemma TextLevel(rules: Rules, s: State, step: Step)
    requires step.Text? || step.CData? || step.GeneralRef? || step.Ignorable?
    ensures Level(s, OnStep(rules, s, step))
  {
  }

  predicate TooDeep(s: State, depth: nat) {
    depth > 0 && s.openElements + depth > MAX_DEPTH
  }

  /** Whatever the rules answer, content leaves the pass at the level it found it, or
      is refused when it nests past the bound. */
  lemma {:induction false} ContentLevel(rules: Rules, s: State, nodes: seq<Node>)
    requires s.progress == Running && |s.stack| >= 1 && Clean(nodes)
    ensures var t := OnSteps(rules, s, StepsOf(nodes));
      if TooDeep(s, Depth(nodes)) then t.progress == Failed(Refused) else Level(s, t)
    decreases nodes
  {
    if nodes != [] {
      var t := OnSteps(rules, s, StepsOfNode(nodes[0]));
      OnStepsConcat(rules, s, StepsOfNode(nodes[0]), StepsOf(nodes[1..]));
      NodeLevel(rules, s, nodes[0]);
      if t.progress == Running {
        ContentLevel(rules, t, nodes[1..]);
      } else {
        OverStaysOver(rules, t, StepsOf(nodes[1..]));
      }
    }
  }

  lemma {:induction false} NodeLevel(rules: Rules, s: State, node: Node)
    requires s.progress == Running && |s.stack| >= 1 && CleanNode(node)
    ensures var t := OnSteps(rules, s, StepsOfNode(node));
      if TooDeep(s, DepthOf(node)) then t.progress == Failed(Refused) else Level(s, t)
    decreases node
  {
    if node.Elem? {
      OnElement(rules, s, node.element, node.kids);
      var a := OnStep(rules, s, Start(node.element));
      var b := OnSteps(rules, a, StepsOf(node.kids));
      if s.openElements >= MAX_DEPTH {
        OverStaysOver(rules, a, StepsOf(node.kids));
        assert TooDeep(s, DepthOf(node));
      } else {
        StartLevel(rules, s, node.element);
        ContentLevel(rules, a, node.kids);
        assert TooDeep(s, DepthOf(node)) <==> TooDeep(a, Depth(node.kids));
        if b.progress == Running {
          EndLevel(rules, b);
        }
      }
    } else {
      OnStepsOne(rules, s, StepsOfNode(node)[0]);
      TextLevel(rules, s, StepsOfNode(node)[0]);
    }
  }

  /** A well-formed document closes under any rules unless it nests too deep, and is
      refused exactly then. */
  lemma WellFormedCloses(rules: Rules, root: Element, kids: seq<Node>)
    requires Clean(kids)
    ensures Parse(rules, root, StepsOf(kids) + [End]).progress ==
      if 1 + Depth(kids) <= MAX_DEPTH then Closed else Failed(Refused)
  {
    var b, steps := Begin(rules, root), StepsOf(kids);
    ContentLevel(rules, b, kids);
    OnStepsConcat(rules, b, steps, [End] + [Eof]);
    assert steps + [End] + [Eof] == steps + ([End] + [Eof]);
    var t := OnSteps(rules, b, steps);
    OnStepsConcat(rules, t, [End], [Eof]);
    OnStepsOne(rules, t, End);
    if 1 + Depth(kids) <= MAX_DEPTH {
      LastEndCloses(rules, t);
    }
    OverStaysOver(rules, OnStep(rules, t, End), [Eof]);
  }

  lemma LastEndCloses(rules: Rules, t: State)
    requires t.progress == Running && t.skipping == 0 && |t.stack| == 1
    ensures OnStep(rules, t, End).progress == Closed
  {
    var s := UncountElement(t);
    if s.island.Some? {
    } else if s.capture.Some? {
      FinishCaptureLevel(s, s.capture.value);
    } else if s.fact.Some? {
    } else if s.table.Some? {
      TableCloseLevel(s, s.table.value);
    } else {
      FlushLevel(s, true);
      var u := if s.pending.Some? && |s.stack| == s.pending.value.wrapperDepth then FlushPending(s) else s;
      FlushLevel(u, true);
    }
  }
}
