/** Which captions a document has, read off its tree, and that exactly those are
    delivered: each once, in order, with the text its own content makes. */
module CaptionTexts {
  import opened Basics
  import opened Wrappers
  import opened Collapse
  import opened Xml
  import opened Stream
  import opened StreamBalance
  import opened StreamModes
  import opened StreamFaults
  import opened StreamCaptions
  import opened StreamText
  import Flatten

  /** The rules map this element as a caption. */
  predicate IsCaption(rules: Rules, open: seq<string>, e: Element) {
    !rules.xbrl && !(rules.islands && e.namespace == NS_XHTML) && rules.action(open, e).Caption?
  }

  /** The captions of content the rules decide about, in document order: the collapsed
      content of each element mapped as one, unless it is blank. Nothing inside a
      claimed or an unmapped element is a caption. */
  function CaptionsOf(rules: Rules, open: seq<string>, nodes: seq<Node>): seq<string>
    decreases nodes
  {
    if nodes == [] then [] else CaptionsIn(rules, open, nodes[0]) + CaptionsOf(rules, open, nodes[1..])
  }

  function CaptionsIn(rules: Rules, open: seq<string>, node: Node): seq<string>
    decreases node
  {
    if !node.Elem? then []
    else if AttentionTo(rules, Deciding, open, node.element).Deciding? then
      CaptionsOf(rules, open + [node.element.local], node.kids)
    else if IsCaption(rules, open, node.element) then NonBlank(Collapsed(Flatten.Spaced(node.kids, false).0))
    else []
  }

  function NonBlank(text: string): seq<string> {
    if text == "" then [] else [text]
  }

  // ------------------------------------------------------------------ nothing else is

  lemma {:induction false} AllCapturedConcat(rules: Rules, s: State, a: seq<Step>, b: seq<Step>)
    ensures AllCaptured(rules, s, a + b) == AllCaptured(rules, s, a) + AllCaptured(rules, OnSteps(rules, s, a), b)
    decreases |a|
  {
    if a == [] {
      assert a + b == b;
    } else {
      var t := OnStep(rules, s, a[0]);
      assert (a + b)[1..] == a[1..] + b;
      AllCapturedConcat(rules, t, a[1..], b);
      Assoc(Captured(s, a[0]), AllCaptured(rules, t, a[1..]), AllCaptured(rules, OnSteps(rules, t, a[1..]), b));
    }
  }

  lemma AllCapturedOne(rules: Rules, s: State, step: Step)
    ensures AllCaptured(rules, s, [step]) == Captured(s, step)
  {
    assert AllCaptured(rules, OnStep(rules, s, step), [step][1..]) == [];
  }

  /** An element's captions are those of its content and the one its end tag finishes. */
  lemma ElementCaptured(rules: Rules, s: State, e: Element, kids: seq<Node>, a: State, b: State)
    requires a == OnStep(rules, s, Start(e)) && b == OnSteps(rules, a, StepsOf(kids))
    ensures AllCaptured(rules, s, StepsOfNode(Elem(e, kids))) == AllCaptured(rules, a, StepsOf(kids)) + Captured(b, End)
  {
    AllCapturedConcat(rules, s, [Start(e)] + StepsOf(kids), [End]);
    AllCapturedConcat(rules, s, [Start(e)], StepsOf(kids));
    AllCapturedOne(rules, s, Start(e));
    OnStepsOne(rules, s, Start(e));
    OnStepsConcat(rules, s, [Start(e)], StepsOf(kids));
    AllCapturedOne(rules, b, End);
    assert [] + AllCaptured(rules, a, StepsOf(kids)) == AllCaptured(rules, a, StepsOf(kids));
  }

  /** A capture is open, and it is for a caption. */
  predicate CaptionOpen(s: State) {
    s.capture.Some? && s.capture.value.isCaption
  }

  /** Steps inside what is claimed or unmapped leave alone whether a caption is open. */
  lemma StartKeepsCaption(rules: Rules, s: State, e: Element)
    requires s.progress == Running && s.openElements < MAX_DEPTH && !AttentionOf(s).Deciding?
    ensures CaptionOpen(OnStep(rules, s, Start(e))) == CaptionOpen(s)
  {
  }

  lemma EndKeepsCaption(rules: Rules, s: State)
    requires Modes(s) && s.progress == Running
    requires AttentionOf(s).Unmapped() || (AttentionOf(s).Claimed? && ClaimDepth(s) != |s.stack|)
    ensures CaptionOpen(OnStep(rules, s, End)) == CaptionOpen(s) && Captured(s, End) == []
  {
  }

  lemma LeafKeepsCaption(rules: Rules, s: State, step: Step)
    requires !step.Start? && !step.End?
    ensures CaptionOpen(OnStep(rules, s, step)) == CaptionOpen(s) && Captured(s, step) == []
  {
  }

  /** Inside what is claimed or unmapped no caption is finished. */
  lemma {:induction false} HiddenContent(
    rules: Rules, s: State, nodes: seq<Node>, attention: Attention, open: seq<string>, level: nat)
    requires Sane(rules) && Within(s, attention, open, level) && !attention.Deciding?
    requires FaultIn(rules, attention, open, level, nodes).None?
    ensures AllCaptured(rules, s, StepsOf(nodes)) == []
    ensures CaptionOpen(OnSteps(rules, s, StepsOf(nodes))) == CaptionOpen(s)
    decreases nodes, 0
  {
    hide OnStep;
    if nodes != [] {
      var t := OnSteps(rules, s, StepsOfNode(nodes[0]));
      HiddenNode(rules, s, nodes[0], attention, open, level);
      NodeFaults(rules, s, nodes[0], attention, open, level, t);
      OnStepsModes(rules, s, StepsOfNode(nodes[0]));
      AllCapturedConcat(rules, s, StepsOfNode(nodes[0]), StepsOf(nodes[1..]));
      OnStepsConcat(rules, s, StepsOfNode(nodes[0]), StepsOf(nodes[1..]));
      HiddenContent(rules, t, nodes[1..], attention, open, level);
    }
  }

  lemma {:induction false} HiddenNode(
    rules: Rules, s: State, node: Node, attention: Attention, open: seq<string>, level: nat)
    requires Sane(rules) && Within(s, attention, open, level) && !attention.Deciding?
    requires FaultOf(rules, attention, open, level, node).None?
    ensures AllCaptured(rules, s, StepsOfNode(node)) == []
    ensures CaptionOpen(OnSteps(rules, s, StepsOfNode(node))) == CaptionOpen(s)
    decreases node, 0
  {
    hide OnStep;
    if node.Elem? {
      var a := OnStep(rules, s, Start(node.element));
      var b := OnSteps(rules, a, StepsOf(node.kids));
      HiddenElement(rules, s, node.element, node.kids, attention, open, level, a, b);
    } else {
      var step := StepsOfNode(node)[0];
      AllCapturedOne(rules, s, step);
      OnStepsOne(rules, s, step);
      LeafKeepsCaption(rules, s, step);
    }
  }

  lemma {:induction false} HiddenElement(
    rules: Rules, s: State, e: Element, kids: seq<Node>, attention: Attention, open: seq<string>, level: nat,
    a: State, b: State)
    requires Sane(rules) && Within(s, attention, open, level) && !attention.Deciding? && level < MAX_DEPTH
    requires FaultIn(rules, attention, open + [e.local], level + 1, kids).None?
    requires a == OnStep(rules, s, Start(e)) && b == OnSteps(rules, a, StepsOf(kids))
    ensures AllCaptured(rules, s, StepsOfNode(Elem(e, kids))) == []
    ensures CaptionOpen(OnSteps(rules, s, StepsOfNode(Elem(e, kids)))) == CaptionOpen(s)
    decreases kids, 1
  {
    hide OnStep;
    StartTurns(rules, s, e);
    OnStepModes(rules, s, Start(e));
    StartKeepsCaption(rules, s, e);
    HiddenContent(rules, a, kids, attention, open + [e.local], level + 1);
    ContentFaults(rules, a, kids, attention, open + [e.local], level + 1, b);
    OnStepsModes(rules, a, StepsOf(kids));
    HiddenClaim(s, a, b, e);
    EndKeepsCaption(rules, b);
    ElementCaptured(rules, s, e, kids, a, b);
    OnElement(rules, s, e, kids);
  }

  /** The element that claimed the content is not the one about to close. */
  lemma HiddenClaim(s: State, a: State, b: State, e: Element)
    requires Modes(s) && !AttentionOf(s).Deciding? && AttentionOf(a) == AttentionOf(s) && Attends(a, b)
    requires AttentionOf(s).Claimed? ==> ClaimDepth(a) == ClaimDepth(s) && |a.Open()| == |s.Open()| + 1
    ensures AttentionOf(b).Unmapped() || (AttentionOf(b).Claimed? && ClaimDepth(b) != |b.stack|)
  {
    assert |a.Open()| == |a.stack| && |s.Open()| == |s.stack|;
  }

  // ---------------------------------------------------------------- what is a caption

  /** Claimed content without a fault is clean and within the nesting bound. */
  lemma {:induction false} FaultlessIsClean(rules: Rules, open: seq<string>, level: nat, nodes: seq<Node>)
    requires FaultIn(rules, Claimed, open, level, nodes).None?
    ensures Clean(nodes) && (Depth(nodes) > 0 ==> level + Depth(nodes) <= MAX_DEPTH)
    decreases nodes
  {
    if nodes != [] {
      if nodes[0].Elem? {
        FaultlessIsClean(rules, open + [nodes[0].element.local], level + 1, nodes[0].kids);
      }
      FaultlessIsClean(rules, open, level, nodes[1..]);
    }
  }

  lemma {:induction false} ContentCaptions(rules: Rules, s: State, nodes: seq<Node>, open: seq<string>, level: nat)
    requires Sane(rules) && Within(s, Deciding, open, level)
    requires FaultIn(rules, Deciding, open, level, nodes).None?
    ensures AllCaptured(rules, s, StepsOf(nodes)) == CaptionsOf(rules, open, nodes)
    decreases nodes, 0
  {
    hide OnStep;
    if nodes != [] {
      var t := OnSteps(rules, s, StepsOfNode(nodes[0]));
      NodeCaptions(rules, s, nodes[0], open, level, AllCaptured(rules, s, StepsOfNode(nodes[0])));
      NodeFaults(rules, s, nodes[0], Deciding, open, level, t);
      OnStepsModes(rules, s, StepsOfNode(nodes[0]));
      AllCapturedConcat(rules, s, StepsOfNode(nodes[0]), StepsOf(nodes[1..]));
      ContentCaptions(rules, t, nodes[1..], open, level);
    }
  }

  lemma {:induction false} NodeCaptions(
    rules: Rules, s: State, node: Node, open: seq<string>, level: nat, captured: seq<string>)
    requires Sane(rules) && Within(s, Deciding, open, level)
    requires FaultOf(rules, Deciding, open, level, node).None?
    requires captured == AllCaptured(rules, s, StepsOfNode(node))
    ensures captured == CaptionsIn(rules, open, node)
    decreases node, 0
  {
    hide OnStep;
    if node.Elem? {
      var a := OnStep(rules, s, Start(node.element));
      ElementCaptions(rules, s, node.element, node.kids, open, level, a, OnSteps(rules, a, StepsOf(node.kids)),
                      captured);
    } else {
      LeafCaptions(rules, s, node);
    }
  }

  lemma LeafCaptions(rules: Rules, s: State, node: Node)
    requires !node.Elem?
    ensures AllCaptured(rules, s, StepsOfNode(node)) == []
  {
    AllCapturedOne(rules, s, StepsOfNode(node)[0]);
  }

  lemma {:induction false} ElementCaptions(
    rules: Rules, s: State, e: Element, kids: seq<Node>, open: seq<string>, level: nat, a: State, b: State,
    captured: seq<string>)
    requires Sane(rules) && Within(s, Deciding, open, level) && level < MAX_DEPTH
    requires FaultIn(rules, AttentionTo(rules, Deciding, open, e), open + [e.local], level + 1, kids).None?
    requires a == OnStep(rules, s, Start(e)) && b == OnSteps(rules, a, StepsOf(kids))
    requires captured == AllCaptured(rules, s, StepsOfNode(Elem(e, kids)))
    ensures captured == CaptionsIn(rules, open, Elem(e, kids))
    decreases kids, 2
  {
    hide OnStep;
    var inner := AttentionTo(rules, Deciding, open, e);
    EntersWithin(rules, s, e, Deciding, open, level, a);
    ElementCaptured(rules, s, e, kids, a, b);
    if inner.Deciding? {
      OpenContentCaptions(rules, a, kids, open + [e.local], level + 1, b);
    } else {
      HiddenContent(rules, a, kids, inner, open + [e.local], level + 1);
      if IsCaption(rules, open, e) {
        CaptionCaptured(rules, s, e, kids, open, level, b);
      } else {
        NoCaptionOpens(rules, s, e);
        NoCaptionEnds(b);
      }
    }
  }

  /** An element the rules go on deciding in finishes no caption of its own. */
  lemma {:induction false} OpenContentCaptions(
    rules: Rules, a: State, kids: seq<Node>, open: seq<string>, level: nat, b: State)
    requires Sane(rules) && Within(a, Deciding, open, level) && b == OnSteps(rules, a, StepsOf(kids))
    requires FaultIn(rules, Deciding, open, level, kids).None?
    ensures AllCaptured(rules, a, StepsOf(kids)) + Captured(b, End) == CaptionsOf(rules, open, kids)
    decreases kids, 1
  {
    hide OnStep;
    ContentCaptions(rules, a, kids, open, level);
    ContentFaults(rules, a, kids, Deciding, open, level, b);
    NoCaptionEnds(b);
    assert CaptionsOf(rules, open, kids) + [] == CaptionsOf(rules, open, kids);
  }

  lemma NoCaptionEnds(b: State)
    requires !CaptionOpen(b)
    ensures Captured(b, End) == []
  {
  }

  /** Only an element mapped as a caption opens one. */
  lemma NoCaptionOpens(rules: Rules, s: State, e: Element)
    requires Plain(s) && s.openElements < MAX_DEPTH && !IsCaption(rules, s.Open(), e)
    ensures !CaptionOpen(OnStep(rules, s, Start(e)))
  {
    var c := CountElement(s);
    FlushOwnOpen(c, false);
    assert c.Open() == s.Open();
  }

  lemma CaptionCaptured(rules: Rules, s: State, e: Element, kids: seq<Node>, open: seq<string>, level: nat, b: State)
    requires Within(s, Deciding, open, level) && level < MAX_DEPTH && IsCaption(rules, open, e)
    requires FaultIn(rules, Claimed, open + [e.local], level + 1, kids).None?
    requires b == OnSteps(rules, OnStep(rules, s, Start(e)), StepsOf(kids))
    ensures Captured(b, End) == NonBlank(Collapsed(Flatten.Spaced(kids, false).0))
  {
    hide OnStep;
    FaultlessIsClean(rules, open + [e.local], level + 1, kids);
    CaptionIsCaptured(rules, s, e, kids, b);
  }

  lemma CaptionIsCaptured(rules: Rules, s: State, e: Element, kids: seq<Node>, b: State)
    requires Captures(rules, s, e, WantedBy(Action.Caption).value) && !TooDeep(s, 1 + Depth(kids)) && Clean(kids)
    requires b == OnSteps(rules, OnStep(rules, s, Start(e)), StepsOf(kids))
    ensures Captured(b, End) == NonBlank(Collapsed(Flatten.Spaced(kids, false).0))
  {
    hide OnStep;
    var w := WantedBy(Action.Caption).value;
    var flow, filled := CaptureFills(rules, s, e, kids, w);
    CaptureOpenedReady(rules, s, e, w);
    FilledCaptured(CaptureOpened(rules, s, e, w), Opened(rules, s, e, w), flow, AnyCdata(kids), Elements(kids), filled);
  }

  /** A caption about to close is captured unless it is blank. */
  lemma FilledCaptured(a: State, c: CaptureBuild, flow: Flatten.Flow, cdata: bool, elements: nat, b: State)
    requires Capturing(a, c) && c.isCaption && c.depth == |a.stack| && b == Filled(a, c, flow, cdata, elements)
    ensures Captured(b, End) == NonBlank(Flatten.Finished(flow).0)
  {
  }

  // ------------------------------------------------------------------- whole documents

  /** The captions a finished run delivers, as table captions or on their own, are
      exactly those of the tree, each once and in document order, with the text the
      law of captures gives their own content. */
  lemma DeliveredAreTheCaptions(rules: Rules, root: Element, kids: seq<Node>)
    requires Sane(rules) && Parse(rules, root, StepsOf(kids) + [End]).progress == Closed
    ensures Delivered(Parse(rules, root, StepsOf(kids) + [End]).out) == CaptionsOf(rules, [root.local], kids)
  {
    var b, steps := Begin(rules, root), StepsOf(kids);
    BeginModes(rules, root);
    assert b.Open() == [root.local];
    CaptionsAreConserved(rules, root, steps + [End]);
    FirstFaultDecides(rules, root, kids);
    ContentCaptions(rules, b, kids, [root.local], 1);
    ContentFaults(rules, b, kids, Deciding, [root.local], 1, OnSteps(rules, b, steps));
    TailCapturesNothing(rules, b, steps);
  }

  lemma TailCapturesNothing(rules: Rules, b: State, steps: seq<Step>)
    requires AttentionOf(OnSteps(rules, b, steps)).Deciding? && OnSteps(rules, b, steps).progress == Running
    requires |OnSteps(rules, b, steps).stack| == 1 && OnSteps(rules, b, steps).skipping == 0
    ensures AllCaptured(rules, b, steps + [End] + [Eof]) == AllCaptured(rules, b, steps)
  {
    var t := OnSteps(rules, b, steps);
    AllCapturedConcat(rules, b, steps + [End], [Eof]);
    AllCapturedConcat(rules, b, steps, [End]);
    AllCapturedOne(rules, t, End);
    AllCapturedOne(rules, OnSteps(rules, b, steps + [End]), Eof);
  }
}
