/** Flattening markup into one string, with a run recorded over it for every
    element the dialect recognizes: what captures and table cells share. */
module Flatten {
  import opened Basics
  import opened Wrappers
  import opened Collapse
  import opened Xml

  /** Runs recorded in one capture or cell at most. */
  const MAX_INLINE_SPANS: nat := 512

  /** What an inline rule answers for an element: the run it marks, with its styles and links. */
  datatype Inline = Inline(styles: seq<int>, hyperlink: Option<string>, linkFromText: Option<string>,
                           references: seq<string>, referenceKind: int)

  /** The dialect's inline vocabulary, given the open ancestors and the element. */
  type InlineRule = (seq<string>, Element) -> Option<Inline>

  /** A recorded run: its start, its end once its element closed, and the depth it opened at. */
  datatype SpanBuild = SpanBuild(depth: nat, start: nat, end: Option<nat>, inline: Inline, element: Element)

  /** Text captured so far and its length, kept beside it; runs in the order they
      opened; and whether the last thing captured was an end tag. */
  datatype Flow = Flow(text: string, chars: nat, spans: seq<SpanBuild>, afterChild: bool)
  {
    predicate Counted() {
      chars == |text|
    }

    function Append(more: string): Flow {
      Flow(text + more, chars + |more|, spans, false)
    }

    /** What a start tag adds to the text: a space, if an end tag came last and the text
        does not end in whitespace yet. */
    function Boundary(): Flow {
      if afterChild && text != "" && !IsWhitespace(text[|text| - 1]) then Flow(text + " ", chars + 1, spans, false)
      else Flow(text, chars, spans, false)
    }

    function Open(depth: nat, inline: Option<Inline>, element: Element): Flow {
      if inline.Some? && |spans| < MAX_INLINE_SPANS
      then Flow(text, chars, spans + [SpanBuild(depth, chars, None, inline.value, element)], afterChild)
      else this
    }

    /** The flow after an end tag: the last unclosed run of this depth, if any, ends here. */
    function Close(depth: nat): Flow {
      Flow(text, chars, CloseInnermost(spans, depth, chars), true)
    }

    /** A child's start tag, read under these open elements. */
    function Enter(open: seq<string>, element: Element, rule: InlineRule, recording: bool): Flow {
      var f := Boundary();
      if recording then f.Open(|open| + 1, rule(open, element), element) else f
    }
  }

  const EMPTY := Flow("", 0, [], false)

  function CloseInnermost(spans: seq<SpanBuild>, depth: nat, at: nat): (r: seq<SpanBuild>)
    ensures |r| == |spans|
  {
    if spans == [] then []
    else
      var n := |spans| - 1;
      if spans[n].end.None? && spans[n].depth == depth then spans[..n] + [spans[n].(end := Some(at))]
      else CloseInnermost(spans[..n], depth, at) + [spans[n]]
  }

  // ------------------------------------------------------------ step by step, by tree

  /** One step inside a capture: the open elements and the flow after it. */
  function Feed(open: seq<string>, f: Flow, step: Step, rule: InlineRule, recording: bool): (seq<string>, Flow) {
    match step
    case Start(e) => (open + [e.local], f.Enter(open, e, rule, recording))
    case End => (if open == [] then [] else open[..|open| - 1], f.Close(|open|))
    case Text(text) => (open, f.Append(text))
    case CData(text) => (open, f.Append(text))
    case GeneralRef(name, resolved) => (open, f.Append(ReferenceText(name, resolved)))
    case _ => (open, f)
  }

  function FeedAll(open: seq<string>, f: Flow, steps: seq<Step>, rule: InlineRule, recording: bool): (seq<string>, Flow)
    decreases |steps|
  {
    if steps == [] then (open, f)
    else
      var (open', f') := Feed(open, f, steps[0], rule, recording);
      FeedAll(open', f', steps[1..], rule, recording)
  }

  /** The same by recursion on the content: an element's run is the one it opened,
      closed where its content ends. */
  function Poured(open: seq<string>, f: Flow, nodes: seq<Node>, rule: InlineRule, recording: bool): Flow
    decreases nodes
  {
    if nodes == [] then f
    else Poured(open, PouredNode(open, f, nodes[0], rule, recording), nodes[1..], rule, recording)
  }

  function PouredNode(open: seq<string>, f: Flow, node: Node, rule: InlineRule, recording: bool): Flow
    decreases node
  {
    match node
    case Chars(text, _) => f.Append(text)
    case Ref(name, resolved) => f.Append(ReferenceText(name, resolved))
    case Note => f
    case Stray(_) => f
    case Elem(e, kids) =>
      var g := f.Enter(open, e, rule, recording);
      var k := Poured(open + [e.local], g, kids, rule, recording);
      Flow(k.text, k.chars, if |g.spans| > |f.spans| then EndAt(k.spans, |f.spans|, k.chars) else k.spans, true)
  }

  function EndAt(spans: seq<SpanBuild>, n: nat, at: nat): seq<SpanBuild> {
    if n < |spans| then spans[n := spans[n].(end := Some(at))] else spans
  }

  /** Open runs belong to open elements. */
  predicate Shallow(spans: seq<SpanBuild>, depth: nat) {
    forall i :: 0 <= i < |spans| && spans[i].end.None? ==> spans[i].depth <= depth
  }

  /** From the n-th on every run is closed. */
  predicate ClosedFrom(spans: seq<SpanBuild>, n: nat) {
    forall i :: n <= i < |spans| ==> spans[i].end.Some?
  }

  lemma {:induction false} FeedAllConcat(
    open: seq<string>, f: Flow, a: seq<Step>, b: seq<Step>, rule: InlineRule, recording: bool)
    ensures FeedAll(open, f, a + b, rule, recording)
         == FeedAll(FeedAll(open, f, a, rule, recording).0, FeedAll(open, f, a, rule, recording).1, b, rule, recording)
    decreases |a|
  {
    if a == [] {
      assert a + b == b;
    } else {
      var (open', f') := Feed(open, f, a[0], rule, recording);
      assert (a + b)[1..] == a[1..] + b;
      FeedAllConcat(open', f', a[1..], b, rule, recording);
    }
  }

  lemma {:induction false} CloseNothing(spans: seq<SpanBuild>, depth: nat, at: nat)
    requires forall i :: 0 <= i < |spans| && spans[i].end.None? ==> spans[i].depth != depth
    ensures CloseInnermost(spans, depth, at) == spans
    decreases |spans|
  {
    if spans != [] {
      CloseNothing(spans[..|spans| - 1], depth, at);
    }
  }

  lemma {:induction false} CloseExactly(spans: seq<SpanBuild>, n: nat, depth: nat, at: nat)
    requires n < |spans| && spans[n].end.None? && spans[n].depth == depth
    requires forall i :: n < i < |spans| && spans[i].end.None? ==> spans[i].depth != depth
    ensures CloseInnermost(spans, depth, at) == spans[n := spans[n].(end := Some(at))]
    decreases |spans|
  {
    var m := |spans| - 1;
    if n < m {
      CloseExactly(spans[..m], n, depth, at);
    }
  }

  /** Pouring appends text, keeps the runs there were, and closes all it opens. */
  lemma {:induction false} PouredKeeps(open: seq<string>, f: Flow, nodes: seq<Node>, rule: InlineRule, recording: bool)
    ensures var k := Poured(open, f, nodes, rule, recording);
      f.text <= k.text && f.spans <= k.spans && ClosedFrom(k.spans, |f.spans|)
    decreases nodes
  {
    if nodes != [] {
      PouredNodeKeeps(open, f, nodes[0], rule, recording);
      PouredKeeps(open, PouredNode(open, f, nodes[0], rule, recording), nodes[1..], rule, recording);
    }
  }

  lemma {:induction false} PouredNodeKeeps(open: seq<string>, f: Flow, node: Node, rule: InlineRule, recording: bool)
    ensures var k := PouredNode(open, f, node, rule, recording);
      f.text <= k.text && f.spans <= k.spans && ClosedFrom(k.spans, |f.spans|)
    decreases node
  {
    if node.Elem? {
      var g := f.Enter(open, node.element, rule, recording);
      PouredKeeps(open + [node.element.local], g, node.kids, rule, recording);
    }
  }

  /** The step machine, with its search for the innermost open run, does what the
      recursion on content does. */
  lemma {:induction false} FeedIsPoured(open: seq<string>, f: Flow, nodes: seq<Node>, rule: InlineRule, recording: bool)
    requires Shallow(f.spans, |open|)
    ensures FeedAll(open, f, StepsOf(nodes), rule, recording) == (open, Poured(open, f, nodes, rule, recording))
    decreases nodes
  {
    if nodes != [] {
      var k := PouredNode(open, f, nodes[0], rule, recording);
      FeedIsPouredNode(open, f, nodes[0], rule, recording);
      PouredNodeKeeps(open, f, nodes[0], rule, recording);
      FeedAllConcat(open, f, StepsOfNode(nodes[0]), StepsOf(nodes[1..]), rule, recording);
      FeedIsPoured(open, k, nodes[1..], rule, recording);
    }
  }

  lemma {:induction false} FeedIsPouredNode(open: seq<string>, f: Flow, node: Node, rule: InlineRule, recording: bool)
    requires Shallow(f.spans, |open|)
    ensures FeedAll(open, f, StepsOfNode(node), rule, recording) == (open, PouredNode(open, f, node, rule, recording))
    decreases node
  {
    if node.Elem? {
      var e, inner := node.element, open + [node.element.local];
      var g := f.Enter(open, e, rule, recording);
      var k := Poured(inner, g, node.kids, rule, recording);
      FeedIsPoured(inner, g, node.kids, rule, recording);
      PouredKeeps(inner, g, node.kids, rule, recording);
      FeedElement(open, f, e, StepsOf(node.kids), rule, recording);
      if |g.spans| > |f.spans| {
        CloseExactly(k.spans, |f.spans|, |inner|, k.chars);
      } else {
        CloseNothing(k.spans, |inner|, k.chars);
      }
      assert inner[..|inner| - 1] == open;
    } else {
      FeedOne(open, f, StepsOfNode(node)[0], rule, recording);
    }
  }

  lemma FeedOne(open: seq<string>, f: Flow, step: Step, rule: InlineRule, recording: bool)
    ensures FeedAll(open, f, [step], rule, recording) == Feed(open, f, step, rule, recording)
  {
    var (open', f') := Feed(open, f, step, rule, recording);
    assert FeedAll(open', f', [step][1..], rule, recording) == (open', f');
  }

  lemma FeedElement(open: seq<string>, f: Flow, e: Element, inside: seq<Step>, rule: InlineRule, recording: bool)
    ensures var (open', f') := FeedAll(open + [e.local], f.Enter(open, e, rule, recording), inside, rule, recording);
      FeedAll(open, f, [Start(e)] + inside + [End], rule, recording) == Feed(open', f', End, rule, recording)
  {
    var (open', f') := FeedAll(open + [e.local], f.Enter(open, e, rule, recording), inside, rule, recording);
    FeedOne(open, f, Start(e), rule, recording);
    FeedAllConcat(open, f, [Start(e)], inside, rule, recording);
    FeedAllConcat(open, f, [Start(e)] + inside, [End], rule, recording);
    FeedOne(open', f', End, rule, recording);
  }

  /** Pouring an element is entering it, pouring its content, and closing the run its
      end tag finds open at its depth. */
  lemma PouredElement(open: seq<string>, f: Flow, e: Element, kids: seq<Node>, rule: InlineRule, recording: bool)
    requires Shallow(f.spans, |open|)
    ensures PouredNode(open, f, Elem(e, kids), rule, recording)
         == Poured(open + [e.local], f.Enter(open, e, rule, recording), kids, rule, recording).Close(|open| + 1)
    ensures Shallow(f.Enter(open, e, rule, recording).spans, |open| + 1)
    ensures Shallow(PouredNode(open, f, Elem(e, kids), rule, recording).spans, |open|)
  {
    var g := f.Enter(open, e, rule, recording);
    FeedIsPouredNode(open, f, Elem(e, kids), rule, recording);
    FeedElement(open, f, e, StepsOf(kids), rule, recording);
    FeedIsPoured(open + [e.local], g, kids, rule, recording);
    PouredNodeKeeps(open, f, Elem(e, kids), rule, recording);
  }

  // ------------------------------------------------------------- what a capture says

  /** The character data of content in order, with one space wherever an end tag is
      followed by a start tag with no text between; and whether it ends in one. */
  function Spaced(nodes: seq<Node>, afterChild: bool): (string, bool)
    decreases nodes
  {
    if nodes == [] then ("", afterChild)
    else
      var (first, after) := SpacedNode(nodes[0], afterChild);
      var (rest, after') := Spaced(nodes[1..], after);
      (first + rest, after')
  }

  function SpacedNode(node: Node, afterChild: bool): (string, bool)
    decreases node
  {
    match node
    case Chars(text, _) => (text, false)
    case Ref(name, resolved) => (ReferenceText(name, resolved), false)
    case Note => ("", afterChild)
    case Stray(_) => ("", afterChild)
    case Elem(_, kids) => ((if afterChild then " " else "") + Spaced(kids, false).0, true)
  }

  /** An element the dialect recognizes, with its own content as text. */
  datatype Run = Run(inline: Inline, element: Element, text: string)

  /** The recognized elements of content, in the order they open. */
  function Runs(open: seq<string>, nodes: seq<Node>, rule: InlineRule): seq<Run>
    decreases nodes
  {
    if nodes == [] then [] else RunsOfNode(open, nodes[0], rule) + Runs(open, nodes[1..], rule)
  }

  function RunsOfNode(open: seq<string>, node: Node, rule: InlineRule): seq<Run>
    decreases node
  {
    match node
    case Elem(e, kids) =>
      var inside := Runs(open + [e.local], kids, rule);
      var inline := rule(open, e);
      if inline.Some? then [Run(inline.value, e, Spaced(kids, false).0)] + inside else inside
    case _ => []
  }

  function Take<T>(s: seq<T>, n: nat): seq<T> {
    if |s| <= n then s else s[..n]
  }

  /** Texts no pass can tell apart, whatever follows them. */
  predicate Alike(a: string, b: string) {
    Scan(START, a) == Scan(START, b)
  }

  lemma AlikeAppend(a: string, b: string, more: string)
    requires Alike(a, b)
    ensures Alike(a + more, b + more)
  {
    ScanConcat(START, a, more);
    ScanConcat(START, b, more);
  }

  lemma SpaceAfterSpace(s: string)
    requires s == "" || IsWhitespace(s[|s| - 1])
    ensures Alike(s + " ", s)
  {
    ScanSnoc(START, s, ' ');
    if s != "" {
      var front, c := s[..|s| - 1], s[|s| - 1];
      assert s == front + [c];
      ScanSnoc(START, front, c);
    }
  }

  lemma BoundaryAlike(f: Flow, b: nat, p: string)
    requires b <= |f.text| && Alike(f.text[b..], p)
    ensures f.text <= f.Boundary().text
    ensures Alike(f.Boundary().text[b..], p + if f.afterChild then " " else "")
  {
    var s := f.text[b..];
    AlikeAppend(s, p, " ");
    assert p + "" == p;
    if f.afterChild {
      if f.text != "" && !IsWhitespace(f.text[|f.text| - 1]) {
        assert (f.text + " ")[b..] == s + " ";
      } else {
        assert s != "" ==> s[|s| - 1] == f.text[|f.text| - 1];
        SpaceAfterSpace(s);
      }
    }
  }

  /** From any point on, the raw text is the spaced content after that point. */
  lemma {:induction false} PouredText(
    open: seq<string>, f: Flow, nodes: seq<Node>, rule: InlineRule, recording: bool, b: nat, p: string)
    requires b <= |f.text| && Alike(f.text[b..], p)
    ensures var k := Poured(open, f, nodes, rule, recording);
      f.text <= k.text && Alike(k.text[b..], p + Spaced(nodes, f.afterChild).0)
        && k.afterChild == Spaced(nodes, f.afterChild).1
    decreases nodes
  {
    if nodes == [] {
      assert p + "" == p;
    } else {
      var k := PouredNode(open, f, nodes[0], rule, recording);
      var (first, after) := SpacedNode(nodes[0], f.afterChild);
      PouredNodeText(open, f, nodes[0], rule, recording, b, p);
      PouredText(open, k, nodes[1..], rule, recording, b, p + first);
      Assoc(p, first, Spaced(nodes[1..], after).0);
    }
  }

  lemma {:induction false} PouredNodeText(
    open: seq<string>, f: Flow, node: Node, rule: InlineRule, recording: bool, b: nat, p: string)
    requires b <= |f.text| && Alike(f.text[b..], p)
    ensures var k := PouredNode(open, f, node, rule, recording);
      f.text <= k.text && Alike(k.text[b..], p + SpacedNode(node, f.afterChild).0)
        && k.afterChild == SpacedNode(node, f.afterChild).1
    decreases node
  {
    if node.Chars? {
      AppendAlike(f, node.text, b, p);
    } else if node.Ref? {
      AppendAlike(f, ReferenceText(node.name, node.resolved), b, p);
    } else if node.Note? || node.Stray? {
      assert p + "" == p;
    } else {
      var sep := if f.afterChild then " " else "";
      BoundaryAlike(f, b, p);
      var g := f.Enter(open, node.element, rule, recording);
      PouredText(open + [node.element.local], g, node.kids, rule, recording, b, p + sep);
      Assoc(p, sep, Spaced(node.kids, false).0);
    }
  }

  lemma AppendAlike(f: Flow, more: string, b: nat, p: string)
    requires b <= |f.text| && Alike(f.text[b..], p)
    ensures f.text <= f.text + more && Alike((f.text + more)[b..], p + more)
  {
    AlikeAppend(f.text[b..], p, more);
    assert (f.text + more)[b..] == f.text[b..] + more;
  }

  // ------------------------------------------------------------------ the runs

  /** A closed run over the text says what its element says. */
  predicate Measures(span: SpanBuild, text: string, run: Run) {
    && span.end.Some? && span.start <= span.end.value <= |text|
    && span.inline == run.inline && span.element == run.element
    && Alike(text[span.start..span.end.value], run.text)
  }

  predicate AllMeasure(spans: seq<SpanBuild>, text: string, runs: seq<Run>) {
    |spans| == |runs| && forall i :: 0 <= i < |spans| ==> Measures(spans[i], text, runs[i])
  }

  /** Closed runs between two offsets, any two nested or disjoint. */
  predicate Laid(spans: seq<SpanBuild>, lo: nat, hi: nat) {
    && (forall i :: 0 <= i < |spans| ==> spans[i].end.Some? && lo <= spans[i].start <= spans[i].end.value <= hi)
    && (forall i, j :: 0 <= i < j < |spans| ==> Apart(spans[i], spans[j]))
  }

  /** The earlier run ends before the later one starts, or holds it. */
  predicate Apart(a: SpanBuild, b: SpanBuild)
    requires a.end.Some? && b.end.Some?
  {
    a.end.value <= b.start || (a.start <= b.start && b.end.value <= a.end.value)
  }

  lemma MeasuresLonger(spans: seq<SpanBuild>, text: string, more: string, runs: seq<Run>)
    requires AllMeasure(spans, text, runs) && text <= more
    ensures AllMeasure(spans, more, runs)
  {
    forall i | 0 <= i < |spans| ensures Measures(spans[i], more, runs[i]) {
      assert Measures(spans[i], text, runs[i]);
      assert more[spans[i].start..spans[i].end.value] == text[spans[i].start..spans[i].end.value];
    }
  }

  lemma MeasuresConcat(a: seq<SpanBuild>, b: seq<SpanBuild>, text: string, runs: seq<Run>, more: seq<Run>)
    requires AllMeasure(a, text, runs) && AllMeasure(b, text, more)
    ensures AllMeasure(a + b, text, runs + more)
  {
  }

  lemma LaidConcat(a: seq<SpanBuild>, b: seq<SpanBuild>, lo: nat, mid: nat, hi: nat)
    requires lo <= mid <= hi && Laid(a, lo, mid) && Laid(b, mid, hi)
    ensures Laid(a + b, lo, hi)
  {
  }

  lemma LaidAround(outer: SpanBuild, inner: seq<SpanBuild>, lo: nat, hi: nat)
    requires outer.start == lo && outer.end == Some(hi) && lo <= hi && Laid(inner, lo, hi)
    ensures Laid([outer] + inner, lo, hi)
  {
  }

  lemma LaidWider(spans: seq<SpanBuild>, lo: nat, mid: nat, hi: nat)
    requires lo <= mid && Laid(spans, mid, hi)
    ensures Laid(spans, lo, hi)
  {
  }

  lemma TakeConcat<T>(a: seq<T>, b: seq<T>, n: nat)
    ensures |Take(a, n)| <= n && Take(a + b, n) == Take(a, n) + Take(b, n - |Take(a, n)|)
  {
  }

  /** What pouring adds to the runs, measured on the text it leaves. */
  predicate Recorded(f: Flow, k: Flow, runs: seq<Run>)
    requires |f.spans| <= MAX_INLINE_SPANS
  {
    && k.Counted() && f.text <= k.text && f.spans <= k.spans && |k.spans| <= MAX_INLINE_SPANS
    && AllMeasure(k.spans[|f.spans|..], k.text, Take(runs, MAX_INLINE_SPANS - |f.spans|))
    && Laid(k.spans[|f.spans|..], |f.text|, |k.text|)
  }

  lemma RecordedTwice(f: Flow, g: Flow, k: Flow, runs: seq<Run>, more: seq<Run>)
    requires |f.spans| <= MAX_INLINE_SPANS && Recorded(f, g, runs) && Recorded(g, k, more)
    ensures Recorded(f, k, runs + more)
  {
    var a, b := g.spans[|f.spans|..], k.spans[|g.spans|..];
    assert k.spans[|f.spans|..] == a + b;
    RunsJoin(a, b, g.text, k.text, runs, more, MAX_INLINE_SPANS - |f.spans|);
    LaidConcat(a, b, |f.text|, |g.text|, |k.text|);
  }

  lemma RunsJoin(
    a: seq<SpanBuild>, b: seq<SpanBuild>, text: string, longer: string, runs: seq<Run>, more: seq<Run>, n: nat)
    requires text <= longer && AllMeasure(a, text, Take(runs, n))
    requires |a| <= n && AllMeasure(b, longer, Take(more, n - |a|))
    ensures AllMeasure(a + b, longer, Take(runs + more, n))
  {
    MeasuresLonger(a, text, longer, Take(runs, n));
    MeasuresConcat(a, b, longer, Take(runs, n), Take(more, n - |a|));
    TakeConcat(runs, more, n);
  }

  lemma {:induction false} PouredRuns(open: seq<string>, f: Flow, nodes: seq<Node>, rule: InlineRule)
    requires f.Counted() && |f.spans| <= MAX_INLINE_SPANS
    ensures Recorded(f, Poured(open, f, nodes, rule, true), Runs(open, nodes, rule))
    decreases nodes
  {
    if nodes != [] {
      var g := PouredNode(open, f, nodes[0], rule, true);
      PouredNodeRuns(open, f, nodes[0], rule);
      PouredRuns(open, g, nodes[1..], rule);
      RecordedTwice(f, g, Poured(open, f, nodes, rule, true), RunsOfNode(open, nodes[0], rule),
        Runs(open, nodes[1..], rule));
    }
  }

  lemma {:induction false} PouredNodeRuns(open: seq<string>, f: Flow, node: Node, rule: InlineRule)
    requires f.Counted() && |f.spans| <= MAX_INLINE_SPANS
    ensures Recorded(f, PouredNode(open, f, node, rule, true), RunsOfNode(open, node, rule))
    decreases node
  {
    if node.Elem? {
      var inner, g := open + [node.element.local], f.Enter(open, node.element, rule, true);
      PouredRuns(inner, g, node.kids, rule);
      ElementRuns(open, f, node.element, node.kids, rule);
    } else {
      RecordedNothing(f, PouredNode(open, f, node, rule, true));
    }
  }

  lemma RecordedNothing(f: Flow, k: Flow)
    requires |f.spans| <= MAX_INLINE_SPANS && f.text <= k.text && k.spans == f.spans && k.Counted()
    ensures Recorded(f, k, [])
  {
  }

  lemma ElementRuns(open: seq<string>, f: Flow, e: Element, kids: seq<Node>, rule: InlineRule)
    requires f.Counted() && |f.spans| <= MAX_INLINE_SPANS
    requires var inner, g := open + [e.local], f.Enter(open, e, rule, true);
      |g.spans| <= MAX_INLINE_SPANS && Recorded(g, Poured(inner, g, kids, rule, true), Runs(inner, kids, rule))
    ensures Recorded(f, PouredNode(open, f, Elem(e, kids), rule, true), RunsOfNode(open, Elem(e, kids), rule))
  {
    var inner, g := open + [e.local], f.Enter(open, e, rule, true);
    var k, runs := Poured(inner, g, kids, rule, true), Runs(inner, kids, rule);
    if rule(open, e).Some? {
      var run := Run(rule(open, e).value, e, Spaced(kids, false).0);
      if |f.spans| < MAX_INLINE_SPANS {
        OwnContent(inner, g, kids, rule);
        RecordedAround(f, g, k, run, runs, |inner|);
      } else {
        RecordedInside(f, g, k, [run] + runs, runs);
      }
    } else {
      RecordedInside(f, g, k, runs, runs);
    }
  }

  /** What an element's content adds to the text is that content, spaced. */
  lemma OwnContent(open: seq<string>, g: Flow, kids: seq<Node>, rule: InlineRule)
    requires !g.afterChild
    ensures var k := Poured(open, g, kids, rule, true);
      g.text <= k.text && Alike(k.text[|g.text|..], Spaced(kids, false).0)
  {
    assert g.text[|g.text|..] == "";
    PouredText(open, g, kids, rule, true, |g.text|, "");
    assert "" + Spaced(kids, false).0 == Spaced(kids, false).0;
  }

  /** An element that opened a run, and the runs inside it. */
  lemma RecordedAround(f: Flow, g: Flow, k: Flow, run: Run, runs: seq<Run>, depth: nat)
    requires |f.spans| < MAX_INLINE_SPANS && f.text <= g.text && g.Counted()
    requires g.spans == f.spans + [SpanBuild(depth, g.chars, None, run.inline, run.element)]
    requires Recorded(g, k, runs) && Alike(k.text[|g.text|..], run.text)
    ensures Recorded(f, Flow(k.text, k.chars, EndAt(k.spans, |f.spans|, k.chars), true), [run] + runs)
  {
    var n, self := MAX_INLINE_SPANS - |f.spans|, k.spans[|f.spans|].(end := Some(|k.text|));
    var inner := k.spans[|g.spans|..];
    var spans := EndAt(k.spans, |f.spans|, |k.text|);
    assert spans[|f.spans|..] == [self] + inner;
    TakeConcat([run], runs, n);
    assert Take([run], n) == [run];
    assert k.text[self.start..|k.text|] == k.text[|g.text|..];
    assert AllMeasure([self], k.text, [run]);
    MeasuresConcat([self], inner, k.text, [run], Take(runs, n - 1));
    LaidAround(self, inner, |g.text|, |k.text|);
    LaidWider([self] + inner, |f.text|, |g.text|, |k.text|);
  }

  /** An element that opened none: the dialect does not know it, or there is no
      room left for it or for anything inside it. */
  lemma RecordedInside(f: Flow, g: Flow, k: Flow, runs: seq<Run>, inside: seq<Run>)
    requires |f.spans| <= MAX_INLINE_SPANS && f.text <= g.text && g.spans == f.spans
    requires Recorded(g, k, inside) && (runs == inside || |f.spans| == MAX_INLINE_SPANS)
    ensures Recorded(f, Flow(k.text, k.chars, k.spans, true), runs)
  {
    LaidWider(k.spans[|f.spans|..], |f.text|, |g.text|, |k.text|);
  }

  // -------------------------------------------------------------------- finishing

  /** A run as an item carries it, over the collapsed text. */
  datatype InlineSpan = InlineSpan(range: Range, styles: seq<int>, hyperlink: Option<string>,
                                   references: seq<string>, referenceKind: int, element: Element)

  /** The address of a run: as stated, or its own text under the stated scheme. */
  function Link(inline: Inline, text: string): Option<string> {
    if inline.hyperlink.None? && inline.linkFromText.Some? && text != ""
    then Some(inline.linkFromText.value + text)
    else inline.hyperlink
  }

  /** The characters from start on, up to end, as far as there are any. */
  function Between(text: string, start: nat, end: nat): string {
    if start >= end || start >= |text| then ""
    else if end <= |text| then text[start..end]
    else text[start..]
  }

  function FinishSpan(span: SpanBuild, text: string, positions: seq<Option<nat>>): seq<InlineSpan> {
    var range := CollapsedRange(positions, span.start, if span.end.Some? then span.end.value else |positions|);
    if range.None? then []
    else
      var r := range.value;
      [InlineSpan(r, span.inline.styles, Link(span.inline, Between(text, r.start, r.end)), span.inline.references,
                  span.inline.referenceKind, span.element)]
  }

  /** The finished runs: one for each run that left text, in the same order. */
  function FinishSpans(spans: seq<SpanBuild>, text: string, positions: seq<Option<nat>>): seq<InlineSpan> {
    if spans == [] then []
    else FinishSpans(spans[..|spans| - 1], text, positions) + FinishSpan(spans[|spans| - 1], text, positions)
  }

  /** What a finished run shows: its slice of the text and all it states. */
  datatype Shown = Shown(text: string, styles: seq<int>, hyperlink: Option<string>,
                         references: seq<string>, referenceKind: int, element: Element)

  function Show(span: InlineSpan, text: string): Shown
    requires span.range.start <= span.range.end <= |text|
  {
    Shown(text[span.range.start..span.range.end], span.styles, span.hyperlink, span.references,
          span.referenceKind, span.element)
  }

  predicate Within(spans: seq<InlineSpan>, text: string) {
    forall i :: 0 <= i < |spans| ==> spans[i].range.start < spans[i].range.end <= |text|
  }

  function ShowAll(spans: seq<InlineSpan>, text: string): seq<Shown>
    requires Within(spans, text)
  {
    seq(|spans|, i requires 0 <= i < |spans| => Show(spans[i], text))
  }

  /** What a recognized element should show: the collapse of its own content, with all
      it states; one that states no address but a scheme links to its own text under it. */
  function RunShown(run: Run): Shown {
    var text, inline := Collapsed(run.text), run.inline;
    var link :=
      if inline.hyperlink != None then inline.hyperlink
      else if inline.linkFromText != None && text != "" then Some(inline.linkFromText.value + text)
      else None;
    Shown(text, inline.styles, link, inline.references, inline.referenceKind, run.element)
  }

  /** The recognized elements that hold more than whitespace. */
  function KeptRuns(runs: seq<Run>): seq<Shown> {
    if runs == [] then []
    else
      var last := runs[|runs| - 1];
      KeptRuns(runs[..|runs| - 1]) + if Blank(last.text) then [] else [RunShown(last)]
  }

  predicate NestedOrDisjoint(spans: seq<InlineSpan>) {
    forall i, j :: 0 <= i < j < |spans| ==>
      || spans[i].range.end <= spans[j].range.start
      || (spans[i].range.start <= spans[j].range.start && spans[j].range.end <= spans[i].range.end)
  }

  lemma AlikeBlank(a: string, b: string)
    requires Alike(a, b)
    ensures Collapsed(a) == Collapsed(b) && (Blank(a) <==> Blank(b))
  {
    CollapsedConcat(a, "");
    CollapsedConcat(b, "");
  }

  lemma FinishSpanShows(span: SpanBuild, raw: string, run: Run)
    requires Measures(span, raw, run)
    ensures var done := FinishSpan(span, Collapsed(raw), Positions(raw));
      && Within(done, Collapsed(raw))
      && ShowAll(done, Collapsed(raw)) == (if Blank(run.text) then [] else [RunShown(run)])
  {
    RangeSlicesCollapse(raw, span.start, span.end.value);
    AlikeBlank(raw[span.start..span.end.value], run.text);
  }

  lemma ShowAllConcat(a: seq<InlineSpan>, b: seq<InlineSpan>, text: string)
    requires Within(a, text) && Within(b, text)
    ensures Within(a + b, text) && ShowAll(a + b, text) == ShowAll(a, text) + ShowAll(b, text)
  {
  }

  lemma {:induction false} FinishSpansShow(spans: seq<SpanBuild>, raw: string, runs: seq<Run>)
    requires AllMeasure(spans, raw, runs)
    ensures var done := FinishSpans(spans, Collapsed(raw), Positions(raw));
      Within(done, Collapsed(raw)) && ShowAll(done, Collapsed(raw)) == KeptRuns(runs)
    decreases |spans|
  {
    if spans != [] {
      var n, text, positions := |spans| - 1, Collapsed(raw), Positions(raw);
      assert Measures(spans[n], raw, runs[n]);
      FinishSpansShow(spans[..n], raw, runs[..n]);
      FinishSpanShows(spans[n], raw, runs[n]);
      ShowAllConcat(FinishSpans(spans[..n], text, positions), FinishSpan(spans[n], text, positions), text);
    }
  }

  /** Every finished run comes from a raw run that left text. */
  lemma {:induction false} FinishedFrom(spans: seq<SpanBuild>, raw: string, i: nat) returns (k: nat)
    requires Laid(spans, 0, |raw|)
    requires i < |FinishSpans(spans, Collapsed(raw), Positions(raw))|
    ensures k < |spans| && !Blank(raw[spans[k].start..spans[k].end.value])
    ensures CollapsedRange(Positions(raw), spans[k].start, spans[k].end.value)
         == Some(FinishSpans(spans, Collapsed(raw), Positions(raw))[i].range)
    decreases |spans|
  {
    var n := |spans| - 1;
    var front := FinishSpans(spans[..n], Collapsed(raw), Positions(raw));
    if i < |front| {
      k := FinishedFrom(spans[..n], raw, i);
    } else {
      k := n;
      RangeIsNoneWhenBlank(raw, spans[n].start, spans[n].end.value);
    }
  }

  lemma {:induction false} FinishSpansApart(spans: seq<SpanBuild>, raw: string)
    requires Laid(spans, 0, |raw|)
    ensures NestedOrDisjoint(FinishSpans(spans, Collapsed(raw), Positions(raw)))
    decreases |spans|
  {
    if spans != [] {
      var n, text, positions := |spans| - 1, Collapsed(raw), Positions(raw);
      var front, last := FinishSpans(spans[..n], text, positions), FinishSpan(spans[n], text, positions);
      FinishSpansApart(spans[..n], raw);
      if last != [] {
        RangeIsNoneWhenBlank(raw, spans[n].start, spans[n].end.value);
        forall i | 0 <= i < |front|
          ensures front[i].range.end <= last[0].range.start
               || (front[i].range.start <= last[0].range.start && last[0].range.end <= front[i].range.end)
        {
          var k := FinishedFrom(spans[..n], raw, i);
          assert Apart(spans[k], spans[n]);
          RangesKeepTheirOrder(raw, spans[k].start, spans[k].end.value, spans[n].start, spans[n].end.value);
        }
      }
    }
  }

  /** The collapsed text and finished runs of a flow, as an item or cell gets them. */
  function Finished(f: Flow): (string, seq<InlineSpan>) {
    (Collapsed(f.text), FinishSpans(f.spans, Collapsed(f.text), Positions(f.text)))
  }

  /** The law of captures: the text is the collapse of the spaced content; the runs
      are the first recognized elements of the content that hold more than
      whitespace, each one slicing the text to the collapse of its own content; and
      any two are nested or disjoint. Every run was closed by its own end tag. */
  lemma CaptureLaw(open: seq<string>, nodes: seq<Node>, rule: InlineRule)
    ensures var f := Poured(open, EMPTY, nodes, rule, true);
      var (text, spans) := Finished(f);
      && text == Collapsed(Spaced(nodes, false).0)
      && Within(spans, text)
      && ShowAll(spans, text) == KeptRuns(Take(Runs(open, nodes, rule), MAX_INLINE_SPANS))
      && NestedOrDisjoint(spans)
      && ClosedFrom(f.spans, 0)
  {
    var f := Poured(open, EMPTY, nodes, rule, true);
    PouredText(open, EMPTY, nodes, rule, true, 0, "");
    assert f.text[0..] == f.text && "" + Spaced(nodes, false).0 == Spaced(nodes, false).0;
    PouredRuns(open, EMPTY, nodes, rule);
    assert f.spans[0..] == f.spans;
    FinishSpansShow(f.spans, f.text, Take(Runs(open, nodes, rule), MAX_INLINE_SPANS));
    FinishSpansApart(f.spans, f.text);
  }

  /** With inline runs not asked for, the text is the same and there are none. */
  lemma CaptureLawWithoutRuns(open: seq<string>, nodes: seq<Node>, rule: InlineRule)
    ensures Finished(Poured(open, EMPTY, nodes, rule, false)) == (Collapsed(Spaced(nodes, false).0), [])
  {
    var f := Poured(open, EMPTY, nodes, rule, false);
    PouredText(open, EMPTY, nodes, rule, false, 0, "");
    assert f.text[0..] == f.text && "" + Spaced(nodes, false).0 == Spaced(nodes, false).0;
    PouredNoRuns(open, EMPTY, nodes, rule);
  }

  lemma {:induction false} PouredNoRuns(open: seq<string>, f: Flow, nodes: seq<Node>, rule: InlineRule)
    ensures Poured(open, f, nodes, rule, false).spans == f.spans
    decreases nodes
  {
    if nodes != [] {
      if nodes[0].Elem? {
        var e := nodes[0].element;
        PouredNoRuns(open + [e.local], f.Enter(open, e, rule, false), nodes[0].kids, rule);
      }
      PouredNoRuns(open, PouredNode(open, f, nodes[0], rule, false), nodes[1..], rule);
    }
  }
}
