/** Documents of no known vocabulary: what the one-pass driver sends for them equals
    a recursive reading of the tree, and nothing written in them is lost. */
module Generic {
  import opened Basics
  import opened Wrappers
  import opened Collapse
  import opened Xml
  import opened Stream
  import opened StreamBalance
  import Document

  function Lower(c: char): char {
    if 'A' <= c <= 'Z' then (c as int + 32) as char else c
  }

  function LowerAll(s: string): (r: string)
    ensures |r| == |s|
  {
    seq(|s|, i requires 0 <= i < |s| => Lower(s[i]))
  }

  /** Own text is labelled a paragraph, except in a second-level element named title, and
      its role is the element's name. */
  function GenericSpec(open: seq<string>, e: Element): Spec {
    var titled := |open| == 1 && LowerAll(e.local) == "title";
    Spec(if titled then Document.Title else Document.Paragraph, e.local, None, None)
  }

  /** The generic dialect with islands off. */
  ghost predicate IsGeneric(rules: Rules) {
    && !rules.xbrl && !rules.islands
    && (forall open: seq<string>, e: Element :: rules.action(open, e) == Descend)
    && (forall open: seq<string>, e: Element :: rules.ownText(open, e) == Some(GenericSpec(open, e)))
  }

  // ------------------------------------------------------------- the recursive reading

  /** An item of the reading, and whether its text comes from attributes. */
  datatype Piece = Piece(item: TextItem, fromAttributes: bool)

  function RunPiece(spec: Spec, e: Element, run: string, cdata: bool): seq<Piece> {
    if Blank(run) then []
    else [Piece(TextItem(spec.kind, spec.role, Collapsed(run), None, None, e, [], None, cdata), false)]
  }

  function AttributePiece(spec: Spec, e: Element, cdata: bool): seq<Piece> {
    if AttributeText(e).None? then []
    else [Piece(TextItem(Document.Paragraph, spec.role, AttributeText(e).value, None, None, e, [], None, cdata), true)]
  }

  /** Whether the last run of own text has any CDATA in it, even if it is blank. */
  function TrailingCdata(kids: seq<Node>, cdata: bool): bool {
    if kids == [] then cdata
    else TrailingCdata(kids[1..], if kids[0].Elem? then false else cdata || (kids[0].Chars? && kids[0].cdata))
  }

  /** No character data directly in this content says anything. */
  predicate SilentNode(node: Node) {
    match node
    case Chars(text, _) => Blank(text)
    case Ref(name, resolved) => Blank(ReferenceText(name, resolved))
    case _ => true
  }

  predicate Silent(kids: seq<Node>) {
    forall i :: 0 <= i < |kids| ==> SilentNode(kids[i])
  }

  /** An element's items: its runs of own text, parted by its children and their own
      items, in document order; an element all of whose own text is blank yields its
      attributes instead, after its children. */
  function Pieces(open: seq<string>, e: Element, kids: seq<Node>): seq<Piece>
    decreases kids, 1
  {
    Mixed(open + [e.local], GenericSpec(open, e), e, kids, "", false)
    + if Silent(kids) then AttributePiece(GenericSpec(open, e), e, TrailingCdata(kids, false)) else []
  }

  /** The rest of an element's content, after a run of text already begun. */
  function Mixed(open: seq<string>, spec: Spec, e: Element, kids: seq<Node>, run: string, cdata: bool): seq<Piece>
    decreases kids, 0
  {
    if kids == [] then RunPiece(spec, e, run, cdata)
    else
      match kids[0]
      case Chars(text, c) => Mixed(open, spec, e, kids[1..], run + text, cdata || c)
      case Ref(name, resolved) => Mixed(open, spec, e, kids[1..], run + ReferenceText(name, resolved), cdata)
      case Note => Mixed(open, spec, e, kids[1..], run, cdata)
      case Stray(_) => Mixed(open, spec, e, kids[1..], run, cdata)
      case Elem(child, inner) =>
        RunPiece(spec, e, run, cdata) + Pieces(open, child, inner) + Mixed(open, spec, e, kids[1..], "", false)
  }

  /** Items as events, numbered from n. */
  function Numbered(pieces: seq<Piece>, n: nat): seq<Event> {
    seq(|pieces|, i requires 0 <= i < |pieces| => Item(n + i, pieces[i].item, false))
  }

  // ------------------------------------------------------------- the machine follows it

  /** s after sending these items and reading so many elements, with this own text
      now collecting in the innermost element. */
  function Sent(s: State, own: OwnText, pieces: seq<Piece>, elements: nat): State
    requires s.stack != []
  {
    var n := |s.stack| - 1;
    s.(stack := s.stack[n := s.stack[n].(own := Some(own))],
       index := s.index + |pieces|,
       counts := s.counts.(elements := s.counts.elements + elements, textItems := s.counts.textItems + |pieces|),
       out := s.out + Numbered(pieces, s.index))
  }

  /** Nothing special is open, and the innermost element is collecting text. */
  predicate Collecting(s: State, own: OwnText) {
    && s.stack != [] && s.stack[|s.stack| - 1].own == Some(own)
    && s.capture.None? && s.table.None? && s.island.None? && s.fact.None? && s.pending.None?
    && s.skipping == 0 && s.progress == Running
  }

  /** What the innermost element's flush leaves, and what it sends. */
  function Flushed(own: OwnText, closing: bool): (OwnText, seq<Piece>) {
    var cleared := own.(text := "", fromCdata := false);
    if !Blank(own.text) then
      (cleared.(emitted := true),
       [Piece(TextItem(own.spec.kind, own.spec.role, Collapsed(own.text), own.spec.level, own.spec.ordinal,
                       own.element, [], None, own.fromCdata), false)])
    else if closing && !own.emitted && own.attributeText.Some? then
      (cleared.(emitted := true, attributeText := None),
       [Piece(TextItem(Document.Paragraph, own.spec.role, own.attributeText.value, own.spec.level, own.spec.ordinal,
                       own.element, [], None, own.fromCdata), true)])
    else (cleared, [])
  }

  lemma FlushIsSent(s: State, own: OwnText, closing: bool)
    requires Collecting(s, own)
    ensures FlushOwn(s, closing) == Sent(s, Flushed(own, closing).0, Flushed(own, closing).1, 0)
    ensures Collecting(FlushOwn(s, closing), Flushed(own, closing).0)
  {
    var (own', pieces) := Flushed(own, closing);
    if pieces == [] {
      QuietFlush(s, own, closing, own');
      SentNothing(s, own');
    } else {
      LoudFlush(s, own, closing, own', pieces);
      SentOne(s, own', pieces);
    }
  }

  /** s with this own text in its innermost element. */
  function Keeping(s: State, own: OwnText): State
    requires s.stack != []
  {
    s.(stack := s.stack[|s.stack| - 1 := s.stack[|s.stack| - 1].(own := Some(own))])
  }

  lemma QuietFlush(s: State, own: OwnText, closing: bool, own': OwnText)
    requires Collecting(s, own) && Flushed(own, closing) == (own', [])
    ensures FlushOwn(s, closing) == Keeping(s, own') && Collecting(FlushOwn(s, closing), own')
  {
    CollapsedConcat(own.text, "");
  }

  lemma LoudFlush(s: State, own: OwnText, closing: bool, own': OwnText, pieces: seq<Piece>)
    requires Collecting(s, own) && Flushed(own, closing) == (own', pieces) && pieces != []
    ensures FlushOwn(s, closing) == EmitItem(Keeping(s, own'), pieces[0].item, false) && |pieces| == 1
    ensures Collecting(FlushOwn(s, closing), own')
  {
    CollapsedConcat(own.text, "");
  }

  lemma SentNothing(s: State, own: OwnText)
    requires s.stack != []
    ensures Sent(s, own, [], 0) == Keeping(s, own)
  {
    assert s.out + Numbered([], s.index) == s.out;
  }

  lemma KeepingSame(s: State, own: OwnText)
    requires Collecting(s, own)
    ensures Sent(s, own, [], 0) == s
  {
    SentNothing(s, own);
    assert s.stack[|s.stack| - 1 := s.stack[|s.stack| - 1]] == s.stack;
  }

  lemma SentOne(s: State, own: OwnText, pieces: seq<Piece>)
    requires s.stack != [] && |pieces| == 1
    ensures Sent(s, own, pieces, 0) == EmitItem(Keeping(s, own), pieces[0].item, false)
  {
    assert Numbered(pieces, s.index) == [Item(s.index, pieces[0].item, false)];
  }

  lemma SentTwice(s: State, a: OwnText, p: seq<Piece>, m: nat, b: OwnText, q: seq<Piece>, n: nat)
    requires s.stack != []
    ensures Sent(Sent(s, a, p, m), b, q, n) == Sent(s, b, p + q, m + n)
  {
    assert Numbered(p + q, s.index) == Numbered(p, s.index) + Numbered(q, s.index + |p|);
    var k := |s.stack| - 1;
    assert s.stack[k := s.stack[k].(own := Some(a))][k := s.stack[k].(own := Some(b))]
      == s.stack[k := s.stack[k].(own := Some(b))];
    assert s.out + Numbered(p, s.index) + Numbered(q, s.index + |p|) == s.out + Numbered(p + q, s.index);
  }

  /** The own text an element starts with. */
  function Fresh(open: seq<string>, e: Element): OwnText {
    OwnText(GenericSpec(open, e), e, "", false, false, AttributeText(e))
  }

  /** What content leaves collecting, and what it sends, element by element. */
  function Walk(open: seq<string>, own: OwnText, kids: seq<Node>): (OwnText, seq<Piece>)
    decreases kids
  {
    if kids == [] then (own, [])
    else
      var (own', pieces) := WalkNode(open, own, kids[0]);
      var (own'', rest) := Walk(open, own', kids[1..]);
      (own'', pieces + rest)
  }

  function WalkNode(open: seq<string>, own: OwnText, node: Node): (OwnText, seq<Piece>)
    decreases node
  {
    match node
    case Chars(text, c) => (own.(text := own.text + text, fromCdata := own.fromCdata || c), [])
    case Ref(name, resolved) => (own.(text := own.text + ReferenceText(name, resolved)), [])
    case Note => (own, [])
    case Stray(_) => (own, [])
    case Elem(child, inner) =>
      var (own', before) := Flushed(own, false);
      var (left, inside) := Walk(open + [child.local], Fresh(open, child), inner);
      (own', before + inside + Flushed(left, true).1)
  }

  /** a is s once e's start tag was read. */
  predicate Entered(s: State, own: OwnText, e: Element, a: State)
    requires s.stack != []
  {
    var t := Sent(s, Flushed(own, false).0, Flushed(own, false).1, 1);
    && |a.stack| == |s.stack| + 1
    && a.stack[|s.stack|].local == e.local && a.stack[|s.stack|].own == Some(Fresh(s.Open(), e))
    && a == t.(openElements := s.openElements + 1, stack := t.stack + [a.stack[|s.stack|]])
  }

  /** u is b once an end tag was read. */
  predicate Left(b: State, own: OwnText, u: State)
    requires b.stack != []
  {
    var t := Sent(b, Flushed(own, true).0, Flushed(own, true).1, 0);
    b.openElements > 0 && u == t.(openElements := b.openElements - 1, stack := b.stack[..|b.stack| - 1])
  }

  lemma EnterCollects(rules: Rules, s: State, own: OwnText, e: Element)
    requires IsGeneric(rules) && Collecting(s, own) && s.openElements < MAX_DEPTH
    ensures Entered(s, own, e, OnStep(rules, s, Start(e)))
  {
    var c := CountElement(s);
    FlushIsSent(c, own, false);
    var t := FlushOwn(c, false);
    assert t.Open() == s.Open();
    assert rules.action(t.Open(), e) == Descend;
    assert rules.ownText(t.Open(), e) == Some(GenericSpec(s.Open(), e));
  }

  lemma LeaveSends(rules: Rules, s: State, own: OwnText)
    requires Collecting(s, own) && |s.stack| >= 2 && s.openElements > 0
    ensures Left(s, own, OnStep(rules, s, End))
  {
    FlushIsSent(UncountElement(s), own, true);
  }

  lemma {:induction false} ContentIsWalked(
    rules: Rules, s: State, own: OwnText, kids: seq<Node>, left: OwnText, pieces: seq<Piece>, elements: nat, u: State)
    requires IsGeneric(rules) && Collecting(s, own) && !TooDeep(s, Depth(kids)) && Clean(kids)
    requires (left, pieces) == Walk(s.Open(), own, kids) && elements == Elements(kids)
    requires u == OnSteps(rules, s, StepsOf(kids))
    ensures u == Sent(s, left, pieces, elements)
    decreases kids, 0
  {
    hide OnStep;
    if kids == [] {
      KeepingSame(s, own);
    } else {
      var (own', first) := WalkNode(s.Open(), own, kids[0]);
      var n := ElementsIn(kids[0]);
      NodeIsWalked(rules, s, own, kids[0], own', first);
      OnStepsConcat(rules, s, StepsOfNode(kids[0]), StepsOf(kids[1..]));
      var t := Sent(s, own', first, n);
      OneNode(kids);
      SentCollects(s, own, own', first, n);
      var rest := Walk(s.Open(), own', kids[1..]).1;
      ContentIsWalked(rules, t, own', kids[1..], left, rest, Elements(kids[1..]), u);
      SentTwice(s, own', first, n, left, rest, Elements(kids[1..]));
    }
  }

  lemma SentCollects(s: State, was: OwnText, own: OwnText, pieces: seq<Piece>, elements: nat)
    requires Collecting(s, was)
    ensures var t := Sent(s, own, pieces, elements);
      t.Open() == s.Open() && t.openElements == s.openElements && |t.stack| == |s.stack| && Collecting(t, own)
  {
  }

  lemma OneNode(kids: seq<Node>)
    requires kids != []
    ensures Depth(kids[1..]) <= Depth(kids) && DepthOf(kids[0]) <= Depth(kids)
  {
  }

  lemma {:induction false} NodeIsWalked(
    rules: Rules, s: State, own: OwnText, node: Node, own': OwnText, pieces: seq<Piece>)
    requires IsGeneric(rules) && Collecting(s, own) && !TooDeep(s, DepthOf(node)) && CleanNode(node)
    requires WalkNode(s.Open(), own, node) == (own', pieces)
    ensures OnSteps(rules, s, StepsOfNode(node)) == Sent(s, own', pieces, ElementsIn(node))
    decreases node, 0
  {
    hide OnStep;
    if node.Elem? {
      var before, walked, after := WalkElement(s.Open(), own, node.element, node.kids);
      ElementIsWalked(rules, s, own, node.element, node.kids, own', before, walked.0, walked.1, after,
                      Elements(node.kids), OnSteps(rules, s, StepsOfNode(node)));
    } else {
      LeafIsWalked(rules, s, own, node, own', pieces);
    }
  }

  /** What an element sends, read under these open elements: the run before it, its
      content, and its last run. */
  lemma WalkElement(open: seq<string>, own: OwnText, e: Element, kids: seq<Node>)
    returns (before: seq<Piece>, walked: (OwnText, seq<Piece>), after: seq<Piece>)
    ensures walked == Walk(open + [e.local], Fresh(open, e), kids)
    ensures before == Flushed(own, false).1 && after == Flushed(walked.0, true).1
    ensures WalkNode(open, own, Elem(e, kids)) == (Flushed(own, false).0, before + walked.1 + after)
  {
    walked := Walk(open + [e.local], Fresh(open, e), kids);
    before, after := Flushed(own, false).1, Flushed(walked.0, true).1;
  }

  lemma LeafIsWalked(rules: Rules, s: State, own: OwnText, node: Node, own': OwnText, pieces: seq<Piece>)
    requires Collecting(s, own) && !node.Elem? && CleanNode(node) && WalkNode(s.Open(), own, node) == (own', pieces)
    ensures OnSteps(rules, s, StepsOfNode(node)) == Sent(s, own', pieces, 0)
  {
    OnStepsOne(rules, s, StepsOfNode(node)[0]);
    SentNothing(s, own');
    assert node.Note? ==> s.stack[|s.stack| - 1 := s.stack[|s.stack| - 1]] == s.stack;
  }

  lemma {:induction false} ElementIsWalked(
    rules: Rules, s: State, own: OwnText, e: Element, kids: seq<Node>, own': OwnText, before: seq<Piece>,
    left: OwnText, inside: seq<Piece>, after: seq<Piece>, elements: nat, u: State)
    requires IsGeneric(rules) && Collecting(s, own) && !TooDeep(s, 1 + Depth(kids)) && Clean(kids)
    requires Flushed(own, false) == (own', before) && Flushed(left, true).1 == after
    requires (left, inside) == Walk(s.Open() + [e.local], Fresh(s.Open(), e), kids) && elements == Elements(kids)
    requires u == OnSteps(rules, s, StepsOfNode(Elem(e, kids)))
    ensures u == Sent(s, own', before + inside + after, 1 + elements)
    decreases kids, 3
  {
    var a := ElementWalksOut(rules, s, own, e, kids, left, inside, elements, u);
    ElementSent(s, own, e, a, left, inside, elements, u, own', before, after);
  }

  lemma {:induction false} ElementWalksIn(
    rules: Rules, s: State, own: OwnText, e: Element, kids: seq<Node>, left: OwnText, inside: seq<Piece>, elements: nat,
    u: State) returns (a: State, b: State)
    requires IsGeneric(rules) && Collecting(s, own) && !TooDeep(s, 1 + Depth(kids)) && Clean(kids)
    requires (left, inside) == Walk(s.Open() + [e.local], Fresh(s.Open(), e), kids) && elements == Elements(kids)
    requires u == OnSteps(rules, s, StepsOfNode(Elem(e, kids)))
    ensures Entered(s, own, e, a) && Collecting(a, Fresh(s.Open(), e))
    ensures b == Sent(a, left, inside, elements) && u == OnStep(rules, b, End)
    decreases kids, 1
  {
    a, b := ElementOpens(rules, s, own, e, kids, u);
    ContentIsWalked(rules, a, Fresh(s.Open(), e), kids, left, inside, elements, b);
  }

  lemma ElementOpens(rules: Rules, s: State, own: OwnText, e: Element, kids: seq<Node>, u: State)
    returns (a: State, b: State)
    requires IsGeneric(rules) && Collecting(s, own) && s.openElements < MAX_DEPTH
    requires u == OnSteps(rules, s, StepsOfNode(Elem(e, kids)))
    ensures b == OnSteps(rules, a, StepsOf(kids)) && u == OnStep(rules, b, End)
    ensures Entered(s, own, e, a) && Collecting(a, Fresh(s.Open(), e)) && a.Open() == s.Open() + [e.local]
    ensures a.openElements == s.openElements + 1 && |a.stack| >= 2
  {
    OnElement(rules, s, e, kids);
    EnterCollects(rules, s, own, e);
    a := OnStep(rules, s, Start(e));
    b := OnSteps(rules, a, StepsOf(kids));
    EnteredCollects(s, own, e, a);
  }

  /** The state u an element leaves, by what its content and its end tag sent. */
  lemma {:induction false} ElementWalksOut(
    rules: Rules, s: State, own: OwnText, e: Element, kids: seq<Node>, left: OwnText, inside: seq<Piece>, elements: nat,
    u: State) returns (a: State)
    requires IsGeneric(rules) && Collecting(s, own) && !TooDeep(s, 1 + Depth(kids)) && Clean(kids)
    requires (left, inside) == Walk(s.Open() + [e.local], Fresh(s.Open(), e), kids) && elements == Elements(kids)
    requires u == OnSteps(rules, s, StepsOfNode(Elem(e, kids)))
    ensures Entered(s, own, e, a)
    ensures a.stack != [] && Left(Sent(a, left, inside, elements), left, u)
    decreases kids, 2
  {
    var b;
    a, b := ElementWalksIn(rules, s, own, e, kids, left, inside, elements, u);
    SentCollects(a, Fresh(s.Open(), e), left, inside, elements);
    EnteredCollects(s, own, e, a);
    LeaveSends(rules, b, left);
  }

  lemma EnteredCollects(s: State, own: OwnText, e: Element, a: State)
    requires Collecting(s, own) && Entered(s, own, e, a)
    ensures Collecting(a, Fresh(s.Open(), e)) && a.Open() == s.Open() + [e.local]
    ensures a.openElements == s.openElements + 1 && |a.stack| >= 2
  {
  }

  /** The items of an element, its start and its end put together. */
  lemma ElementSent(
    s: State, own: OwnText, e: Element, a: State, left: OwnText, inside: seq<Piece>, elements: nat, u: State,
    own': OwnText, before: seq<Piece>, after: seq<Piece>)
    requires s.stack != [] && Entered(s, own, e, a) && Left(Sent(a, left, inside, elements), left, u)
    requires Flushed(own, false) == (own', before) && Flushed(left, true).1 == after
    ensures u == Sent(s, own', before + inside + after, 1 + elements)
  {
    var n := |s.stack| - 1;
    assert u.stack == s.stack[n := s.stack[n].(own := Some(own'))];
    OutThrice(s.out, s.index, before, inside, after, a.out, Sent(a, left, inside, elements).out, u.out);
  }

  lemma OutThrice(
    out: seq<Event>, n: nat, a: seq<Piece>, b: seq<Piece>, c: seq<Piece>, first: seq<Event>, second: seq<Event>,
    third: seq<Event>)
    requires first == out + Numbered(a, n) && second == first + Numbered(b, n + |a|)
    requires third == second + Numbered(c, n + |a| + |b|)
    ensures third == out + Numbered(a + b + c, n)
  {
    NumberedThrice(a, b, c, n);
  }

  lemma NumberedThrice(a: seq<Piece>, b: seq<Piece>, c: seq<Piece>, n: nat)
    ensures Numbered(a + b + c, n) == Numbered(a, n) + Numbered(b, n + |a|) + Numbered(c, n + |a| + |b|)
  {
  }

  // --------------------------------------------------- the walk is the recursive reading

  /** The state of collecting an element's text that the reading stands for. */
  function Collected(spec: Spec, e: Element, run: string, cdata: bool, emitted: bool): OwnText {
    OwnText(spec, e, run, cdata, emitted, AttributeText(e))
  }

  /** What is left of an element once its content was walked: its last run, and its
      attributes if it never said anything. */
  lemma {:induction false} WalkIsMixed(
    open: seq<string>, spec: Spec, e: Element, kids: seq<Node>, run: string, cdata: bool, emitted: bool)
    requires spec.level.None? && spec.ordinal.None?
    ensures var walked := Walk(open, Collected(spec, e, run, cdata, emitted), kids);
      walked.1 + Flushed(walked.0, true).1 == Reading(open, spec, e, kids, run, cdata, emitted)
    decreases kids, 0
  {
    if kids == [] {
      CollapsedConcat(run, "");
    } else if kids[0].Elem? {
      var child := kids[0].element;
      WalkIsMixed(open + [child.local], GenericSpec(open, child), child, kids[0].kids, "", false, false);
      WalkIsMixed(open, spec, e, kids[1..], "", false, emitted || !Blank(run));
      ReadingChild(open, child, kids[0].kids);
      WalkPastChild(open, spec, e, kids, run, cdata, emitted);
    } else {
      var cdata' := cdata || (kids[0].Chars? && kids[0].cdata);
      WalkIsMixed(open, spec, e, kids[1..], run + MoreText(kids[0]), cdata', emitted);
      WalkPastText(open, Collected(spec, e, run, cdata, emitted), kids);
      ReadingPastText(open, spec, e, kids, run, cdata, emitted);
    }
  }

  /** The reading of the rest of an element, once it has or has not said anything. */
  function Reading(
    open: seq<string>, spec: Spec, e: Element, kids: seq<Node>, run: string, cdata: bool, emitted: bool): seq<Piece>
  {
    Mixed(open, spec, e, kids, run, cdata)
    + if !emitted && Blank(run) && Silent(kids) then AttributePiece(spec, e, TrailingCdata(kids, cdata)) else []
  }

  lemma ReadingChild(open: seq<string>, child: Element, inner: seq<Node>)
    ensures Reading(open + [child.local], GenericSpec(open, child), child, inner, "", false, false)
      == Pieces(open, child, inner)
  {
  }

  lemma ReadingPastText(
    open: seq<string>, spec: Spec, e: Element, kids: seq<Node>, run: string, cdata: bool, emitted: bool)
    requires kids != [] && !kids[0].Elem?
    ensures Reading(open, spec, e, kids, run, cdata, emitted)
         == Reading(open, spec, e, kids[1..], run + MoreText(kids[0]), cdata || (kids[0].Chars? && kids[0].cdata),
                    emitted)
  {
    SilentFirst(kids);
    BlankConcat(run, MoreText(kids[0]));
    assert run + "" == run;
  }

  lemma ReadingPastChild(
    open: seq<string>, spec: Spec, e: Element, kids: seq<Node>, run: string, cdata: bool, emitted: bool)
    requires kids != [] && kids[0].Elem?
    ensures Reading(open, spec, e, kids, run, cdata, emitted)
         == RunPiece(spec, e, run, cdata) + Pieces(open, kids[0].element, kids[0].kids)
            + Reading(open, spec, e, kids[1..], "", false, emitted || !Blank(run))
  {
    SilentFirst(kids);
  }

  lemma SilentFirst(kids: seq<Node>)
    requires kids != []
    ensures Silent(kids) <==> SilentNode(kids[0]) && Silent(kids[1..])
  {
    if SilentNode(kids[0]) && Silent(kids[1..]) {
      forall i | 0 <= i < |kids| ensures SilentNode(kids[i]) {
        if i > 0 {
          assert kids[1..][i - 1] == kids[i];
        }
      }
    }
  }

  lemma BlankConcat(a: string, b: string)
    ensures Blank(a + b) <==> Blank(a) && Blank(b)
  {
    if Blank(a + b) {
      forall i | 0 <= i < |a| ensures IsWhitespace(a[i]) {
        assert (a + b)[i] == a[i];
      }
      forall i | 0 <= i < |b| ensures IsWhitespace(b[i]) {
        assert (a + b)[|a| + i] == b[i];
      }
    }
  }

  function MoreText(node: Node): string {
    match node
    case Chars(text, _) => text
    case Ref(name, resolved) => ReferenceText(name, resolved)
    case _ => ""
  }

  lemma WalkPastText(open: seq<string>, own: OwnText, kids: seq<Node>)
    requires kids != [] && !kids[0].Elem?
    ensures Walk(open, own, kids) ==
      Walk(open, own.(text := own.text + MoreText(kids[0]),
                      fromCdata := own.fromCdata || (kids[0].Chars? && kids[0].cdata)), kids[1..])
  {
    assert own.text + "" == own.text;
    var rest := Walk(open, WalkNode(open, own, kids[0]).0, kids[1..]);
    assert [] + rest.1 == rest.1;
  }

  /** A child parts the text: the run before it goes out, then its own items, and
      then the rest of the content. */
  lemma WalkPastChild(
    open: seq<string>, spec: Spec, e: Element, kids: seq<Node>, run: string, cdata: bool, emitted: bool)
    requires spec.level.None? && spec.ordinal.None? && kids != [] && kids[0].Elem?
    requires var child := kids[0].element;
      var walked := Walk(open + [child.local], Fresh(open, child), kids[0].kids);
      walked.1 + Flushed(walked.0, true).1 == Pieces(open, child, kids[0].kids)
    requires var rest := Walk(open, Collected(spec, e, "", false, emitted || !Blank(run)), kids[1..]);
      rest.1 + Flushed(rest.0, true).1 == Reading(open, spec, e, kids[1..], "", false, emitted || !Blank(run))
    ensures var walked := Walk(open, Collected(spec, e, run, cdata, emitted), kids);
      walked.1 + Flushed(walked.0, true).1 == Reading(open, spec, e, kids, run, cdata, emitted)
  {
    var child, inner := kids[0].element, kids[0].kids;
    var rest := Walk(open, Collected(spec, e, "", false, emitted || !Blank(run)), kids[1..]);
    WalkSplit(open, spec, e, kids, run, cdata, emitted);
    ReadingPastChild(open, spec, e, kids, run, cdata, emitted);
    Assoc(RunPiece(spec, e, run, cdata) + Pieces(open, child, inner), rest.1, Flushed(rest.0, true).1);
  }

  lemma WalkSplit(open: seq<string>, spec: Spec, e: Element, kids: seq<Node>, run: string, cdata: bool, emitted: bool)
    requires spec.level.None? && spec.ordinal.None? && kids != [] && kids[0].Elem?
    requires var child := kids[0].element;
      var walked := Walk(open + [child.local], Fresh(open, child), kids[0].kids);
      walked.1 + Flushed(walked.0, true).1 == Pieces(open, child, kids[0].kids)
    ensures var walked := Walk(open, Collected(spec, e, run, cdata, emitted), kids);
      var rest := Walk(open, Collected(spec, e, "", false, emitted || !Blank(run)), kids[1..]);
      walked == (rest.0, RunPiece(spec, e, run, cdata) + Pieces(open, kids[0].element, kids[0].kids) + rest.1)
  {
    var own, child := Collected(spec, e, run, cdata, emitted), kids[0].element;
    FlushedRun(spec, e, run, cdata, emitted);
    var before, walked, after := WalkElement(open, own, child, kids[0].kids);
    Assoc(before, walked.1, after);
  }

  lemma FlushedRun(spec: Spec, e: Element, run: string, cdata: bool, emitted: bool)
    requires spec.level.None? && spec.ordinal.None?
    ensures Flushed(Collected(spec, e, run, cdata, emitted), false)
         == (Collected(spec, e, "", false, emitted || !Blank(run)), RunPiece(spec, e, run, cdata))
  {
  }

  /** The counts of a run that sent nothing but items. */
  function Tally(elements: nat, items: nat): Counts {
    NO_COUNTS.(elements := elements, textItems := items)
  }

  // -------------------------------------------------------------------- whole documents

  lemma RootCollects(rules: Rules, root: Element)
    requires IsGeneric(rules)
    ensures Collecting(Begin(rules, root), Fresh([], root)) && Begin(rules, root).Open() == [root.local]
  {
    assert rules.ownText([], root) == Some(GenericSpec([], root));
  }

  lemma RootLeaves(rules: Rules, t: State, own: OwnText)
    requires Collecting(t, own) && |t.stack| == 1
    ensures var u := OnStep(rules, t, End);
      && u.progress == Closed
      && u.out == t.out + Numbered(Flushed(own, true).1, t.index)
      && u.counts == t.counts.(textItems := t.counts.textItems + |Flushed(own, true).1|)
  {
    FlushIsSent(UncountElement(t), own, true);
  }

  /** The root and everything in it, up to the end of its end tag. */
  lemma RootRuns(rules: Rules, root: Element, kids: seq<Node>) returns (u: State, walked: (OwnText, seq<Piece>))
    requires IsGeneric(rules) && 1 + Depth(kids) <= MAX_DEPTH && Clean(kids)
    ensures walked == Walk([root.local], Fresh([], root), kids)
    ensures u == OnSteps(rules, Begin(rules, root), StepsOf(kids) + [End] + [Eof]) && u.progress == Closed
    ensures u.out == [Info(root)] + Numbered(walked.1, 0) + Numbered(Flushed(walked.0, true).1, |walked.1|)
    ensures u.counts == Tally(1 + Elements(kids), |walked.1| + |Flushed(walked.0, true).1|)
  {
    var b, own := Begin(rules, root), Fresh([], root);
    RootCollects(rules, root);
    walked := Walk([root.local], own, kids);
    ContentIsWalked(rules, b, own, kids, walked.0, walked.1, Elements(kids), OnSteps(rules, b, StepsOf(kids)));
    var t := Sent(b, walked.0, walked.1, Elements(kids));
    SentCollects(b, own, walked.0, walked.1, Elements(kids));
    RootLeaves(rules, t, walked.0);
    LastSteps(rules, b, StepsOf(kids));
    u := OnStep(rules, t, End);
  }

  /** What the driver sends for a document of no known vocabulary is the recursive
      reading of its tree, numbered from zero, between Info and a trailer that counts
      its elements and items. */
  lemma GenericRunIsReading(rules: Rules, root: Element, kids: seq<Node>)
    requires IsGeneric(rules) && 1 + Depth(kids) <= MAX_DEPTH && Clean(kids)
    ensures Parse(rules, root, StepsOf(kids) + [End]).progress == Closed
    ensures Parse(rules, root, StepsOf(kids) + [End]).out ==
      var pieces := Pieces([], root, kids);
      [Info(root)] + Numbered(pieces, 0) + [Status(Tally(1 + Elements(kids), |pieces|))]
  {
    var u, walked := RootRuns(rules, root, kids);
    assert [] + [root.local] == [root.local];
    WalkIsMixed([root.local], GenericSpec([], root), root, kids, "", false, false);
    ReadingChild([], root, kids);
    NumberedTwice(walked.1, Flushed(walked.0, true).1);
    Parsed(u, root, walked.1 + Flushed(walked.0, true).1, Elements(kids));
  }

  lemma NumberedTwice(a: seq<Piece>, b: seq<Piece>)
    ensures Numbered(a + b, 0) == Numbered(a, 0) + Numbered(b, |a|)
  {
  }

  lemma Parsed(u: State, root: Element, pieces: seq<Piece>, elements: nat)
    requires u.progress == Closed && u.out == [Info(root)] + Numbered(pieces, 0)
    requires u.counts == Tally(1 + elements, |pieces|)
    ensures Finish(u).out == [Info(root)] + Numbered(pieces, 0) + [Status(Tally(1 + elements, |pieces|))]
  {
  }

  lemma LastSteps(rules: Rules, b: State, steps: seq<Step>)
    requires OnStep(rules, OnSteps(rules, b, steps), End).progress == Closed
    ensures OnSteps(rules, b, steps + [End] + [Eof]) == OnStep(rules, OnSteps(rules, b, steps), End)
  {
    OnStepsConcat(rules, b, steps + [End], [Eof]);
    OnStepsConcat(rules, b, steps, [End]);
    OnStepsOne(rules, OnSteps(rules, b, steps), End);
    OverStaysOver(rules, OnStep(rules, OnSteps(rules, b, steps), End), [Eof]);
  }

  // --------------------------------------------------------------------- nothing is lost

  /** The characters of a text that are not whitespace, in order. */
  function Squeeze(s: string): string {
    if s == "" then "" else (if IsWhitespace(s[0]) then "" else [s[0]]) + Squeeze(s[1..])
  }

  lemma {:induction false} SqueezeConcat(a: string, b: string)
    ensures Squeeze(a + b) == Squeeze(a) + Squeeze(b)
    decreases |a|
  {
    if a == "" {
      assert a + b == b;
    } else {
      assert (a + b)[1..] == a[1..] + b;
      SqueezeConcat(a[1..], b);
    }
  }

  lemma {:induction false} ScanSqueezes(p: Pass, s: string)
    ensures Squeeze(Scan(p, s).out) == Squeeze(p.out) + Squeeze(s)
    decreases |s|
  {
    if s != "" {
      var c := s[0];
      ScanSqueezes(p.Feed(c), s[1..]);
      FeedSqueezes(p, c);
      Assoc(Squeeze(p.out), if IsWhitespace(c) then "" else [c], Squeeze(s[1..]));
    }
  }

  lemma FeedSqueezes(p: Pass, c: char)
    ensures Squeeze(p.Feed(c).out) == Squeeze(p.out) + if IsWhitespace(c) then "" else [c]
  {
    if IsWhitespace(c) {
      assert Squeeze(p.out) + "" == Squeeze(p.out);
    } else {
      assert [c][1..] == "" && Squeeze([c]) == [c] + Squeeze("");
      assert [' ', c][1..] == [c] && Squeeze([' ', c]) == "" + Squeeze([c]);
      SqueezeConcat(p.out, if p.pending then [' ', c] else [c]);
    }
  }

  lemma BlankSqueezes(s: string)
    ensures Blank(s) ==> Squeeze(s) == ""
    ensures Squeeze(Collapsed(s)) == Squeeze(s)
  {
    ScanSqueezes(START, s);
    CollapsedConcat(s, "");
  }

  /** All character data of content, in document order. */
  function CharacterData(nodes: seq<Node>): string
    decreases nodes
  {
    if nodes == [] then "" else DataOf(nodes[0]) + CharacterData(nodes[1..])
  }

  function DataOf(node: Node): string
    decreases node
  {
    match node
    case Elem(_, kids) => CharacterData(kids)
    case _ => MoreText(node)
  }

  /** The texts of the items that come from character data, one after another. */
  function OwnTexts(pieces: seq<Piece>): string {
    if pieces == [] then ""
    else
      var last := pieces[|pieces| - 1];
      OwnTexts(pieces[..|pieces| - 1]) + if last.fromAttributes then "" else last.item.text
  }

  lemma {:induction false} OwnTextsConcat(a: seq<Piece>, b: seq<Piece>)
    ensures OwnTexts(a + b) == OwnTexts(a) + OwnTexts(b)
    decreases |b|
  {
    if b == [] {
      assert a + b == a;
    } else {
      var n, last := |b| - 1, b[|b| - 1];
      OwnTextsConcat(a, b[..n]);
      assert (a + b)[..|a + b| - 1] == a + b[..n];
      Assoc(OwnTexts(a), OwnTexts(b[..n]), if last.fromAttributes then "" else last.item.text);
    }
  }

  lemma RunSays(spec: Spec, e: Element, run: string, cdata: bool)
    ensures Squeeze(OwnTexts(RunPiece(spec, e, run, cdata))) == Squeeze(run)
  {
    BlankSqueezes(run);
    var pieces := RunPiece(spec, e, run, cdata);
    if pieces != [] {
      assert pieces[..0] == [] && "" + pieces[0].item.text == pieces[0].item.text;
    }
  }

  lemma AttributesSayNothing(spec: Spec, e: Element, cdata: bool)
    ensures OwnTexts(AttributePiece(spec, e, cdata)) == ""
  {
    var pieces := AttributePiece(spec, e, cdata);
    if pieces != [] {
      assert pieces[..0] == [];
    }
  }

  /** No character but whitespace is lost, doubled or moved across mixed content: the
      items of an element, read one after another, spell out its character data. */
  lemma {:induction false} NothingIsLost(open: seq<string>, e: Element, kids: seq<Node>)
    ensures Squeeze(OwnTexts(Pieces(open, e, kids))) == Squeeze(CharacterData(kids))
    decreases kids, 1
  {
    var spec := GenericSpec(open, e);
    var last := if Silent(kids) then AttributePiece(spec, e, TrailingCdata(kids, false)) else [];
    MixedLosesNothing(open + [e.local], spec, e, kids, "", false);
    AttributesSayNothing(spec, e, TrailingCdata(kids, false));
    OwnTextsConcat(Mixed(open + [e.local], spec, e, kids, "", false), last);
    assert "" + CharacterData(kids) == CharacterData(kids);
    assert OwnTexts(Mixed(open + [e.local], spec, e, kids, "", false)) + ""
      == OwnTexts(Mixed(open + [e.local], spec, e, kids, "", false));
  }

  lemma {:induction false} MixedLosesNothing(
    open: seq<string>, spec: Spec, e: Element, kids: seq<Node>, run: string, cdata: bool)
    ensures Squeeze(OwnTexts(Mixed(open, spec, e, kids, run, cdata))) == Squeeze(run + CharacterData(kids))
    decreases kids, 0
  {
    if kids == [] {
      RunSays(spec, e, run, cdata);
      assert run + "" == run;
    } else if kids[0].Elem? {
      var child, inner, rest := kids[0].element, kids[0].kids, kids[1..];
      NothingIsLost(open, child, inner);
      MixedLosesNothing(open, spec, e, rest, "", false);
      ChildLosesNothing(RunPiece(spec, e, run, cdata), Pieces(open, child, inner),
        Mixed(open, spec, e, rest, "", false),
                        run, CharacterData(inner), CharacterData(rest), spec, e, cdata);
    } else {
      var more := MoreText(kids[0]);
      assert run + "" == run;
      MixedLosesNothing(open, spec, e, kids[1..], run + more, cdata || (kids[0].Chars? && kids[0].cdata));
      Assoc(run, more, CharacterData(kids[1..]));
    }
  }

  lemma ChildLosesNothing(
    a: seq<Piece>, b: seq<Piece>, c: seq<Piece>, run: string, inside: string, after: string, spec: Spec, e: Element,
    cdata: bool)
    requires a == RunPiece(spec, e, run, cdata)
    requires Squeeze(OwnTexts(b)) == Squeeze(inside) && Squeeze(OwnTexts(c)) == Squeeze("" + after)
    ensures Squeeze(OwnTexts(a + b + c)) == Squeeze(run + (inside + after))
  {
    RunSays(spec, e, run, cdata);
    OwnTextsConcat(a + b, c);
    OwnTextsConcat(a, b);
    assert "" + after == after;
    ThreeSqueezed(OwnTexts(a), OwnTexts(b), OwnTexts(c), run, inside, after);
  }

  lemma ThreeSqueezed(x: string, y: string, z: string, a: string, b: string, c: string)
    requires Squeeze(x) == Squeeze(a) && Squeeze(y) == Squeeze(b) && Squeeze(z) == Squeeze(c)
    ensures Squeeze(x + y + z) == Squeeze(a + (b + c))
  {
    SqueezeConcat(x + y, z);
    SqueezeConcat(x, y);
    SqueezeConcat(a, b + c);
    SqueezeConcat(b, c);
    Assoc(Squeeze(x), Squeeze(y), Squeeze(z));
  }

  // --------------------------------------------------- the mark of the attribute item

  /** After the last child element some of this content was written as CDATA. */
  predicate CdataAfterLastChild(kids: seq<Node>) {
    exists i :: 0 <= i < |kids| && kids[i].Chars? && kids[i].cdata && NoChildAfter(kids, i)
  }

  predicate NoChildAfter(kids: seq<Node>, i: int) {
    forall j :: 0 <= j && i < j < |kids| ==> !kids[j].Elem?
  }

  lemma {:induction false} TrailingCdataIsLastRun(kids: seq<Node>, cdata: bool)
    ensures TrailingCdata(kids, cdata) <==> CdataAfterLastChild(kids) || (cdata && NoChildAfter(kids, -1))
    decreases |kids|
  {
    if kids != [] {
      var first, rest := kids[0], kids[1..];
      TrailingCdataIsLastRun(rest, if first.Elem? then false else cdata || (first.Chars? && first.cdata));
      assert forall i :: 0 <= i < |rest| ==> rest[i] == kids[i + 1];
      assert NoChildAfter(rest, -1) <==> NoChildAfter(kids, 0);
      assert NoChildAfter(kids, -1) <==> !first.Elem? && NoChildAfter(kids, 0);
      LastRunTail(kids);
    }
  }

  lemma LastRunTail(kids: seq<Node>)
    requires kids != []
    ensures CdataAfterLastChild(kids) <==>
      CdataAfterLastChild(kids[1..]) || (kids[0].Chars? && kids[0].cdata && NoChildAfter(kids, 0))
  {
    var rest := kids[1..];
    if i :| 0 <= i < |rest| && rest[i].Chars? && rest[i].cdata && NoChildAfter(rest, i) {
      assert kids[i + 1] == rest[i];
      forall j | 0 <= j && i + 1 < j < |kids| ensures !kids[j].Elem? {
        assert kids[j] == rest[j - 1];
      }
      assert NoChildAfter(kids, i + 1);
    }
    if i :| 0 <= i < |kids| && kids[i].Chars? && kids[i].cdata && NoChildAfter(kids, i) {
      if i > 0 {
        assert rest[i - 1] == kids[i];
        forall j | 0 <= j && i - 1 < j < |rest| ensures !rest[j].Elem? {
          assert rest[j] == kids[j + 1];
        }
        assert NoChildAfter(rest, i - 1);
      }
    }
  }

  /** The attributes of an element without text of its own go out as its last item,
      and that item is marked as CDATA exactly when some of the blank content after
      the last child element was, though the attributes never are. */
  lemma AttributeItemMark(open: seq<string>, e: Element, kids: seq<Node>)
    requires Silent(kids) && AttributeText(e).Some?
    ensures var pieces := Pieces(open, e, kids);
      && pieces != [] && pieces[|pieces| - 1].fromAttributes
      && pieces[|pieces| - 1].item.text == AttributeText(e).value
      && (pieces[|pieces| - 1].item.fromCdata <==> CdataAfterLastChild(kids))
  {
    TrailingCdataIsLastRun(kids, false);
    var last := AttributePiece(GenericSpec(open, e), e, TrailingCdata(kids, false));
    assert Pieces(open, e, kids) == Mixed(open + [e.local], GenericSpec(open, e), e, kids, "", false) + last;
  }

  /** `<r a="1"><![CDATA[ ]]></r>` sends its attribute as an item marked CDATA. */
  lemma AttributeMarkedAsCdata(rules: Rules, r: Element)
    requires IsGeneric(rules) && r == Element("", "r", "r", [("a", "1")])
    ensures var out := Parse(rules, r, [CData(" "), End]).out;
      |out| == 3 && out[1].Item? && out[1].item.text == "a=\"1\"" && out[1].item.fromCdata
  {
    var kids := [Chars(" ", true)];
    var pieces := Pieces([], r, kids);
    assert StepsOf(kids) + [End] == [CData(" "), End] by {
      assert kids[1..] == [] && StepsOf(kids) == [CData(" ")];
    }
    OneBlankCdata(r, kids, pieces);
    OneLeaf(kids);
    GenericRunIsReading(rules, r, kids);
  }

  lemma OneLeaf(kids: seq<Node>)
    requires |kids| == 1 && kids[0].Chars?
    ensures Clean(kids) && Depth(kids) == 0
  {
    assert kids[1..] == [];
    assert CleanNode(kids[0]) && Clean(kids[1..]);
    assert DepthOf(kids[0]) == 0 && Depth(kids[1..]) == 0;
  }

  lemma OneBlankCdata(r: Element, kids: seq<Node>, pieces: seq<Piece>)
    requires r == Element("", "r", "r", [("a", "1")]) && kids == [Chars(" ", true)] && pieces == Pieces([], r, kids)
    ensures |pieces| == 1 && pieces[0].item.text == "a=\"1\"" && pieces[0].item.fromCdata
  {
    assert kids[1..] == [] && Blank(" ") && Silent(kids);
    PairsOfOne("a", "1");
    AttributeItemMark([], r, kids);
    assert kids[0].cdata && NoChildAfter(kids, 0);
    assert Mixed([] + ["r"], GenericSpec([], r), r, kids, "", false) == RunPiece(GenericSpec([], r), r, "" + " ", true);
  }

  lemma PairsOfOne(name: string, value: string)
    requires name != "xmlns" && !("xmlns:" <= name)
    ensures AttributePairs([(name, value)]) == name + "=\"" + value + "\""
  {
    assert [(name, value)][..0] == [];
    assert "" + name == name;
  }

  /** An element has attribute text exactly when it has an attribute that is not a
      namespace declaration. */
  lemma AttributesToShow(e: Element)
    ensures AttributeText(e).Some? <==>
      exists i :: 0 <= i < |e.attrs| && !Declares(e.attrs[i].0)
  {
    PairsToShow(e.attrs);
  }

  predicate Declares(name: string) {
    name == "xmlns" || "xmlns:" <= name
  }

  lemma {:induction false} PairsToShow(attrs: seq<(string, string)>)
    ensures AttributePairs(attrs) != "" <==> exists i :: 0 <= i < |attrs| && !Declares(attrs[i].0)
    decreases |attrs|
  {
    if attrs != [] {
      var n := |attrs| - 1;
      PairsToShow(attrs[..n]);
      if AttributePairs(attrs[..n]) != "" {
        var i :| 0 <= i < n && !Declares(attrs[..n][i].0);
        assert !Declares(attrs[i].0);
      } else {
        assert forall i :: 0 <= i < n ==> attrs[..n][i] == attrs[i];
      }
    }
  }

  // ------------------------------------------------------------------------ the labels

  /** The name title, in capitals or not. */
  predicate NamesTitle(name: string) {
    && |name| == 5
    && name[0] in {'t', 'T'} && name[1] in {'i', 'I'} && name[2] in {'t', 'T'}
    && name[3] in {'l', 'L'} && name[4] in {'e', 'E'}
  }

  /** An item of an element so deep has the element's name as its role and is a paragraph,
      but for the own text of an element named title right under the root. */
  predicate Labelled(p: Piece, deep: bool) {
    && p.item.role == p.item.element.local && p.item.kind in {Document.Title, Document.Paragraph}
    && (p.item.kind == Document.Title ==> !deep && !p.fromAttributes && NamesTitle(p.item.role))
  }

  predicate AllLabelled(pieces: seq<Piece>, deep: bool) {
    forall i :: 0 <= i < |pieces| ==> Labelled(pieces[i], deep)
  }

  lemma TitleIsNamed(name: string)
    ensures LowerAll(name) == "title" <==> NamesTitle(name)
  {
    if NamesTitle(name) {
      assert LowerAll(name) == "title";
    } else if |name| == 5 {
      var low := LowerAll(name);
      assert low[0] == Lower(name[0]) && low[1] == Lower(name[1]) && low[2] == Lower(name[2]);
      assert low[3] == Lower(name[3]) && low[4] == Lower(name[4]);
    }
  }

  lemma {:induction false} ItemsAreLabelled(open: seq<string>, e: Element, kids: seq<Node>)
    ensures AllLabelled(Pieces(open, e, kids), |open| >= 2)
    decreases kids, 1
  {
    TitleIsNamed(e.local);
    MixedIsLabelled(open + [e.local], GenericSpec(open, e), e, kids, "", false, |open| >= 2);
  }

  lemma {:induction false} MixedIsLabelled(
    open: seq<string>, spec: Spec, e: Element, kids: seq<Node>, run: string, cdata: bool, deep: bool)
    requires spec.role == e.local && spec.kind in {Document.Title, Document.Paragraph}
    requires spec.kind == Document.Title ==> !deep && NamesTitle(e.local)
    requires deep ==> |open| >= 2
    ensures AllLabelled(Mixed(open, spec, e, kids, run, cdata), deep)
    decreases kids, 0
  {
    if kids != [] {
      if kids[0].Elem? {
        ItemsAreLabelled(open, kids[0].element, kids[0].kids);
        MixedIsLabelled(open, spec, e, kids[1..], "", false, deep);
      } else {
        MixedIsLabelled(open, spec, e, kids[1..], run + MoreText(kids[0]), cdata || (kids[0].Chars? && kids[0].cdata),
                        deep);
        assert run + "" == run;
      }
    }
  }

  /** No element among them. */
  predicate NoElements(kids: seq<Node>) {
    forall i :: 0 <= i < |kids| ==> !kids[i].Elem?
  }

  lemma {:induction false} MixedAlone(
    open: seq<string>, spec: Spec, e: Element, kids: seq<Node>, run: string, cdata: bool)
    requires NoElements(kids)
    ensures forall p :: p in Mixed(open, spec, e, kids, run, cdata) ==> p.item.kind == spec.kind && !p.fromAttributes
    decreases |kids|
  {
    if kids != [] {
      MixedAlone(open, spec, e, kids[1..], run + MoreText(kids[0]), cdata || (kids[0].Chars? && kids[0].cdata));
      assert run + "" == run;
    }
  }

  /** The own text of an element without child elements is a title if and only if the
      element is named title and stands right under the root. */
  lemma TitleIsUnderTheRoot(open: seq<string>, e: Element, kids: seq<Node>)
    requires NoElements(kids)
    ensures forall p :: p in Pieces(open, e, kids) ==>
      (p.item.kind == Document.Title <==> !p.fromAttributes && |open| == 1 && NamesTitle(e.local))
  {
    TitleIsNamed(e.local);
    MixedAlone(open + [e.local], GenericSpec(open, e), e, kids, "", false);
  }
}
