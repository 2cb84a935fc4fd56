/** A whole source: what may come before the root element, and what follows it. */
module Prolog {
  import opened Basics
  import opened Wrappers
  import opened Collapse
  import opened Xml
  import opened Stream
  import opened StreamBalance
  import opened StreamFaults
  import Driver
  import StreamModes

  /** The rules a root element is read by, with the public identifier of the DOCTYPE
      before it; none when what the caller asked for and what is found disagree. */
  type Resolver = (Element, Option<string>) -> Option<Rules>

  datatype Opening = Rejected(error: ParseError) | Rooted(rules: Rules, root: Element, at: nat)

  /** Read from a position on up to and including the root's start tag. */
  function OpeningFrom(resolve: Resolver, publicId: Option<string>, steps: seq<Step>, at: nat): (opening: Opening)
    requires at <= |steps|
    ensures opening.Rooted? ==> at < opening.at <= |steps|
    decreases |steps| - at
  {
    if at == |steps| then Rejected(Truncated)
    else
      match steps[at]
      case Declaration => OpeningFrom(resolve, publicId, steps, at + 1)
      case Ignorable => OpeningFrom(resolve, publicId, steps, at + 1)
      case DocType(refused, id) => if refused then Rejected(Refused) else OpeningFrom(resolve, id, steps, at + 1)
      case Text(text) =>
        if Blank(text) then OpeningFrom(resolve, publicId, steps, at + 1) else Rejected(Malformed)
      case CData(text) =>
        if Blank(text) then OpeningFrom(resolve, publicId, steps, at + 1) else Rejected(Malformed)
      case GeneralRef(_, _) => Rejected(Malformed)
      case End => Rejected(Malformed)
      case Eof => Rejected(Truncated)
      case Start(e) =>
        var rules := resolve(e, publicId);
        if rules.Some? then Rooted(rules.value, e, at + 1) else Rejected(Ambiguous)
  }

  datatype Outcome = Outcome(out: seq<Event>, progress: Progress)

  function ParseSource(resolve: Resolver, steps: seq<Step>): Outcome {
    match OpeningFrom(resolve, None, steps, 0)
    case Rejected(error) => Outcome([], Failed(error))
    case Rooted(rules, root, at) =>
      var s := Parse(rules, root, steps[at..]);
      Outcome(s.out, s.progress)
  }

  // ---------------------------------------------------------------- as the pass does

  method ReadProlog(resolve: Resolver, steps: seq<Step>) returns (opening: Opening)
    ensures opening == OpeningFrom(resolve, None, steps, 0)
  {
    var at, publicId := 0, None;
    while at < |steps|
      invariant at <= |steps|
      invariant OpeningFrom(resolve, None, steps, 0) == OpeningFrom(resolve, publicId, steps, at)
    {
      match steps[at] {
        case Declaration =>
        case Ignorable =>
        case DocType(refused, id) =>
          if refused {
            return Rejected(Refused);
          }
          publicId := id;
        case Text(text) =>
          if !Blank(text) {
            return Rejected(Malformed);
          }
        case CData(text) =>
          if !Blank(text) {
            return Rejected(Malformed);
          }
        case GeneralRef(_, _) =>
          return Rejected(Malformed);
        case End =>
          return Rejected(Malformed);
        case Eof =>
          return Rejected(Truncated);
        case Start(e) =>
          var rules := resolve(e, publicId);
          return if rules.Some? then Rooted(rules.value, e, at + 1) else Rejected(Ambiguous);
      }
      at := at + 1;
    }
    opening := Rejected(Truncated);
  }

  /** A whole run: prolog, content, trailer. */
  method Run(resolve: Resolver, steps: seq<Step>) returns (out: seq<Event>, progress: Progress)
    ensures Outcome(out, progress) == ParseSource(resolve, steps)
  {
    var opening := ReadProlog(resolve, steps);
    match opening {
      case Rejected(error) =>
        out, progress := [], Failed(error);
      case Rooted(rules, root, at) =>
        out, progress := Driver.ParseDocument(rules, root, steps[at..]);
    }
  }

  // ------------------------------------------------------------------ what it accepts

  /** What may come before the root element: declarations, a DOCTYPE the policy allows,
      blank text, comments and instructions. */
  predicate Misc(step: Step) {
    match step
    case Declaration => true
    case Ignorable => true
    case DocType(refused, _) => !refused
    case Text(text) => Blank(text)
    case CData(text) => Blank(text)
    case _ => false
  }

  predicate AllMisc(steps: seq<Step>) {
    forall i :: 0 <= i < |steps| ==> Misc(steps[i])
  }

  /** The public identifier of the last DOCTYPE, if it has one. */
  function LastPublicId(steps: seq<Step>, publicId: Option<string>): Option<string> {
    if steps == [] then publicId
    else
      var last := steps[|steps| - 1];
      if last.DocType? then last.publicId else LastPublicId(steps[..|steps| - 1], publicId)
  }

  /** What the first step that is not misc makes of the source. */
  function Verdict(resolve: Resolver, publicId: Option<string>, step: Step, at: nat): Opening {
    match step
    case Start(e) =>
      var rules := resolve(e, publicId);
      if rules.Some? then Rooted(rules.value, e, at + 1) else Rejected(Ambiguous)
    case DocType(_, _) => Rejected(Refused)
    case Eof => Rejected(Truncated)
    case _ => Rejected(Malformed)
  }

  /** However much misc comes first, the first step that is none decides alone, and
      only the last DOCTYPE is remembered. */
  lemma {:induction false} FirstOtherDecides(
    resolve: Resolver, publicId: Option<string>, steps: seq<Step>, at: nat, n: nat)
    requires at <= n <= |steps| && AllMisc(steps[at..n]) && (n < |steps| ==> !Misc(steps[n]))
    ensures OpeningFrom(resolve, publicId, steps, at) ==
      if n == |steps| then Rejected(Truncated)
      else Verdict(resolve, LastPublicId(steps[at..n], publicId), steps[n], n)
    decreases n - at
  {
    if at < n {
      assert Misc(steps[at..n][0]);
      assert steps[at..n][1..] == steps[at + 1..n];
      LastPublicIdCons(steps[at..n], publicId);
      FirstOtherDecides(resolve, if steps[at].DocType? then steps[at].publicId else publicId, steps, at + 1, n);
    }
  }

  lemma {:induction false} LastPublicIdCons(steps: seq<Step>, publicId: Option<string>)
    requires steps != []
    ensures LastPublicId(steps, publicId) ==
      LastPublicId(steps[1..], if steps[0].DocType? then steps[0].publicId else publicId)
    decreases |steps|
  {
    if |steps| > 1 {
      var n := |steps| - 1;
      assert steps[1..][..n - 1] == steps[..n][1..] && steps[1..][n - 1] == steps[n];
      LastPublicIdCons(steps[..n], publicId);
    }
  }

  /** Nothing is read once the root has closed or the pass has failed. */
  lemma RestIsUnread(rules: Rules, root: Element, steps: seq<Step>, after: seq<Step>)
    requires OnSteps(rules, Begin(rules, root), steps).progress != Running
    ensures Parse(rules, root, steps + after) == Parse(rules, root, steps)
  {
    var b := Begin(rules, root);
    var t := OnSteps(rules, b, steps);
    Assoc(steps, after, [Eof]);
    OnStepsConcat(rules, b, steps, after + [Eof]);
    OnStepsConcat(rules, b, steps, [Eof]);
    OverStaysOver(rules, t, after + [Eof]);
    OverStaysOver(rules, t, [Eof]);
  }

  /** Once the root's end tag is read the pass is over, one way or the other. */
  lemma OverAtRootEnd(rules: Rules, root: Element, kids: seq<Node>)
    requires StreamModes.Sane(rules)
    ensures OnSteps(rules, Begin(rules, root), StepsOf(kids) + [End]).progress != Running
  {
    var b, steps := Begin(rules, root), StepsOf(kids) + [End];
    FirstFaultDecides(rules, root, kids);
    NoTruncatedFault(rules, Deciding, [root.local], 1, kids);
    OnStepsConcat(rules, b, steps, [Eof]);
    OnStepsOne(rules, OnSteps(rules, b, steps), Eof);
  }

  lemma {:induction false} NoTruncatedFault(
    rules: Rules, attention: Attention, open: seq<string>, level: nat, nodes: seq<Node>)
    ensures FaultIn(rules, attention, open, level, nodes) != Some(Truncated)
    decreases nodes
  {
    if nodes != [] {
      if nodes[0].Elem? {
        var e := nodes[0].element;
        NoTruncatedFault(rules, AttentionTo(rules, attention, open, e), open + [e.local], level + 1, nodes[0].kids);
      }
      NoTruncatedFault(rules, attention, open, level, nodes[1..]);
    }
  }

  /** A source is read as its root element alone: whatever misc comes before it only
      settles the dialect, and whatever comes after it, another element even, is never
      looked at. */
  lemma SourceIsItsRoot(
    resolve: Resolver, misc: seq<Step>, root: Element, kids: seq<Node>, after: seq<Step>, rules: Rules)
    requires AllMisc(misc) && resolve(root, LastPublicId(misc, None)) == Some(rules) && StreamModes.Sane(rules)
    ensures var s := Parse(rules, root, StepsOf(kids) + [End]);
      ParseSource(resolve, misc + [Start(root)] + (StepsOf(kids) + [End] + after)) == Outcome(s.out, s.progress)
  {
    var content := StepsOf(kids) + [End];
    var steps := misc + [Start(root)] + (content + after);
    assert steps[0..|misc|] == misc && steps[|misc|] == Start(root);
    assert steps[|misc| + 1..] == content + after;
    FirstOtherDecides(resolve, None, steps, 0, |misc|);
    OverAtRootEnd(rules, root, kids);
    RestIsUnread(rules, root, content, after);
  }
}
