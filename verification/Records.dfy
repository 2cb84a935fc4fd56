/** The subtrees the pass reads whole instead of mapping: XBRL contexts, units and note
    links, and metadata records. Each is a fold over the steps between its tags. */
module Records {
  import opened Wrappers
  import opened Collapse
  import opened Decimal
  import opened Xml

  const NS_XBRL_INSTANCE := "http://www.xbrl.org/2003/instance"
  const NS_XBRL_LINKBASE := "http://www.xbrl.org/2003/linkbase"

  const U64_MAX: nat := 0xFFFF_FFFF_FFFF_FFFF

  /** Elements interpreted in one metadata record and in one note link. */
  const MAX_META_ELEMENTS: nat := 256
  const MAX_NOTE_LINK_ELEMENTS: nat := 4096

  // -------------------------------------------------------------- what is read how

  /** What a metadata record decodes into. */
  datatype Shape =
    | DateRecord
    | IdentifierRecord(scheme: string)
    | ClassificationRecord(scheme: string)
    | LicenseRecord
    | FundingRecord
    | CitationRecord

  datatype RecordKind =
    | ContextRecord
    | UnitRecord
    | NoteRecord(footnote: bool)
    | MetaRecord(shape: Shape)
  {
    /** The elements inside a context or unit are not counted as visited. */
    predicate Tallied() {
      NoteRecord? || MetaRecord?
    }
  }

  /** A record being read: its element, and the steps read of its content. */
  datatype Record = Record(kind: RecordKind, element: Element, read: seq<Step>)

  /** What an XBRL instance does with an element that nothing open has claimed. */
  datatype Reading = ReadFact | ReadRecord(kind: RecordKind) | Discard | Pass

  function ReadingOf(e: Element): Reading {
    if e.namespace == NS_XBRL_INSTANCE && e.local == "context" then ReadRecord(ContextRecord)
    else if e.namespace == NS_XBRL_INSTANCE && e.local == "unit" then ReadRecord(UnitRecord)
    else if e.Get("contextRef").Some? then ReadFact
    else if e.namespace == NS_XBRL_INSTANCE || e.namespace == NS_XBRL_LINKBASE then
      if e.local == "footnoteLink" then ReadRecord(NoteRecord(true))
      else if e.local == "labelLink" then ReadRecord(NoteRecord(false))
      else Discard
    else Reading.Pass
  }

  /** A fold over steps, first to last. */
  function FoldSteps<B>(f: (B, Step) -> B, b: B, steps: seq<Step>): B {
    if steps == [] then b else f(FoldSteps(f, b, steps[..|steps| - 1]), steps[|steps| - 1])
  }

  /** A value, or the empty text where the source states none. */
  function OrEmpty(value: Option<string>): string {
    if value.Some? then value.value else ""
  }

  // ----------------------------------------------------------------------- contexts

  datatype Dimension = Dimension(axis: string, member: Option<string>, typedValue: Option<string>, scenario: bool)

  datatype Period = Period(
    instant: Option<string>, startDate: Option<string>, endDate: Option<string>, forever: bool)

  datatype Context = Context(
    id: string, scheme: Option<string>, entity: Option<string>, period: Period, dimensions: seq<Dimension>)

  /** A context half read: the elements open in it, the text since the last tag, and the
      dimension whose member is awaited. */
  datatype ContextBuild = ContextBuild(
    context: Context, path: seq<string>, text: string, dimension: Option<Dimension>)

  function NewContext(id: string): ContextBuild {
    ContextBuild(Context(id, None, None, Period(None, None, None, false), []), [], "", None)
  }

  function ContextOpens(b: ContextBuild, e: Element): ContextBuild {
    if e.local == "identifier" then b.(context := b.context.(scheme := e.Get("scheme")))
    else if e.local == "explicitMember" || e.local == "typedMember" then
      b.(dimension := Some(Dimension(OrEmpty(e.Get("dimension")), None, None, "scenario" in b.path)))
    else b
  }

  function ContextCloses(b: ContextBuild, closing: string, value: string): ContextBuild {
    var c := b.context;
    if closing == "identifier" then b.(context := c.(entity := Some(value)))
    else if closing == "instant" then b.(context := c.(period := c.period.(instant := Some(value))))
    else if closing == "startDate" then b.(context := c.(period := c.period.(startDate := Some(value))))
    else if closing == "endDate" then b.(context := c.(period := c.period.(endDate := Some(value))))
    else if closing == "forever" then b.(context := c.(period := c.period.(forever := true)))
    else if closing == "explicitMember" && b.dimension.Some? then
      var d := b.dimension.value.(member := Some(value));
      b.(context := c.(dimensions := c.dimensions + [d]), dimension := None)
    else if closing == "typedMember" && b.dimension.Some? then
      var d := b.dimension.value.(typedValue := Some(value));
      b.(context := c.(dimensions := c.dimensions + [d]), dimension := None)
    else b
  }

  function ContextStep(b: ContextBuild, step: Step): ContextBuild {
    match step
    case Start(e) => ContextOpens(b, e).(path := b.path + [e.local], text := "")
    case End =>
      var n := |b.path|;
      ContextCloses(b, if n == 0 then "" else b.path[n - 1], Collapsed(b.text)).(
        path := if n == 0 then [] else b.path[..n - 1], text := "")
    case Text(text) => b.(text := b.text + text)
    case CData(text) => b.(text := b.text + text)
    case GeneralRef(_, resolved) => b.(text := b.text + OrEmpty(resolved))
    case _ => b
  }

  function ContextAfter(e: Element, read: seq<Step>): ContextBuild {
    FoldSteps(ContextStep, NewContext(OrEmpty(e.Get("id"))), read)
  }

  function ContextOf(e: Element, read: seq<Step>): Context {
    ContextAfter(e, read).context
  }

  // -------------------------------------------------------------------------- units

  datatype Unit = Unit(id: string, measures: seq<string>, numerator: seq<string>, denominator: seq<string>)

  datatype UnitBuild = UnitBuild(unit: Unit, path: seq<string>, text: string)

  function NewUnit(id: string): UnitBuild {
    UnitBuild(Unit(id, [], [], []), [], "")
  }

  /** A measure goes where the elements open around it say it belongs. */
  function UnitCloses(u: Unit, path: seq<string>, closing: string, value: string): Unit {
    if closing != "measure" then u
    else if "unitNumerator" in path then u.(numerator := u.numerator + [value])
    else if "unitDenominator" in path then u.(denominator := u.denominator + [value])
    else u.(measures := u.measures + [value])
  }

  function UnitStep(b: UnitBuild, step: Step): UnitBuild {
    match step
    case Start(e) => b.(path := b.path + [e.local], text := "")
    case End =>
      var n := |b.path|;
      var path, closing := if n == 0 then [] else b.path[..n - 1], if n == 0 then "" else b.path[n - 1];
      UnitBuild(UnitCloses(b.unit, path, closing, Collapsed(b.text)), path, "")
    case Text(text) => b.(text := b.text + text)
    case CData(text) => b.(text := b.text + text)
    case GeneralRef(_, resolved) => b.(text := b.text + OrEmpty(resolved))
    case _ => b
  }

  function UnitAfter(e: Element, read: seq<Step>): UnitBuild {
    FoldSteps(UnitStep, NewUnit(OrEmpty(e.Get("id"))), read)
  }

  function UnitOf(e: Element, read: seq<Step>): Unit {
    UnitAfter(e, read).unit
  }

  // -------------------------------------------------------------------------- notes

  datatype XbrlNote = XbrlNote(
    footnote: bool, name: string, role: Option<string>, language: Option<string>, targets: seq<string>, text: string)

  /** A note link half read: what it declares so far, the note open in it with the depth
      it opened at, how deep the reading stands, and how many elements it has seen. */
  datatype LinkBuild = LinkBuild(
    footnote: bool, locators: seq<(string, string)>, arcs: seq<(string, string)>, notes: seq<XbrlNote>,
    open: Option<(XbrlNote, nat)>, depth: nat, elements: nat)

  function NewLink(footnote: bool): LinkBuild {
    LinkBuild(footnote, [], [], [], None, 1, 0)
  }

  function LinkOpens(b: LinkBuild, e: Element): LinkBuild {
    if e.local == "loc" then b.(locators := b.locators + [(OrEmpty(e.Get("label")), OrEmpty(e.Get("href")))])
    else if e.local == "footnoteArc" || e.local == "labelArc" then
      b.(arcs := b.arcs + [(OrEmpty(e.Get("from")), OrEmpty(e.Get("to")))])
    else if e.local == "footnote" || e.local == "label" then
      b.(open := Some((XbrlNote(b.footnote, OrEmpty(e.Get("label")), e.Get("role"), e.Get("lang"), [], ""), b.depth)))
    else b
  }

  function NoteText(b: LinkBuild, text: string): LinkBuild {
    if b.open.None? then b
    else b.(open := Some((b.open.value.0.(text := b.open.value.0.text + text), b.open.value.1)))
  }

  function LinkStep(b: LinkBuild, step: Step): LinkBuild {
    match step
    case Start(e) =>
      var c := b.(depth := b.depth + 1, elements := b.elements + 1);
      if c.elements > MAX_NOTE_LINK_ELEMENTS || c.open.Some? then c else LinkOpens(c, e)
    case End =>
      var c := b.(depth := if b.depth > 0 then b.depth - 1 else 0);
      if c.open.Some? && c.depth < c.open.value.1 then
        var note := c.open.value.0;
        c.(notes := c.notes + [note.(text := Collapsed(note.text))], open := None)
      else c
    case Text(text) => NoteText(b, text)
    case CData(text) => NoteText(b, text)
    case GeneralRef(_, resolved) => NoteText(b, OrEmpty(resolved))
    case _ => b
  }

  /** Where the first locator of this name points. */
  function Locate(locators: seq<(string, string)>, name: string): seq<string> {
    if locators == [] then []
    else if locators[0].0 == name then [locators[0].1]
    else Locate(locators[1..], name)
  }

  /** What the arcs into this name come from. */
  function TargetsOf(locators: seq<(string, string)>, arcs: seq<(string, string)>, name: string): seq<string> {
    if arcs == [] then []
    else (if arcs[0].1 == name then Locate(locators, arcs[0].0) else []) + TargetsOf(locators, arcs[1..], name)
  }

  function Targeted(b: LinkBuild): (notes: seq<XbrlNote>)
    ensures |notes| == |b.notes|
  {
    seq(|b.notes|, i requires 0 <= i < |b.notes| =>
      b.notes[i].(targets := TargetsOf(b.locators, b.arcs, b.notes[i].name)))
  }

  function LinkAfter(footnote: bool, read: seq<Step>): LinkBuild {
    FoldSteps(LinkStep, NewLink(footnote), read)
  }

  function NotesOf(footnote: bool, read: seq<Step>): seq<XbrlNote> {
    Targeted(LinkAfter(footnote, read))
  }

  // ----------------------------------------------------------------------- metadata

  datatype Leaf = Leaf(element: Element, text: string)

  /** A metadata record flattened: its elements with their own text, as they ended, and
      all of their texts in one. */
  datatype MetaTree = MetaTree(leaves: seq<Leaf>, text: string)

  datatype MetaBuild = MetaBuild(tree: MetaTree, open: seq<Leaf>, elements: nat)

  const NEW_META := MetaBuild(MetaTree([], ""), [], 0)

  /** One more word run, apart from what came before it; a blank one adds nothing. */
  function PushWords(text: string, words: string): string {
    if words == "" then text else text + (if text == "" then "" else " ") + words
  }

  function MetaText(b: MetaBuild, text: string): MetaBuild {
    if b.open == [] then b.(tree := b.tree.(text := PushWords(b.tree.text, Collapsed(text)))) else MetaInner(b, text)
  }

  /** Text inside an element of the record; directly in the record it is dropped. */
  function MetaInner(b: MetaBuild, text: string): MetaBuild {
    if b.open == [] then b
    else
      var n := |b.open| - 1;
      b.(open := b.open[n := b.open[n].(text := b.open[n].text + text)])
  }

  /** An end tag: the last element not yet ended, if there is one, is a leaf now. */
  function MetaCloses(b: MetaBuild): MetaBuild {
    if b.open == [] then b
    else
      var n := |b.open| - 1;
      var leaf := b.open[n].(text := Collapsed(b.open[n].text));
      b.(tree := MetaTree(b.tree.leaves + [leaf], PushWords(b.tree.text, leaf.text)), open := b.open[..n])
  }

  function MetaStep(b: MetaBuild, step: Step): MetaBuild {
    match step
    case Start(e) =>
      var c := b.(elements := b.elements + 1);
      if c.elements <= MAX_META_ELEMENTS then c.(open := c.open + [Leaf(e, "")]) else c
    case End => MetaCloses(b)
    case Text(text) => MetaText(b, text)
    case CData(text) => MetaText(b, text)
    case GeneralRef(_, resolved) => MetaInner(b, OrEmpty(resolved))
    case _ => b
  }

  function MetaAfter(read: seq<Step>): MetaBuild {
    FoldSteps(MetaStep, NEW_META, read)
  }

  function TreeOf(read: seq<Step>): MetaTree {
    MetaAfter(read).tree
  }

  /** The text of the first leaf of this name. */
  function LeafText(leaves: seq<Leaf>, local: string): Option<string> {
    if leaves == [] then None
    else if leaves[0].element.local == local then Some(leaves[0].text)
    else LeafText(leaves[1..], local)
  }

  /** The ASCII digits of a text, in order. */
  function DigitsIn(s: string): string {
    if s == "" then "" else (if IsDigit(s[0]) then [s[0]] else "") + DigitsIn(s[1..])
  }

  /** The number of a cited reference: its attribute, whatever surrounds the digits, or
      else its sequence element. */
  function CitationOrdinal(e: Element, tree: MetaTree): Option<nat> {
    var num := e.Get("num");
    var attribute := if num.Some? then ParseUnsigned(DigitsIn(num.value), U64_MAX) else None;
    var sequence := LeafText(tree.leaves, "sequence");
    if attribute.Some? then attribute
    else if sequence.Some? then ParseUnsigned(sequence.value, U64_MAX)
    else None
  }
}
