/** Cross-references as the document writes them. A run that found no item keeps `#`
    and the name it states, an item is written `#/texts/0` and so on, and nothing but
    the text tells a reader which of the two it is. */
module WrittenTargets {
  import opened Basics
  import opened Wrappers
  import opened Decimal
  import opened Document
  import opened RefNames
  import opened Grid
  import opened Fold
  import opened FoldAnchors

  function Written(t: Target): string {
    match t
    case Key(name) => "#" + name
    case Item(r) => Show(r)
  }

  /** The name that is written like an item. */
  function NameLike(r: Ref): string {
    match r
    case Body => "/body"
    case Furniture => "/furniture"
    case Groups(n) => "/groups/" + Digits(n)
    case Texts(n) => "/texts/" + Digits(n)
    case Tables(n) => "/tables/" + Digits(n)
    case Pictures(n) => "/pictures/" + Digits(n)
    case KeyValues(n) => "/key_value_items/" + Digits(n)
  }

  lemma Hashed(prefix: string, hashed: string, digits: string)
    requires "#" + prefix == hashed
    ensures "#" + (prefix + digits) == hashed + digits
  {
    Assoc("#", prefix, digits);
  }

  lemma NameLikeIsShown(r: Ref)
    ensures "#" + NameLike(r) == Show(r)
  {
    match r
    case Body => assert "#" + "/body" == BODY_REF;
    case Furniture => assert "#" + "/furniture" == FURNITURE_REF;
    case Groups(n) => Hashed("/groups/", "#/groups/", Digits(n));
    case Texts(n) => Hashed("/texts/", "#/texts/", Digits(n));
    case Tables(n) => Hashed("/tables/", "#/tables/", Digits(n));
    case Pictures(n) => Hashed("/pictures/", "#/pictures/", Digits(n));
    case KeyValues(n) => Hashed("/key_value_items/", "#/key_value_items/", Digits(n));
  }

  /** The two forms coincide for exactly one name of each item. */
  lemma KeyReadsAsItem(name: string, r: Ref)
    ensures Show(r) != "" && NameLike(r) == Show(r)[1..]
    ensures Written(Key(name)) == Written(Item(r)) <==> name == NameLike(r)
  {
    NameLikeIsShown(r);
    assert ("#" + name)[1..] == name && ("#" + NameLike(r))[1..] == NameLike(r);
  }

  lemma CollidesAtTextThree()
    ensures Written(Key("/texts/3")) == Written(Item(Texts(3)))
  {
    assert Digits(3) == "3";
    KeyReadsAsItem("/texts/3", Texts(3));
  }

  // ----------------------------------------------------------- names like items

  /** Digits as a number is written: no zero in front of others. */
  predicate Numeral(s: string) {
    s != "" && AllDigits(s) && (|s| > 1 ==> s[0] != '0')
  }

  predicate NumberedAfter(prefix: string, name: string) {
    prefix <= name && Numeral(name[|prefix|..])
  }

  /** What can be checked of a name before it is written: it looks like an item. */
  predicate LooksLikeItem(name: string) {
    || name == "/body" || name == "/furniture"
    || NumberedAfter("/groups/", name) || NumberedAfter("/texts/", name) || NumberedAfter("/tables/", name)
    || NumberedAfter("/pictures/", name) || NumberedAfter("/key_value_items/", name)
  }

  lemma {:induction false} NumeralIsDigits(s: string)
    requires Numeral(s)
    ensures Digits(DigitsValue(s)) == s
    ensures |s| > 1 ==> DigitsValue(s) >= 10
    decreases |s|
  {
    var rest := s[..|s| - 1];
    if rest != "" {
      NumeralIsDigits(rest);
      assert |rest| == 1 ==> DigitsValue(rest[..0]) == 0;
      assert s == rest + [s[|s| - 1]];
    } else {
      assert DigitsValue(rest) == 0;
    }
  }

  lemma {:induction false} DigitsAreNumeral(n: nat)
    ensures Numeral(Digits(n))
    ensures n > 0 ==> Digits(n)[0] != '0'
  {
    if n >= 10 {
      DigitsAreNumeral(n / 10);
    }
  }

  lemma NumberedIsLike(prefix: string, name: string) returns (n: nat)
    requires NumberedAfter(prefix, name)
    ensures name == prefix + Digits(n)
  {
    n := DigitsValue(name[|prefix|..]);
    NumeralIsDigits(name[|prefix|..]);
  }

  lemma LooksLike(name: string) returns (r: Ref)
    requires LooksLikeItem(name)
    ensures name == NameLike(r)
  {
    if name == "/body" {
      r := Body;
    } else if name == "/furniture" {
      r := Furniture;
    } else if NumberedAfter("/groups/", name) {
      var n := NumberedIsLike("/groups/", name);
      r := Groups(n);
    } else if NumberedAfter("/texts/", name) {
      var n := NumberedIsLike("/texts/", name);
      r := Texts(n);
    } else if NumberedAfter("/tables/", name) {
      var n := NumberedIsLike("/tables/", name);
      r := Tables(n);
    } else if NumberedAfter("/pictures/", name) {
      var n := NumberedIsLike("/pictures/", name);
      r := Pictures(n);
    } else {
      var n := NumberedIsLike("/key_value_items/", name);
      r := KeyValues(n);
    }
  }

  lemma NumberedAt(prefix: string, n: nat)
    ensures NumberedAfter(prefix, prefix + Digits(n))
  {
    assert (prefix + Digits(n))[|prefix|..] == Digits(n);
    DigitsAreNumeral(n);
  }

  lemma LikeLooks(r: Ref)
    ensures LooksLikeItem(NameLike(r))
  {
    if !r.Root() {
      NumberedAt("/groups/", r.n);
      NumberedAt("/texts/", r.n);
      NumberedAt("/tables/", r.n);
      NumberedAt("/pictures/", r.n);
      NumberedAt("/key_value_items/", r.n);
    }
  }

  /** A reader takes the text for an item. */
  ghost predicate ReadsAsItem(text: string) {
    exists r: Ref :: text == Show(r)
  }

  /** A bare name reads as an item exactly when it looks like one. */
  lemma BareNameReadsAsItem(name: string)
    ensures ReadsAsItem(Written(Key(name))) <==> LooksLikeItem(name)
  {
    if LooksLikeItem(name) {
      var r := LooksLike(name);
      KeyReadsAsItem(name, r);
    }
    if r: Ref :| Written(Key(name)) == Show(r) {
      KeyReadsAsItem(name, r);
      LikeLooks(r);
    }
  }

  // ---------------------------------------------------------- resolving the text

  function ShowAll(anchors: map<string, Ref>): (shown: map<string, string>)
    ensures shown.Keys == anchors.Keys
  {
    map name | name in anchors :: Show(anchors[name])
  }

  /** How the program resolves a target: as text, by what follows the `#`. */
  function Rewrite(anchors: map<string, string>, target: string): string {
    if target != "" && target[0] == '#' && target[1..] in anchors then anchors[target[1..]] else target
  }

  /** Resolving the text of a run not yet resolved is resolving what it denotes. */
  lemma RewriteIsResolve(anchors: map<string, Ref>, span: Span)
    requires span.target.Some? && span.target.value.Key?
    ensures Resolve(anchors, span).target.Some?
    ensures Written(Resolve(anchors, span).target.value) == Rewrite(ShowAll(anchors), Written(span.target.value))
  {
    assert Written(span.target.value)[1..] == span.target.value.name;
  }

  // ------------------------------------------------------------ finished documents

  /** What is written for a run that states a name. */
  ghost predicate WrittenRight(span: Span, anchors: map<string, Ref>) {
    && span.target.Some? == span.reference.Some?
    && (span.reference.Some? ==>
          var name, text := span.reference.value, Written(span.target.value);
          && text == (if name in anchors then Show(anchors[name]) else "#" + name)
          && (ReadsAsItem(text) <==> name in anchors || LooksLikeItem(name)))
  }

  ghost predicate AllWrittenRight(spans: seq<Span>, anchors: map<string, Ref>) {
    forall i :: 0 <= i < |spans| ==> WrittenRight(spans[i], anchors)
  }

  lemma AnsweredIsWritten(spans: seq<Span>, anchors: map<string, Ref>)
    requires Answered(spans, anchors)
    ensures AllWrittenRight(spans, anchors)
  {
    forall i | 0 <= i < |spans| ensures WrittenRight(spans[i], anchors) {
      var span := spans[i];
      assert span.target == AnswerTo(span.reference, anchors);
      if span.reference.Some? {
        BareNameReadsAsItem(span.reference.value);
        assert span.reference.value in anchors ==> ReadsAsItem(Show(anchors[span.reference.value]));
      }
    }
  }

  ghost predicate DocumentWrittenRight(d: Document) {
    && (forall i :: 0 <= i < |d.texts| ==> AllWrittenRight(d.texts[i].spans, d.anchors))
    && (forall i :: 0 <= i < |d.tables| ==>
          CellsWrittenRight(d.tables[i].cells, d.anchors) && d.tables[i].cells == Concat(d.tables[i].grid))
  }

  ghost predicate CellsWrittenRight(cells: seq<Cell>, anchors: map<string, Ref>) {
    forall k :: 0 <= k < |cells| ==> AllWrittenRight(cells[k].spans, anchors)
  }

  lemma CellsAreWritten(cells: seq<Cell>, anchors: map<string, Ref>)
    requires CellsAnswered(cells, anchors)
    ensures CellsWrittenRight(cells, anchors)
  {
    forall k | 0 <= k < |cells| ensures AllWrittenRight(cells[k].spans, anchors) {
      AnsweredIsWritten(cells[k].spans, anchors);
    }
  }

  lemma DocumentIsWritten(d: Document)
    requires RunsAnswered(d)
    ensures DocumentWrittenRight(d)
  {
    forall i | 0 <= i < |d.texts| ensures AllWrittenRight(d.texts[i].spans, d.anchors) {
      AnsweredIsWritten(d.texts[i].spans, d.anchors);
    }
    forall i | 0 <= i < |d.tables|
      ensures CellsWrittenRight(d.tables[i].cells, d.anchors) && d.tables[i].cells == Concat(d.tables[i].grid)
    {
      CellsAreWritten(d.tables[i].cells, d.anchors);
    }
  }

  /** In the finished document of any stream a run is written as the item that carries
      the name it states, and as the bare name when none does; it then reads as an
      item exactly when the name looks like one, which is the one way to be misled. */
  lemma TargetsAreWritten(events: seq<Event>)
    ensures DocumentWrittenRight(Taken(FoldAll(events)))
  {
    OnePassEqualsTwo(events);
    DocumentIsWritten(Taken(FoldAll(events)));
  }

  const MISLEADING := Text(TextEvent(
    Paragraph, "see", None, None, None, [WireSpan(Some((0, 3)), false, None, ["/texts/0"])], None, false))

  /** One paragraph that refers to the name `/texts/0`, which nothing carries, is
      written as referring to itself. */
  lemma MisledAtOneParagraph()
    ensures var d := Taken(FoldAll([MISLEADING]));
      && d.anchors == map[] && |d.texts| == 1 && |d.texts[0].spans| == 1
      && d.texts[0].spans[0].target == Some(Key("/texts/0"))
      && Written(d.texts[0].spans[0].target.value) == Show(d.texts[0].selfRef)
  {
    assert FoldAll([]) == FRESH && [MISLEADING][..0] == [];
    MisledAfterOne(Consume(FRESH, MISLEADING));
    assert Digits(0) == "0";
  }

  lemma MisledAfterOne(f: State)
    requires f == Consume(FRESH, MISLEADING)
    ensures Taken(f).anchors == map[] && |Taken(f).texts| == 1 && Taken(f).texts[0].selfRef == Texts(0)
    ensures Taken(f).texts[0].spans == [Span(0, 3, false, None, Some("/texts/0"), Some(Key("/texts/0")))]
  {
    var run := Span(0, 3, false, None, Some("/texts/0"), Some(Key("/texts/0")));
    assert InlineSpans(MISLEADING.item.spans) == [run];
    assert f.anchors == map[] && |f.doc.texts| == 1 && f.doc.texts[0].spans == [run];
    assert f.table.None? && f.doc.texts[0].selfRef == Texts(0);
    assert Taken(f).texts[0] == ResolveText(map[], f.doc.texts[0]);
    assert ResolveAll(map[], [run])[0] == Resolve(map[], run);
  }
}
