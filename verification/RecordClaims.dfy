/** Where what a record keeps is not what its contract describes: each case at an input,
    and exactly when the two agree. */
module RecordClaims {
  import opened Basics
  import opened Wrappers
  import opened Collapse
  import opened Decimal
  import opened Xml
  import opened Records
  import opened StreamBalance
  import opened RecordReading
  import Generic

  // ------------------------------------------------------- the value of a context element

  /** What content says up to the end of its last child element. */
  function Lead(nodes: seq<Node>): string
    decreases |nodes|
  {
    if NoElement(nodes) then "" else DataIn(nodes[0]) + Lead(nodes[1..])
  }

  predicate NoElement(nodes: seq<Node>) {
    forall i :: 0 <= i < |nodes| ==> !nodes[i].Elem?
  }

  lemma {:induction false} LeadThenTail(before: string, nodes: seq<Node>)
    ensures Data(nodes) == Lead(nodes) + if NoElement(nodes) then Data(nodes) else Tail("", nodes)
    ensures Tail(before, nodes) == if NoElement(nodes) then before + Data(nodes) else Tail("", nodes)
    decreases |nodes|
  {
    if nodes == [] {
      assert before + "" == before;
    } else {
      var more := if nodes[0].Elem? then "" else before + Said(nodes[0]);
      LeadThenTail(more, nodes[1..]);
      LeadThenTail(if nodes[0].Elem? then "" else "" + Said(nodes[0]), nodes[1..]);
      assert NoElement(nodes) <==> !nodes[0].Elem? && NoElement(nodes[1..]);
      Assoc(before, Said(nodes[0]), Data(nodes[1..]));
      Assoc(DataIn(nodes[0]), Lead(nodes[1..]), Tail("", nodes[1..]));
      if NoElement(nodes[1..]) {
        assert "" + Data(nodes[1..]) == Data(nodes[1..]);
      }
    }
  }

  /** Leading text changes a collapsed text exactly when it is not blank. */
  lemma LeadShows(lead: string, rest: string)
    ensures Collapsed(lead + rest) == Collapsed(rest) <==> Blank(lead)
  {
    CollapsedConcat(lead, rest);
    if !Blank(lead) {
      Generic.BlankSqueezes(lead + rest);
      Generic.BlankSqueezes(rest);
      Generic.SqueezeConcat(lead, rest);
      SqueezedIsBlank(lead);
      assert |Generic.Squeeze(lead + rest)| > |Generic.Squeeze(rest)|;
    }
  }

  lemma {:induction false} SqueezedIsBlank(s: string)
    ensures Generic.Squeeze(s) == "" <==> Blank(s)
    decreases |s|
  {
    if s != "" {
      SqueezedIsBlank(s[1..]);
      BlankTail(s);
    }
  }

  /** An element of a context is worth all it says exactly when everything it says
      before the end of its last child element is blank. */
  lemma ValueIsContent(kids: seq<Node>)
    ensures Collapsed(Tail("", kids)) == Collapsed(Data(kids)) <==> Blank(Lead(kids))
  {
    LeadThenTail("", kids);
    LeadShows(Lead(kids), Tail("", kids));
    if NoElement(kids) {
      assert "" + Data(kids) == Data(kids) && Lead(kids) == "";
    }
  }

  /** A typed dimension writes its value in a child element, and is kept without it. */
  lemma TypedMemberLosesValue(axis: string, member: Element, domain: Element, value: string)
    requires member.local == "typedMember" && member.Get("dimension") == Some(axis)
    requires domain.local !in {"identifier", "instant", "startDate", "endDate", "forever"} && !IsMember(domain)
    ensures var c := ReadContext(NewContext("").context, false, [Elem(member, [Elem(domain, [Chars(value, false)])])]);
      c.dimensions == [Dimension(axis, None, Some(""), false)]
  {
    var inside := [Chars(value, false)];
    var kids := [Elem(domain, inside)];
    var nodes := [Elem(member, kids)];
    assert inside[1..] == [] && kids[1..] == [] && nodes[1..] == [];
    assert Tail("", kids) == Tail("", []) == "";
    assert !MemberIn(inside[0]) && !HasMember(inside) && !MemberIn(kids[0]) && !HasMember(kids);
    var c := NewContext("").context;
    var scenario := false || domain.local == "scenario";
    assert ReadContext(c, scenario, inside) == ReadContext(c, scenario, []) == c;
    assert ReadContextIn(c, false, kids[0]) == WithElement(c, false, domain, inside) == c;
    assert ReadContext(c, false, kids) == ReadContext(c, false, []) == c;
  }

  // --------------------------------------------------------------- the targets of a note

  /** Where every locator of this name points. */
  function LocateAll(locators: seq<(string, string)>, name: string): seq<string> {
    if locators == [] then []
    else (if locators[0].0 == name then [locators[0].1] else []) + LocateAll(locators[1..], name)
  }

  /** What every locator that an arc joins to this name points at. */
  function AllTargets(locators: seq<(string, string)>, arcs: seq<(string, string)>, name: string): seq<string> {
    if arcs == [] then []
    else (if arcs[0].1 == name then LocateAll(locators, arcs[0].0) else []) + AllTargets(locators, arcs[1..], name)
  }

  /** Every arc into this name comes from a name that at most one locator has. */
  predicate LocatedOnce(locators: seq<(string, string)>, arcs: seq<(string, string)>, name: string) {
    forall i :: 0 <= i < |arcs| && arcs[i].1 == name ==> |LocateAll(locators, arcs[i].0)| <= 1
  }

  lemma {:induction false} FirstOfAll(locators: seq<(string, string)>, name: string)
    ensures var all := LocateAll(locators, name);
      Locate(locators, name) == if all == [] then [] else [all[0]]
    decreases |locators|
  {
    if locators != [] {
      FirstOfAll(locators[1..], name);
    }
  }

  lemma LocatedOnceCons(locators: seq<(string, string)>, arcs: seq<(string, string)>, name: string)
    requires arcs != []
    ensures LocatedOnce(locators, arcs, name) <==>
      (arcs[0].1 == name ==> |LocateAll(locators, arcs[0].0)| <= 1) && LocatedOnce(locators, arcs[1..], name)
  {
    assert forall i :: 0 <= i < |arcs[1..]| ==> arcs[1..][i] == arcs[i + 1];
    assert forall i :: 1 <= i < |arcs| ==> arcs[i] == arcs[1..][i - 1];
  }

  lemma {:induction false} FewerTargets(locators: seq<(string, string)>, arcs: seq<(string, string)>, name: string)
    ensures var some, all := TargetsOf(locators, arcs, name), AllTargets(locators, arcs, name);
      && |some| <= |all| && (|some| == |all| <==> LocatedOnce(locators, arcs, name))
      && (LocatedOnce(locators, arcs, name) ==> some == all)
    decreases |arcs|
  {
    if arcs != [] {
      FewerTargets(locators, arcs[1..], name);
      FirstOfAll(locators, arcs[0].0);
      LocatedOnceCons(locators, arcs, name);
      var first := LocateAll(locators, arcs[0].0);
      assert |first| == 1 ==> first == [first[0]];
    }
  }

  /** A note's targets are what every locator joined to it points at exactly when no
      name its arcs come from is shared by two locators. */
  lemma TargetsAreAll(locators: seq<(string, string)>, arcs: seq<(string, string)>, name: string)
    ensures TargetsOf(locators, arcs, name) == AllTargets(locators, arcs, name) <==> LocatedOnce(locators, arcs, name)
  {
    FewerTargets(locators, arcs, name);
  }

  /** Two locators of one name, joined to a note by one arc: the second is lost. */
  lemma SecondLocatorIsLost()
    ensures TargetsOf([("f", "#f1"), ("f", "#f2")], [("f", "n")], "n") == ["#f1"]
    ensures AllTargets([("f", "#f1"), ("f", "#f2")], [("f", "n")], "n") == ["#f1", "#f2"]
  {
    var locators, arcs := [("f", "#f1"), ("f", "#f2")], [("f", "n")];
    assert locators[1..] == [("f", "#f2")] && arcs[1..] == [];
    assert LocateAll([("f", "#f2")], "f") == ["#f2"];
    assert Locate(locators, "f") == ["#f1"] && LocateAll(locators, "f") == ["#f1", "#f2"];
  }

  // -------------------------------------------------------------- the text of a record

  predicate EndsInSpace(s: string) {
    s != "" && IsWhitespace(s[|s| - 1])
  }

  predicate StartsWithSpace(s: string) {
    s != "" && IsWhitespace(s[0])
  }

  /** No reference in the text has anything to say. */
  predicate Unreferenced(nodes: seq<Node>) {
    forall i :: 0 <= i < |nodes| && nodes[i].Ref? ==> Blank(Said(nodes[i]))
  }

  /** Every piece of text is parted by whitespace from the text before it. */
  predicate Parted(before: string, nodes: seq<Node>)
    decreases |nodes|
  {
    nodes == []
    || ((nodes[0].Chars? && !Blank(before) && !Blank(nodes[0].text) ==>
           EndsInSpace(before) || StartsWithSpace(nodes[0].text))
        && Parted(before + Said(nodes[0]), nodes[1..]))
  }

  lemma BlankConcat(a: string, b: string)
    ensures Blank(a + b) <==> Blank(a) && Blank(b)
  {
    if Blank(a + b) {
      assert forall i :: 0 <= i < |a| ==> a[i] == (a + b)[i];
      assert forall i :: 0 <= i < |b| ==> b[i] == (a + b)[|a| + i];
    }
  }

  lemma {:induction false} PendingAtEnd(s: string)
    requires !Blank(s)
    ensures Scan(START, s).pending <==> EndsInSpace(s)
  {
    var n := |s| - 1;
    ScanConcat(START, s[..n], [s[n]]);
    assert s == s[..n] + [s[n]];
    var p := Scan(START, s[..n]);
    assert [s[n]][1..] == "" && Scan(p, [s[n]]) == p.Feed(s[n]);
    CollapsedConcat(s[..n], [s[n]]);
    BlankConcat(s[..n], [s[n]]);
  }

  /** Words are lost to references, and only to them. */
  lemma {:induction false} SpokenSqueezes(text: string, data: string, nodes: seq<Node>)
    requires NoElement(nodes) && |Generic.Squeeze(text)| <= |Generic.Squeeze(data)|
    ensures var after, all := Generic.Squeeze(Spoken(text, nodes, true)), Generic.Squeeze(data + Data(nodes));
      && |after| <= |all|
      && (|after| == |all| <==> |Generic.Squeeze(text)| == |Generic.Squeeze(data)| && Unreferenced(nodes))
    decreases |nodes|
  {
    if nodes == [] {
      assert data + "" == data;
    } else {
      var said := Said(nodes[0]);
      SqueezedMore(text, nodes[0]);
      Generic.SqueezeConcat(data, said);
      SqueezedIsBlank(said);
      SpokenSqueezes(SpokenIn(text, nodes[0], true), data + said, nodes[1..]);
      Assoc(data, said, Data(nodes[1..]));
      assert Unreferenced(nodes) <==> (nodes[0].Ref? ==> Blank(said)) && Unreferenced(nodes[1..]) by {
        assert forall i :: 1 <= i < |nodes| ==> nodes[i] == nodes[1..][i - 1];
        assert forall i :: 0 <= i < |nodes[1..]| ==> nodes[1..][i] == nodes[i + 1];
      }
    }
  }

  lemma SqueezedMore(text: string, node: Node)
    requires !node.Elem?
    ensures |Generic.Squeeze(SpokenIn(text, node, true))| ==
      |Generic.Squeeze(text)| + if node.Chars? then |Generic.Squeeze(Said(node))| else 0
  {
    if node.Chars? {
      var words := Collapsed(node.text);
      Generic.BlankSqueezes(node.text);
      var space := if text == "" then "" else " ";
      assert Generic.Squeeze(" ") == "" + Generic.Squeeze(" "[1..]);
      Generic.SqueezeConcat(text, space);
      Generic.SqueezeConcat(text + space, words);
      assert text + space + words == text + space + words;
    }
  }

  /** With nothing lost, every piece that touches the text before it costs one space
      too many. */
  lemma {:induction false} SpokenSpaces(text: string, data: string, nodes: seq<Node>)
    requires NoElement(nodes) && Unreferenced(nodes)
    requires |text| >= |Collapsed(data)| && (text == "" <==> Blank(data))
    ensures var after, all := Spoken(text, nodes, true), Collapsed(data + Data(nodes));
      |after| >= |all| && (|after| == |all| <==> |text| == |Collapsed(data)| && Parted(data, nodes))
    ensures text == Collapsed(data) && Parted(data, nodes) ==>
      Spoken(text, nodes, true) == Collapsed(data + Data(nodes))
    decreases |nodes|
  {
    if nodes == [] {
      assert data + "" == data;
    } else {
      var said, rest := Said(nodes[0]), nodes[1..];
      assert forall i :: 0 <= i < |rest| ==> rest[i] == nodes[i + 1];
      OneMorePiece(text, data, nodes[0]);
      SpokenSpaces(SpokenIn(text, nodes[0], true), data + said, rest);
      Assoc(data, said, Data(rest));
    }
  }

  lemma OneMorePiece(text: string, data: string, node: Node)
    requires !node.Elem? && (node.Ref? ==> Blank(Said(node)))
    requires |text| >= |Collapsed(data)| && (text == "" <==> Blank(data))
    ensures var after, all := SpokenIn(text, node, true), Collapsed(data + Said(node));
      && |after| >= |all| && (after == "" <==> Blank(data + Said(node)))
      && (|after| == |all| <==> |text| == |Collapsed(data)| && Parted(data, [node]))
      && (text == Collapsed(data) && Parted(data, [node]) ==> after == all)
  {
    var said := Said(node);
    assert [node][1..] == [] && Parted(data + said, []);
    CollapsedConcat(data, said);
    CollapsedConcat(said, "");
    BlankConcat(data, said);
    if !Blank(data) {
      PendingAtEnd(data);
    }
  }

  /** A record with no child element flattens to the collapse of what it says exactly
      when no reference in it says anything and every piece of text is parted by
      whitespace from the text before it. */
  lemma RecordTextIsContent(kids: seq<Node>)
    requires NoElement(kids)
    ensures TreeOf(Heard(StepsOf(kids))).text == Collapsed(Data(kids)) <==> Unreferenced(kids) && Parted("", kids)
  {
    NoElements(kids);
    MetaIsReading(kids);
    assert "" + Data(kids) == Data(kids);
    SpokenSqueezes("", "", kids);
    Generic.BlankSqueezes(Data(kids));
    if Unreferenced(kids) {
      SpokenSpaces("", "", kids);
    }
  }

  lemma {:induction false} NoElements(nodes: seq<Node>)
    requires NoElement(nodes)
    ensures Elements(nodes) == 0
    decreases |nodes|
  {
    if nodes != [] {
      NoElements(nodes[1..]);
    }
  }

  /** An entry that writes AT&T with a reference to the ampersand is kept as AT T. */
  lemma ReferencePartsWords()
    ensures var kids := [Chars("AT", false), Ref("amp", Some("&")), Chars("T", false)];
      TreeOf(Heard(StepsOf(kids))).text == "AT T" && Data(kids) == "AT&T"
  {
    var kids := [Chars("AT", false), Ref("amp", Some("&")), Chars("T", false)];
    var two, one := kids[1..], kids[2..];
    assert two[1..] == one == [kids[2]] && one[1..] == [];
    NoElements(kids);
    MetaIsReading(kids);
    SpokenParts(kids, two, one);
    assert Data(one) == "T" && Data(two) == "&T" && Data(kids) == "AT&T";
  }

  lemma SpokenParts(kids: seq<Node>, two: seq<Node>, one: seq<Node>)
    requires kids == [Chars("AT", false), Ref("amp", Some("&")), Chars("T", false)]
    requires two == kids[1..] && one == kids[2..] && two[1..] == one && one[1..] == []
    ensures Spoken("", kids, true) == "AT T"
  {
    CollapsedIdempotentAt("AT");
    CollapsedIdempotentAt("T");
    assert SpokenIn("", kids[0], true) == "AT" && SpokenIn("AT", kids[1], true) == "AT";
    assert SpokenIn("AT", kids[2], true) == "AT T";
    assert Spoken("AT", one, true) == Spoken("AT T", [], true);
    assert Spoken("AT", two, true) == Spoken("AT", one, true);
  }

  lemma CollapsedIdempotentAt(w: string)
    requires forall i :: 0 <= i < |w| ==> !IsWhitespace(w[i])
    ensures Collapsed(w) == w
  {
    ScanWord(START, w);
    assert START.out + w == w;
  }

  // ------------------------------------------------------------ the leaves of a record

  /** The leaves that have text. */
  function WithText(leaves: seq<Leaf>): seq<Leaf> {
    if leaves == [] then [] else (if leaves[0].text == "" then [] else [leaves[0]]) + WithText(leaves[1..])
  }

  /** Looking a name up among all leaves, and not among those with text alone, differs
      exactly when the first leaf of that name is empty. */
  lemma {:induction false} LeafWithText(leaves: seq<Leaf>, local: string)
    ensures LeafText(leaves, local) == LeafText(WithText(leaves), local) <==> LeafText(leaves, local) != Some("")
    ensures LeafText(WithText(leaves), local) != Some("")
    decreases |leaves|
  {
    if leaves != [] {
      LeafWithText(leaves[1..], local);
      if leaves[0].text == "" {
        assert WithText(leaves) == WithText(leaves[1..]);
      } else {
        assert WithText(leaves)[1..] == WithText(leaves[1..]);
      }
    }
  }

  /** An empty sequence element hides the number in the one after it. */
  lemma EmptySequenceHidesNumber(e: Element, s: Element, text: string)
    requires e.Get("num").None? && s.local == "sequence"
    ensures CitationOrdinal(e, MetaTree([Leaf(s, ""), Leaf(s, "3")], text)) == None
    ensures CitationOrdinal(e, MetaTree(WithText([Leaf(s, ""), Leaf(s, "3")]), text)) == Some(3)
  {
    var leaves := [Leaf(s, ""), Leaf(s, "3")];
    assert leaves[1..] == [Leaf(s, "3")] && leaves[1..][1..] == [];
    assert WithText(leaves[1..]) == [leaves[1..][0]] + WithText([]);
    assert WithText(leaves) == [] + WithText(leaves[1..]);
    assert ParseUnsigned("", U64_MAX) == None;
    assert "3"[..0] == "" && DigitsValue("3") == DigitsValue("") * 10 + 3;
    assert ParseUnsigned("3", U64_MAX) == Some(3);
    assert LeafText(leaves, "sequence") == Some("");
    assert LeafText(leaves[1..], "sequence") == Some(leaves[1..][0].text);
  }

  // ------------------------------------------------------------- the number of a citation

  lemma {:induction false} DigitsInConcat(a: string, b: string)
    ensures DigitsIn(a + b) == DigitsIn(a) + DigitsIn(b)
    decreases |a|
  {
    if a == "" {
      assert a + b == b;
    } else {
      assert (a + b)[0] == a[0] && (a + b)[1..] == a[1..] + b;
      DigitsInConcat(a[1..], b);
      Assoc(if IsDigit(a[0]) then [a[0]] else "", DigitsIn(a[1..]), DigitsIn(b));
    }
  }

  lemma {:induction false} DigitsInOnly(s: string)
    ensures AllDigits(s) ==> DigitsIn(s) == s
    ensures (forall i :: 0 <= i < |s| ==> !IsDigit(s[i])) ==> DigitsIn(s) == ""
    decreases |s|
  {
    if s != "" {
      DigitsInOnly(s[1..]);
      assert s == [s[0]] + s[1..];
    }
  }

  /** No digit at all. */
  predicate Digitless(s: string) {
    forall i :: 0 <= i < |s| ==> !IsDigit(s[i])
  }

  lemma DigitsInside(before: string, digits: string, after: string)
    requires Digitless(before) && AllDigits(digits) && Digitless(after)
    ensures DigitsIn(before + digits + after) == digits
  {
    DigitsInConcat(before + digits, after);
    DigitsInConcat(before, digits);
    DigitsInOnly(before);
    DigitsInOnly(digits);
    DigitsInOnly(after);
  }

  /** A cited reference whose num attribute is a number with anything but digits around
      it has that number, whatever else it holds. */
  lemma NumIsNumber(e: Element, tree: MetaTree, before: string, n: nat, after: string)
    requires e.Get("num") == Some(before + Digits(n) + after) && n <= 0xFFFF_FFFF_FFFF_FFFF
    requires Digitless(before) && Digitless(after)
    ensures CitationOrdinal(e, tree) == Some(n)
  {
    hide DigitsIn, Digits, ParseUnsigned, LeafText;
    DigitsInside(before, Digits(n), after);
    ParseOfDigits(n, U64_MAX);
  }

  /** Without a digit in that attribute it has the number its first sequence element
      states, and none when there is no such element or it states none. */
  lemma SequenceIsNumber(e: Element, tree: MetaTree, n: nat)
    requires e.Get("num") == None || Digitless(e.Get("num").value)
    ensures CitationOrdinal(e, tree) == Some(n) <==>
      var text := LeafText(tree.leaves, "sequence");
      text.Some? && Writes(text.value, n) && n <= 0xFFFF_FFFF_FFFF_FFFF
  {
    if e.Get("num").Some? {
      DigitsInOnly(e.Get("num").value);
    }
    var text := LeafText(tree.leaves, "sequence");
    if text.Some? {
      ParseIsReading(text.value, n, U64_MAX);
    }
  }
}
