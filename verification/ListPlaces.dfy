/** Where the pass says a list item sits, read off the tree: inside how many of the
    dialect's list containers, and the kind of the innermost. */
module ListPlaces {
  import opened Basics
  import opened Wrappers
  import opened Collapse
  import opened Xml
  import opened Flatten
  import opened Stream
  import opened StreamBalance
  import opened StreamFaults
  import opened StreamModes
  import opened StreamText
  import opened TreeReading
  import Document

  /** A captured list item: its element, the number of list containers around it, and
      whether the innermost is ordered. */
  datatype Listed = Listed(element: Element, around: nat, ordered: bool)

  /** The list containers an element is, none or one: only one the dialect descends into
      counts. */
  function ContainerOf(rules: Rules, open: seq<string>, e: Element): seq<bool> {
    var kind := rules.listContainer(open, e);
    if rules.xbrl || rules.action(open, e) != Descend || kind == None then [] else [kind.value]
  }

  /** The captured list items of content under these list containers, in document order:
      those with some text in at least one container. */
  function ListItemsIn(rules: Rules, open: seq<string>, around: seq<bool>, nodes: seq<Node>): seq<Listed>
    decreases nodes
  {
    if nodes == [] then []
    else ListItemsOf(rules, open, around, nodes[0]) + ListItemsIn(rules, open, around, nodes[1..])
  }

  function ListItemsOf(rules: Rules, open: seq<string>, around: seq<bool>, node: Node): seq<Listed>
    decreases node
  {
    if !node.Elem? then []
    else
      var e := node.element;
      if AttentionTo(rules, Deciding, open, e) == Deciding then
        ListItemsIn(rules, open + [e.local], around + ContainerOf(rules, open, e), node.kids)
      else if IsListItem(rules, open, e) && around != [] && !Blank(Spaced(node.kids, false).0) then
        [Listed(e, |around|, around[|around| - 1])]
      else []
  }

  /** The dialect captures the element as a list item. */
  predicate IsListItem(rules: Rules, open: seq<string>, e: Element) {
    && !rules.xbrl && !(rules.islands && e.namespace == NS_XHTML)
    && rules.action(open, e).Capture? && rules.action(open, e).spec.kind == Document.ListItem
  }

  /** The items that were sent with a place in a list. */
  function ListedIn(out: seq<Event>): seq<Listed> {
    if out == [] then [] else ListedIn(out[..|out| - 1]) + ListedBy(out[|out| - 1])
  }

  function ListedBy(e: Event): seq<Listed> {
    if e.Item? && e.item.list != None then [Listed(e.item.element, e.item.list.value.depth, e.item.list.value.ordered)]
    else []
  }

  // --------------------------------------------------------------------------- the proof

  /** The kinds of the open list containers, root first. */
  function Kinds(stack: seq<Frame>): seq<bool> {
    if stack == [] then []
    else
      var list := stack[|stack| - 1].list;
      Kinds(stack[..|stack| - 1]) + if list.None? then [] else [list.value]
  }

  lemma {:induction false} OpenListIs(stack: seq<Frame>)
    ensures var kinds := Kinds(stack);
      OpenList(stack) == if kinds == [] then None else Some(ListPlacement(|kinds|, kinds[|kinds| - 1]))
    decreases |stack|
  {
    if stack != [] {
      OpenListIs(stack[..|stack| - 1]);
    }
  }

  lemma KindsSnoc(stack: seq<Frame>, f: Frame)
    ensures Kinds(stack + [f]) == Kinds(stack) + if f.list.None? then [] else [f.list.value]
  {
    assert (stack + [f])[..|stack|] == stack;
  }

  /** Only what an element's own text is differs. */
  predicate SameFrames(a: seq<Frame>, b: seq<Frame>) {
    |a| == |b| && forall i :: 0 <= i < |a| ==> b[i].local == a[i].local && b[i].list == a[i].list
  }

  lemma {:induction false} SameKinds(a: seq<Frame>, b: seq<Frame>)
    requires SameFrames(a, b)
    ensures Kinds(a) == Kinds(b) && Locals(a) == Locals(b)
    decreases |a|
  {
    if a != [] {
      SameKinds(a[..|a| - 1], b[..|b| - 1]);
    }
  }

  lemma ListedSnoc(out: seq<Event>, e: Event)
    ensures ListedIn(out + [e]) == ListedIn(out) + ListedBy(e)
  {
    assert (out + [e])[..|out|] == out;
  }

  /** Nothing listed is among these events. */
  predicate Unlisted(events: seq<Event>) {
    forall i :: 0 <= i < |events| ==> ListedBy(events[i]) == []
  }

  lemma {:induction false} UnlistedAdds(out: seq<Event>, more: seq<Event>)
    requires Unlisted(more)
    ensures ListedIn(out + more) == ListedIn(out)
    decreases |more|
  {
    if more == [] {
      assert out + more == out;
    } else {
      var n := |more| - 1;
      UnlistedAdds(out, more[..n]);
      Assoc(out, more[..n], [more[n]]);
      assert more == more[..n] + [more[n]];
      ListedSnoc(out + more[..n], more[n]);
    }
  }

  /** t stands where s does, and has sent nothing listed since. */
  predicate Quiet(s: State, t: State) {
    SameFrames(s.stack, t.stack) && ListedIn(t.out) == ListedIn(s.out)
  }

  lemma FlushOwnQuiet(s: State, closing: bool)
    ensures Quiet(s, FlushOwn(s, closing))
  {
    if FlushOwn(s, closing).out != s.out {
      ListedSnoc(s.out, FlushOwn(s, closing).out[|s.out|]);
    }
  }

  lemma FlushPendingQuiet(s: State)
    ensures Quiet(s, FlushPending(s))
  {
    if s.pending.Some? {
      ListedSnoc(s.out, FlushPending(s).out[|s.out|]);
    }
  }

  lemma AppendOwnQuiet(s: State, text: string, cdata: bool)
    ensures Quiet(s, AppendOwn(s, text, cdata))
  {
  }

  /** The frame an element opens with, and what was sent until then. */
  lemma DescendedIs(rules: Rules, s: State, e: Element)
    requires AttentionTo(rules, Deciding, s.Open(), e) == Deciding
    ensures var d := Descended(rules, s, e);
      && d.Open() == s.Open() + [e.local]
      && Kinds(d.stack) == Kinds(s.stack) + ContainerOf(rules, s.Open(), e)
      && ListedIn(d.out) == ListedIn(s.out)
      && |d.stack| == |s.stack| + 1 && SameFrames(s.stack, d.stack[..|s.stack|])
  {
    hide FlushOwn, AttributeItem, ListedIn, OwnTextFor;
    var c := CountElement(s);
    if rules.xbrl {
      OneFrameMore(s, c, Descended(rules, s, e), Frame(e.local, None, None));
    } else {
      var t, action := FlushOwn(c, false), rules.action(s.Open(), e);
      FlushOwnQuiet(c, false);
      SameKinds(s.stack, t.stack);
      if action.AttrText? {
        AttributeItemUnlisted(rules, t, action, e);
        OneFrameMore(s, t, Descended(rules, s, e), Frame(e.local, None, None));
      } else {
        var f := Frame(e.local, rules.listContainer(s.Open(), e), OwnTextFor(rules, s.Open(), e));
        OneFrameMore(s, t, Descended(rules, s, e), f);
      }
    }
  }

  lemma OneFrameMore(s: State, t: State, d: State, f: Frame)
    requires Quiet(s, t) && d.stack == t.stack + [f] && ListedIn(d.out) == ListedIn(t.out)
    ensures d.Open() == s.Open() + [f.local] && ListedIn(d.out) == ListedIn(s.out)
    ensures Kinds(d.stack) == Kinds(s.stack) + if f.list.None? then [] else [f.list.value]
    ensures |d.stack| == |s.stack| + 1 && SameFrames(s.stack, d.stack[..|s.stack|])
  {
    SameKinds(s.stack, t.stack);
    KindsSnoc(t.stack, f);
    assert d.stack[..|s.stack|] == t.stack;
  }

  lemma AttributeItemUnlisted(rules: Rules, t: State, a: Action, e: Element)
    requires a.AttrText?
    ensures var d := AttributeItem(rules, t, a.kind, a.role, a.attr, e);
      d.stack == t.stack + [Frame(e.local, None, None)] && ListedIn(d.out) == ListedIn(t.out)
  {
    var p := Push(t, e);
    var u := if rules.doclang && a.kind.Picture? then FlushPending(p) else p;
    FlushPendingQuiet(p);
    var d := AttributeItem(rules, t, a.kind, a.role, a.attr, e);
    if d.out != u.out {
      ListedSnoc(u.out, d.out[|u.out|]);
    }
  }

  lemma LeaveIs(s: State)
    requires s.stack != []
    ensures SameFrames(s.stack[..|s.stack| - 1], Leave(s).stack) && ListedIn(Leave(s).out) == ListedIn(s.out)
  {
    hide ListedIn, FlushOwn, FlushPending;
    var c := UncountElement(s);
    var t := if c.pending.Some? && |c.stack| == c.pending.value.wrapperDepth then FlushPending(c) else c;
    FlushPendingQuiet(c);
    FlushOwnQuiet(t, true);
  }

  lemma {:induction false} RowsUnlisted(rules: Rules, t: TableBuild, open: seq<string>, nodes: seq<Node>)
    ensures Unlisted(ReadRows(rules, t, open, nodes).1)
    decreases nodes, 0
  {
    if nodes != [] {
      RowsUnlistedIn(rules, t, open, nodes[0]);
      RowsUnlisted(rules, ReadRowsIn(rules, t, open, nodes[0]).0, open, nodes[1..]);
    }
  }

  lemma {:induction false} RowsUnlistedIn(rules: Rules, t: TableBuild, open: seq<string>, node: Node)
    ensures Unlisted(ReadRowsIn(rules, t, open, node).1)
    decreases node, 0
  {
    if node.Elem? && node.element.local !in CELL_ELEMENTS {
      RowsUnlisted(rules, Entered(t, node.element), open + [node.element.local], node.kids);
    }
  }

  lemma TableQuiet(rules: Rules, s: State, e: Element, kids: seq<Node>)
    ensures Quiet(s, ReadTable(rules, s, e, kids))
  {
    var (t, rows) := ReadRows(rules, EmptyTable(s), s.Open() + [e.local], kids);
    RowsUnlisted(rules, EmptyTable(s), s.Open() + [e.local], kids);
    TableSentQuiet(s, e, rows, t);
  }

  lemma TableSentQuiet(s: State, e: Element, rows: seq<Event>, t: TableBuild)
    requires Unlisted(rows)
    ensures Quiet(s, TableSent(s, e, rows, t))
  {
    hide ListedIn;
    var n := s.counts.tables + 1;
    var start := TableStart(s.index, n, if s.pending.Some? then Some(s.pending.value.text) else None, e);
    var end := TableEnd(n, t.rowIndex, t.columnCount, t.columns);
    ListedSnoc(s.out, start);
    UnlistedAdds(s.out + [start], rows);
    ListedSnoc(s.out + [start] + rows, end);
  }

  lemma CaptionQuiet(rules: Rules, s: State, e: Element, kids: seq<Node>)
    ensures Quiet(s, ReadCaption(rules, s, e, kids))
  {
    FlushPendingQuiet(s);
  }

  lemma RecordQuiet(s: State, kind: Records.RecordKind, e: Element, kids: seq<Node>)
    ensures Quiet(s, ReadRecord(s, kind, e, kids))
  {
    UnlistedAdds(s.out, ReadRecord(s, kind, e, kids).out[|s.out|..]);
  }

  lemma IslandQuiet(s: State, e: Element, kids: seq<Node>)
    ensures Quiet(s, ReadIsland(s, e, kids))
  {
    ListedSnoc(s.out, ReadIsland(s, e, kids).out[|s.out|]);
  }

  lemma WholeQuiet(s: State, e: Element, kids: seq<Node>)
    ensures Quiet(s, ReadWhole(s, e, kids))
  {
    match Records.ReadingOf(e)
    case ReadFact => ListedSnoc(s.out, ReadWhole(s, e, kids).out[|s.out|]);
    case ReadRecord(kind) => RecordQuiet(Counted(s, 1 + Tallied(kind, kids)), kind, e, kids);
    case _ =>
  }

  /** The text of a capture is blank exactly when its content is. */
  lemma CaptureText(rules: Rules, open: seq<string>, kids: seq<Node>)
    ensures TextOf(rules, open, kids).0 == "" <==> Blank(Spaced(kids, false).0)
  {
    FinishedSays(open, kids, rules);
    BlankScan(Spaced(kids, false).0);
  }

  lemma CaptureListed(rules: Rules, s: State, e: Element, kids: seq<Node>, spec: Spec, around: seq<bool>)
    requires Kinds(s.stack) == around
    ensures var t := ReadCapture(rules, s, e, kids, spec);
      && t.stack == s.stack
      && ListedIn(t.out) == ListedIn(s.out) +
           if spec.kind == Document.ListItem && around != [] && !Blank(Spaced(kids, false).0)
           then [Listed(e, |around|, around[|around| - 1])] else []
  {
    hide TextOf, Spaced, Blank, OpenList, Kinds;
    CaptureText(rules, s.Open() + [e.local], kids);
    var stack := s.stack + [Frame(e.local, None, None)];
    KindsSnoc(s.stack, Frame(e.local, None, None));
    OpenListIs(stack);
    var t := ReadCapture(rules, s, e, kids, spec);
    if t.out != s.out {
      ListedSnoc(s.out, t.out[|s.out|]);
    }
  }

  lemma MappedListed(rules: Rules, s: State, e: Element, kids: seq<Node>, around: seq<bool>)
    requires !rules.xbrl && AttentionTo(rules, Deciding, s.Open(), e) != Deciding && Kinds(s.stack) == around
    ensures var t := ReadMapped(rules, s, e, kids);
      && SameFrames(s.stack, t.stack)
      && ListedIn(t.out) == ListedIn(s.out) + ListItemsOf(rules, s.Open(), around, Elem(e, kids))
  {
    hide ReadTable, ReadCaption, ReadRecord, ReadCapture, ReadIsland, ListedIn, Spaced, Blank, Elements;
    var all, action := Counted(s, 1 + Elements(kids)), rules.action(s.Open(), e);
    assert ListedIn(s.out) + [] == ListedIn(s.out);
    if rules.islands && e.namespace == NS_XHTML {
      IslandQuiet(all, e, kids);
    } else if action.Table? {
      TableQuiet(rules, all, e, kids);
    } else if action.Caption? {
      CaptionQuiet(rules, all, e, kids);
    } else if action.Capture? {
      CaptureListed(rules, all, e, kids, action.spec, around);
    } else if action.Meta? && rules.metadata {
      var kind := Records.MetaRecord(action.shape);
      RecordQuiet(Counted(s, 1 + Tallied(kind, kids)), kind, e, kids);
    }
  }

  /** The state stands under these open elements and list containers. */
  predicate Under(s: State, open: seq<string>, around: seq<bool>) {
    s.Open() == open && Kinds(s.stack) == around
  }

  lemma {:induction false} ContentListed(
    rules: Rules, s: State, open: seq<string>, around: seq<bool>, nodes: seq<Node>)
    requires Under(s, open, around)
    ensures var t := ReadAll(rules, s, nodes);
      && SameFrames(s.stack, t.stack)
      && ListedIn(t.out) == ListedIn(s.out) + ListItemsIn(rules, open, around, nodes)
    decreases nodes, 0
  {
    if nodes == [] {
      assert ListedIn(s.out) + [] == ListedIn(s.out);
    } else {
      var t := ReadNode(rules, s, nodes[0]);
      NodeListed(rules, s, open, around, nodes[0]);
      SameKinds(s.stack, t.stack);
      ContentListed(rules, t, open, around, nodes[1..]);
      Assoc(ListedIn(s.out), ListItemsOf(rules, open, around, nodes[0]), ListItemsIn(rules, open, around, nodes[1..]));
    }
  }

  lemma {:induction false} NodeListed(rules: Rules, s: State, open: seq<string>, around: seq<bool>, node: Node)
    requires Under(s, open, around)
    ensures var t := ReadNode(rules, s, node);
      && SameFrames(s.stack, t.stack)
      && ListedIn(t.out) == ListedIn(s.out) + ListItemsOf(rules, open, around, node)
    decreases node, 0
  {
    assert ListedIn(s.out) + [] == ListedIn(s.out);
    match node
    case Chars(text, cdata) => AppendOwnQuiet(s, text, cdata);
    case Ref(name, resolved) => AppendOwnQuiet(s, ReferenceText(name, resolved), false);
    case Elem(e, kids) => ElementListed(rules, s, open, around, e, kids);
    case _ =>
  }

  lemma {:induction false} ElementListed(
    rules: Rules, s: State, open: seq<string>, around: seq<bool>, e: Element, kids: seq<Node>)
    requires Under(s, open, around)
    ensures var t := ReadElement(rules, s, e, kids);
      && SameFrames(s.stack, t.stack)
      && ListedIn(t.out) == ListedIn(s.out) + ListItemsOf(rules, open, around, Elem(e, kids))
    decreases kids, 1
  {
    if AttentionTo(rules, Deciding, open, e) == Deciding {
      var d := Descended(rules, s, e);
      DescendedIs(rules, s, e);
      ContentListed(rules, d, open + [e.local], around + ContainerOf(rules, open, e), kids);
      LeaveIs(ReadAll(rules, d, kids));
    } else if rules.xbrl {
      WholeQuiet(s, e, kids);
      assert ListedIn(s.out) + [] == ListedIn(s.out);
    } else {
      var t := FlushOwn(s, false);
      FlushOwnQuiet(s, false);
      SameKinds(s.stack, t.stack);
      MappedListed(rules, t, e, kids, around);
    }
  }

  /** The items a run over a document without a fault sends with a place in a list are
      exactly the captured list items of its tree that hold text in some list container,
      in document order, each with the number of list containers around it and the kind
      of the innermost. */
  lemma ListItemsArePlaced(rules: Rules, root: Element, kids: seq<Node>)
    requires Sane(rules) && FaultIn(rules, Deciding, [root.local], 1, kids).None?
    ensures ListedIn(Parse(rules, root, StepsOf(kids) + [End]).out) == ListItemsIn(rules, [root.local], [], kids)
  {
    var b := Begin(rules, root);
    hide Leave, ReadAll, ListedIn, ListItemsIn, Parse;
    RunIsReading(rules, root, kids);
    BeginsUnder(rules, root);
    ContentListed(rules, b, [root.local], [], kids);
    LeaveIs(ReadAll(rules, b, kids));
    FinishUnlisted(Leave(ReadAll(rules, b, kids)));
    assert [] + ListItemsIn(rules, [root.local], [], kids) == ListItemsIn(rules, [root.local], [], kids);
  }

  lemma FinishUnlisted(s: State)
    ensures ListedIn(Finish(s).out) == ListedIn(s.out)
  {
    ListedSnoc(s.out, Status(s.counts));
  }

  lemma BeginsUnder(rules: Rules, root: Element)
    ensures var b := Begin(rules, root); Under(b, [root.local], []) && ListedIn(b.out) == []
  {
    var b := Begin(rules, root);
    assert b.stack[..0] == [] && b.out[..0] == [];
    assert Kinds([]) == [];
  }
}
