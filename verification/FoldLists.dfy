/** List grouping is exact: which list items share a group is a fact about the
    stream between them. */
module FoldLists {
  import opened Wrappers
  import opened Document
  import opened Grid
  import opened Fold
  import opened FoldHeadings

  predicate IsListItem(e: Event) {
    e.Text? && e.item.kind.ListItem?
  }

  /** Body content that is no list item: it ends every open list. */
  predicate Interrupts(e: Event) {
    match e
    case Text(item) => item.kind !in {PageHeader, PageFooter, ListItem}
    case TableStart(_, _, _) => true
    case Fact(_, _) => true
    case HtmlIsland(_) => true
    case Citation(text, _, _) => text != ""
    case Footnote(text, _) => text != ""
    case _ => false
  }

  /** An event that ends a list of this depth and kind: interrupting content, or a
      list item that is shallower, or as deep and of the other kind. */
  predicate Breaks(e: Event, depth: nat, ordered: bool) {
    || Interrupts(e)
    || (IsListItem(e) && (e.item.Depth() < depth || (e.item.Depth() == depth && e.item.Ordered() != ordered)))
  }

  // ----------------------------------------------------- the lists, seen on their own

  predicate Opens(kept: seq<OpenList>, depth: nat) {
    kept == [] || kept[|kept| - 1].depth < depth
  }

  function OpenFor(kept: seq<OpenList>, depth: nat, ordered: bool, groups: nat): (r: seq<OpenList>)
    ensures r != []
  {
    if Opens(kept, depth) then kept + [OpenList(depth, ordered, Groups(groups))] else kept
  }

  /** The open lists once an item of this depth and kind has its group, which is
      their last; a group it opens is the next in its arena. */
  function ListsFor(lists: seq<OpenList>, depth: nat, ordered: bool, groups: nat): (r: seq<OpenList>)
    ensures r != []
  {
    OpenFor(CloseLists(lists, depth, ordered), depth, ordered, groups)
  }

  function GroupsFor(lists: seq<OpenList>, depth: nat, ordered: bool, groups: nat): nat {
    if Opens(CloseLists(lists, depth, ordered), depth) then groups + 1 else groups
  }

  lemma EnsureListIs(f: State, depth: nat, ordered: bool)
    ensures var g := EnsureList(f, depth, ordered);
      && g.lists == ListsFor(f.lists, depth, ordered, |f.doc.groups|)
      && |g.doc.groups| == GroupsFor(f.lists, depth, ordered, |f.doc.groups|)
  {
  }

  /** The open lists after an event. */
  function Next(lists: seq<OpenList>, groups: nat, e: Event): seq<OpenList> {
    if Interrupts(e) then []
    else if IsListItem(e) then ListsFor(lists, e.item.Depth(), e.item.Ordered(), groups)
    else lists
  }

  /** How many groups there are after an event, at least. */
  predicate Grown(lists: seq<OpenList>, groups: nat, e: Event, groups': nat) {
    && groups <= groups'
    && (IsListItem(e) ==> groups' == GroupsFor(lists, e.item.Depth(), e.item.Ordered(), groups))
  }

  lemma ListsAfter(f: State, e: Event)
    ensures Consume(f, e).lists == Next(f.lists, |f.doc.groups|, e)
    ensures Grown(f.lists, |f.doc.groups|, e, |Consume(f, e).doc.groups|)
  {
    if e.Text? {
      if !e.item.kind.Picture? {
        PushTextLists(f, e.item);
      }
    } else if e.TableStart? {
      TableStartLists(f, e.tableRef, e.caption, e.elementId);
    } else if e.Fact? {
      FactLists(f, e.columns, e.dimensions);
    } else if e.Citation? {
      PushTextLists(f, CitationText(e.text, e.ordinal, e.elementId));
    } else if e.Footnote? {
      PushTextLists(f, FootnoteText(e.text, e.name));
    } else if e.HtmlIsland? {
      IslandLists(f, e.text);
    }
  }

  lemma TableStartLists(f: State, tableRef: string, caption: Option<string>, elementId: Option<string>)
    ensures OnTableStart(f, tableRef, caption, elementId).lists == []
    ensures |OnTableStart(f, tableRef, caption, elementId).doc.groups| == |f.doc.groups|
  {
    var g := FinishTable(f.(lists := []));
    if caption.Some? {
      PushTextLists(g, CaptionText(caption.value));
    }
  }

  lemma FactLists(f: State, columns: FactColumns, dimensions: seq<(string, string)>)
    ensures OnFact(f, columns, dimensions).lists == []
    ensures |OnFact(f, columns, dimensions).doc.groups| == |f.doc.groups|
  {
  }

  lemma IslandLists(f: State, text: string)
    ensures OnHtmlIsland(f, text).lists == []
    ensures |f.doc.groups| <= |OnHtmlIsland(f, text).doc.groups|
  {
  }

  lemma PushTextLists(f: State, item: TextEvent)
    ensures !item.kind.ListItem? ==>
      |PushText(f, item).doc.groups| == |f.doc.groups|
        && PushText(f, item).lists == if item.Chrome() then f.lists else []
    ensures item.kind.ListItem? ==>
      && PushText(f, item).lists == ListsFor(f.lists, item.Depth(), item.Ordered(), |f.doc.groups|)
      && |PushText(f, item).doc.groups| == GroupsFor(f.lists, item.Depth(), item.Ordered(), |f.doc.groups|)
  {
    if item.kind.ListItem? {
      EnsureListIs(f, item.Depth(), item.Ordered());
      PlaceTextLists(EnsureList(f, item.Depth(), item.Ordered()), item);
    } else {
      PlaceTextLists(Opened(f, item), item);
    }
  }

  lemma PlaceTextLists(g: State, item: TextEvent)
    requires item.kind.ListItem? ==> g.lists != []
    ensures PlaceText(g, item).lists == g.lists && |PlaceText(g, item).doc.groups| == |g.doc.groups|
  {
  }

  // -------------------------------------------------------------------- invariant

  /** Open lists get strictly deeper, and each newer one has a newer group. */
  ghost predicate Nested(lists: seq<OpenList>, groups: nat) {
    && (forall i, j :: 0 <= i < j < |lists| ==> lists[i].depth < lists[j].depth)
    && (forall i :: 0 <= i < |lists| ==> lists[i].ref.Groups? && lists[i].ref.n < groups)
    && (forall i, j :: 0 <= i < j < |lists| ==> lists[i].ref.n < lists[j].ref.n)
  }

  lemma {:induction false} CloseListsExactly(lists: seq<OpenList>, depth: nat, ordered: bool, groups: nat)
    requires Nested(lists, groups)
    ensures CloseLists(lists, depth, ordered) <= lists
    ensures forall x :: x in CloseLists(lists, depth, ordered) <==> x in lists && !ClosedBy(x, depth, ordered)
    decreases |lists|
  {
    if lists != [] {
      var n := |lists| - 1;
      assert lists == lists[..n] + [lists[n]];
      if ClosedBy(lists[n], depth, ordered) {
        CloseListsExactly(lists[..n], depth, ordered, groups);
      } else {
        forall x | x in lists ensures !ClosedBy(x, depth, ordered) {
          var i :| 0 <= i < |lists| && lists[i] == x;
        }
      }
    }
  }

  /** A list item's group is the innermost open list, of exactly its depth and
      kind; every other list it leaves open was open before and is shallower. */
  lemma ListsForExactly(lists: seq<OpenList>, depth: nat, ordered: bool, groups: nat)
    requires Nested(lists, groups)
    ensures var r := ListsFor(lists, depth, ordered, groups);
      && Nested(r, GroupsFor(lists, depth, ordered, groups))
      && r[|r| - 1].depth == depth && r[|r| - 1].ordered == ordered
      && (forall x :: x in lists && !ClosedBy(x, depth, ordered) ==> x in r)
      && (forall x :: x in r ==> (x in lists && !ClosedBy(x, depth, ordered)) || x.ref == Groups(groups))
  {
    CloseListsExactly(lists, depth, ordered, groups);
    KeptExactly(CloseLists(lists, depth, ordered), lists, depth, ordered, groups);
  }

  lemma KeptExactly(kept: seq<OpenList>, lists: seq<OpenList>, depth: nat, ordered: bool, groups: nat)
    requires Nested(lists, groups) && kept <= lists
    requires forall x :: x in kept <==> x in lists && !ClosedBy(x, depth, ordered)
    ensures var r := OpenFor(kept, depth, ordered, groups);
      && Nested(r, if Opens(kept, depth) then groups + 1 else groups)
      && r[|r| - 1].depth == depth && r[|r| - 1].ordered == ordered
      && (forall x :: x in lists && !ClosedBy(x, depth, ordered) ==> x in r)
      && (forall x :: x in r ==> (x in lists && !ClosedBy(x, depth, ordered)) || x.ref == Groups(groups))
  {
    if Opens(kept, depth) {
      AppendNested(kept, depth, ordered, groups);
    } else {
      assert kept[|kept| - 1] in kept;
    }
  }

  lemma AppendNested(lists: seq<OpenList>, depth: nat, ordered: bool, groups: nat)
    requires Nested(lists, groups) && (lists == [] || lists[|lists| - 1].depth < depth)
    ensures Nested(lists + [OpenList(depth, ordered, Groups(groups))], groups + 1)
  {
  }

  lemma NextNested(lists: seq<OpenList>, groups: nat, e: Event, groups': nat)
    requires Nested(lists, groups) && Grown(lists, groups, e, groups')
    ensures Nested(Next(lists, groups, e), groups')
  {
    if IsListItem(e) && !Interrupts(e) {
      ListsForExactly(lists, e.item.Depth(), e.item.Ordered(), groups);
    }
  }

  /** Open lists have strictly increasing depths, whatever the events. */
  lemma {:induction false} FoldAllNested(events: seq<Event>)
    ensures Nested(FoldAll(events).lists, |FoldAll(events).doc.groups|)
    decreases |events|
  {
    if events != [] {
      var f, e := FoldAll(events[..|events| - 1]), events[|events| - 1];
      FoldAllNested(events[..|events| - 1]);
      ListsAfter(f, e);
      NextNested(f.lists, |f.doc.groups|, e, |Consume(f, e).doc.groups|);
    }
  }

  // ------------------------------------------------------------ how long lists last

  /** No open list is this group's, though the group exists. */
  ghost predicate Gone(lists: seq<OpenList>, groups: nat, ref: Ref) {
    ref.Groups? && ref.n < groups && forall x :: x in lists ==> x.ref != ref
  }

  lemma RefOf(lists: seq<OpenList>, groups: nat, x: OpenList)
    requires Nested(lists, groups) && x in lists
    ensures x.ref.Groups? && x.ref.n < groups
    ensures forall y :: y in lists && y.ref == x.ref ==> y == x
  {
    var i :| 0 <= i < |lists| && lists[i] == x;
    forall y | y in lists && y != x ensures y.ref != x.ref {
      var j :| 0 <= j < |lists| && lists[j] == y;
      assert i < j || j < i;
    }
  }

  /** A list stays open until an event breaks it, and then never comes back. */
  lemma ListLasts(lists: seq<OpenList>, groups: nat, e: Event, groups': nat, x: OpenList)
    requires Nested(lists, groups) && Grown(lists, groups, e, groups') && x in lists
    ensures !Breaks(e, x.depth, x.ordered) ==> x in Next(lists, groups, e)
    ensures Breaks(e, x.depth, x.ordered) ==> Gone(Next(lists, groups, e), groups', x.ref)
  {
    RefOf(lists, groups, x);
    if IsListItem(e) && !Interrupts(e) {
      ListsForExactly(lists, e.item.Depth(), e.item.Ordered(), groups);
    }
  }

  lemma GoneForGood(lists: seq<OpenList>, groups: nat, e: Event, groups': nat, ref: Ref)
    requires Nested(lists, groups) && Grown(lists, groups, e, groups') && Gone(lists, groups, ref)
    ensures Gone(Next(lists, groups, e), groups', ref)
  {
    if IsListItem(e) && !Interrupts(e) {
      ListsForExactly(lists, e.item.Depth(), e.item.Ordered(), groups);
    }
  }

  predicate Unbroken(events: seq<Event>, i: nat, j: nat, depth: nat, ordered: bool) {
    forall k :: i <= k < j && k < |events| ==> !Breaks(events[k], depth, ordered)
  }

  /** The open lists and the number of groups before each event and at the end. */
  datatype Trace = Trace(lists: seq<seq<OpenList>>, groups: seq<nat>)
  {
    ghost predicate Of(events: seq<Event>) {
      && |lists| == |groups| == |events| + 1
      && (forall n :: 0 <= n <= |events| ==> Nested(lists[n], groups[n]))
      && (forall n :: 0 <= n < |events| ==> lists[n + 1] == Next(lists[n], groups[n], events[n]))
      && (forall n :: 0 <= n < |events| ==> Grown(lists[n], groups[n], events[n], groups[n + 1]))
    }
  }

  lemma Traced(events: seq<Event>) returns (t: Trace)
    ensures t.Of(events)
    ensures forall n :: 0 <= n <= |events| ==> t.lists[n] == FoldAll(events[..n]).lists
  {
    t := Trace(seq(|events| + 1, n requires 0 <= n <= |events| => FoldAll(events[..n]).lists),
               seq(|events| + 1, n requires 0 <= n <= |events| => |FoldAll(events[..n]).doc.groups|));
    forall n | 0 <= n <= |events| ensures Nested(t.lists[n], t.groups[n]) {
      FoldAllNested(events[..n]);
    }
    forall n | 0 <= n < |events|
      ensures t.lists[n + 1] == Next(t.lists[n], t.groups[n], events[n])
      ensures Grown(t.lists[n], t.groups[n], events[n], t.groups[n + 1])
    {
      assert events[..n + 1][..n] == events[..n];
      ListsAfter(FoldAll(events[..n]), events[n]);
    }
  }

  lemma {:induction false} ListLastsOver(t: Trace, events: seq<Event>, i: nat, j: nat, x: OpenList)
    requires t.Of(events) && i <= j <= |events| && x in t.lists[i]
    ensures if Unbroken(events, i, j, x.depth, x.ordered) then x in t.lists[j] else Gone(t.lists[j], t.groups[j], x.ref)
    decreases j - i
  {
    if i < j {
      var n := j - 1;
      ListLastsOver(t, events, i, n, x);
      assert Unbroken(events, i, j, x.depth, x.ordered) <==>
        Unbroken(events, i, n, x.depth, x.ordered) && !Breaks(events[n], x.depth, x.ordered);
      assert t.lists[n + 1] == Next(t.lists[n], t.groups[n], events[n]);
      if Unbroken(events, i, n, x.depth, x.ordered) {
        ListLasts(t.lists[n], t.groups[n], events[n], t.groups[n + 1], x);
      } else {
        GoneForGood(t.lists[n], t.groups[n], events[n], t.groups[n + 1], x.ref);
      }
    }
  }

  // -------------------------------------------------------------------- the groups

  /** The group a list item is put in is that of the innermost list it leaves. */
  lemma ListItemText(f: State, item: TextEvent)
    requires item.kind.ListItem?
    ensures |PushText(f, item).doc.texts| == |f.doc.texts| + 1
    ensures PushText(f, item).lists != []
    ensures PushText(f, item).doc.texts[|f.doc.texts|].parent
      == PushText(f, item).lists[|PushText(f, item).lists| - 1].ref
  {
    var g := EnsureList(f, item.Depth(), item.Ordered());
    EnsureListTexts(f, item.Depth(), item.Ordered());
    PlaceTextParent(g, item);
    PlaceTextLists(g, item);
  }

  lemma EnsureListTexts(f: State, depth: nat, ordered: bool)
    ensures |EnsureList(f, depth, ordered).doc.texts| == |f.doc.texts|
  {
  }

  lemma PlaceTextParent(g: State, item: TextEvent)
    requires item.kind.ListItem? && g.lists != []
    ensures |PlaceText(g, item).doc.texts| == |g.doc.texts| + 1
    ensures PlaceText(g, item).doc.texts[|g.doc.texts|].parent == g.lists[|g.lists| - 1].ref
  {
  }

  /** The group the list item at position i of the stream was put in. */
  function GroupAt(events: seq<Event>, i: nat): Ref
    requires i < |events| && IsListItem(events[i])
  {
    var f := FoldAll(events[..i]);
    ListItemText(f, events[i].item);
    PushText(f, events[i].item).doc.texts[|f.doc.texts|].parent
  }

  /** The list item's own list: of its depth, its kind and its group. */
  function ListAt(events: seq<Event>, i: nat): OpenList
    requires i < |events| && IsListItem(events[i])
  {
    OpenList(events[i].item.Depth(), events[i].item.Ordered(), GroupAt(events, i))
  }

  /** Each item's list is the innermost one open right after it, so its group has
      exactly the item's depth and kind. */
  lemma ItemsListIsInnermost(f: State, item: TextEvent)
    requires item.kind.ListItem? && Nested(f.lists, |f.doc.groups|)
    ensures |PushText(f, item).doc.texts| == |f.doc.texts| + 1
    ensures var lists := PushText(f, item).lists;
      && lists != []
      && lists[|lists| - 1] == OpenList(item.Depth(), item.Ordered(), PushText(f, item).doc.texts[|f.doc.texts|].parent)
  {
    LastListFits(f.lists, item.Depth(), item.Ordered(), |f.doc.groups|);
    var lists := ListsFor(f.lists, item.Depth(), item.Ordered(), |f.doc.groups|);
    ListItemText(f, item);
    assert PushText(f, item).lists == lists by {
      PushTextLists(f, item);
    }
  }

  lemma LastListFits(lists: seq<OpenList>, depth: nat, ordered: bool, groups: nat)
    requires Nested(lists, groups)
    ensures var r := ListsFor(lists, depth, ordered, groups); r[|r| - 1].depth == depth && r[|r| - 1].ordered == ordered
  {
    ListsForExactly(lists, depth, ordered, groups);
  }

  lemma ListAtIsInnermost(events: seq<Event>, i: nat)
    requires i < |events| && IsListItem(events[i])
    ensures Innermost(FoldAll(events[..i + 1]).lists, ListAt(events, i))
  {
    assert events[..i + 1][..i] == events[..i];
    FoldAllNested(events[..i]);
    ItemsListIsInnermost(FoldAll(events[..i]), events[i].item);
  }

  /** Two list items share a group exactly when they have the same depth and kind
      and nothing between them ends a list of that depth and kind. */
  lemma ListItemsShareGroup(events: seq<Event>, i: nat, j: nat)
    requires i < j < |events| && IsListItem(events[i]) && IsListItem(events[j])
    ensures GroupAt(events, i) == GroupAt(events, j) <==>
      && events[i].item.Depth() == events[j].item.Depth()
      && events[i].item.Ordered() == events[j].item.Ordered()
      && Unbroken(events, i + 1, j, events[i].item.Depth(), events[i].item.Ordered())
  {
    var t, x, y := ItemsInTrace(events, i, j);
    SharedIffUnbroken(t, events, i, j, x, y);
  }

  lemma ItemsInTrace(events: seq<Event>, i: nat, j: nat) returns (t: Trace, x: OpenList, y: OpenList)
    requires i < j < |events| && IsListItem(events[i]) && IsListItem(events[j])
    ensures t.Of(events) && x == ListAt(events, i) && y == ListAt(events, j)
    ensures Innermost(t.lists[i + 1], x) && Innermost(t.lists[j + 1], y)
  {
    t := Traced(events);
    x, y := ListAt(events, i), ListAt(events, j);
    ListAtIsInnermost(events, i);
    ListAtIsInnermost(events, j);
  }

  predicate Innermost(lists: seq<OpenList>, x: OpenList) {
    lists != [] && lists[|lists| - 1] == x
  }

  lemma SharedIffUnbroken(t: Trace, events: seq<Event>, i: nat, j: nat, x: OpenList, y: OpenList)
    requires t.Of(events) && i < j < |events| && IsListItem(events[j])
    requires y.depth == events[j].item.Depth() && y.ordered == events[j].item.Ordered()
    requires Innermost(t.lists[i + 1], x) && Innermost(t.lists[j + 1], y)
    ensures x.ref == y.ref <==>
      x.depth == y.depth && x.ordered == y.ordered && Unbroken(events, i + 1, j, x.depth, x.ordered)
  {
    ListLastsOver(t, events, i + 1, j, x);
    assert t.lists[j + 1] == Next(t.lists[j], t.groups[j], events[j]);
    SharedIffKept(t.lists[j], t.groups[j], events[j], t.groups[j + 1], x, y);
  }

  lemma SharedIffKept(lists: seq<OpenList>, groups: nat, e: Event, groups': nat, x: OpenList, y: OpenList)
    requires Nested(lists, groups) && Grown(lists, groups, e, groups') && IsListItem(e)
    requires y.depth == e.item.Depth() && y.ordered == e.item.Ordered()
    requires Innermost(Next(lists, groups, e), y)
    requires x in lists || Gone(lists, groups, x.ref)
    ensures x.ref == y.ref <==> x in lists && x.depth == y.depth && x.ordered == y.ordered
  {
    var next := Next(lists, groups, e);
    NextNested(lists, groups, e, groups');
    assert y in next;
    RefOf(next, groups', y);
    if x in lists {
      ListLasts(lists, groups, e, groups', x);
      if x in next && x.depth == y.depth {
        var k :| 0 <= k < |next| && next[k] == x;
        assert k == |next| - 1;
      }
    } else {
      GoneForGood(lists, groups, e, groups', x.ref);
    }
  }

  // ------------------------------------------------------ nothing moves afterwards

  lemma EnsureListKeeps(f: State, depth: nat, ordered: bool)
    ensures Keeps(f.doc, EnsureList(f, depth, ordered).doc)
  {
    var kept := CloseLists(f.lists, depth, ordered);
    var parent := if kept == [] then CurrentParent(f.headings) else kept[|kept| - 1].ref;
    var self := Groups(|f.doc.groups|);
    var m := f.doc.(groups := f.doc.groups + [GroupItem(self, parent, ListGroup(ordered), [])]);
    LinkKeeps(m, parent, self);
    KeepsTrans(f.doc, m, m.LinkChild(parent, self));
  }

  lemma KeepsTrans(a: Document, b: Document, c: Document)
    requires Keeps(a, b) && Keeps(b, c)
    ensures Keeps(a, c)
  {
  }

  lemma PushTextKeeps(f: State, item: TextEvent)
    ensures Keeps(f.doc, PushText(f, item).doc)
  {
    if item.kind.ListItem? {
      EnsureListKeeps(f, item.Depth(), item.Ordered());
    }
    var g := Opened(f, item);
    var t := NewText(item, Texts(|g.doc.texts|), ParentFor(g, item));
    var m := g.doc.(texts := g.doc.texts + [t]);
    LinkKeeps(m, t.parent, t.selfRef);
    KeepsTrans(g.doc, m, m.LinkChild(t.parent, t.selfRef));
    KeepsTrans(f.doc, g.doc, PushText(f, item).doc);
  }

  lemma FinishTableKeeps(f: State)
    ensures Keeps(f.doc, FinishTable(f).doc)
  {
    if f.table.Some? {
      var p, self := f.table.value, Tables(|f.doc.tables|);
      LinkKeeps(f.doc.(tables := f.doc.tables + [NewTable(self, p)]), p.parent, self);
    }
  }

  lemma OnTableStartKeeps(f: State, tableRef: string, caption: Option<string>, elementId: Option<string>)
    ensures Keeps(f.doc, OnTableStart(f, tableRef, caption, elementId).doc)
  {
    FinishTableKeeps(f.(lists := []));
    var g := FinishTable(f.(lists := []));
    if caption.Some? && caption.value != "" {
      PushTextKeeps(g, CaptionText(caption.value));
      KeepsTrans(f.doc, g.doc, PushText(g, CaptionText(caption.value)).doc);
    }
  }

  lemma OnFactKeeps(f: State, columns: FactColumns, dimensions: seq<(string, string)>)
    ensures Keeps(f.doc, OnFact(f, columns, dimensions).doc)
  {
    var g, h := EnsureFactsTable(f), PushDimensions(EnsureFactsTable(f), dimensions);
    assert Keeps(f.doc, g.doc) by {
      EnsureFactsTableKeeps(f);
    }
    assert Keeps(g.doc, h.doc) by {
      PushDimensionsKeeps(g, dimensions);
    }
    KeepsTrans(f.doc, g.doc, h.doc);
  }

  lemma EnsureFactsTableKeeps(f: State)
    ensures Keeps(f.doc, EnsureFactsTable(f).doc)
  {
    var parent, n, header := CurrentParent(f.headings), |f.doc.tables|, FactRow(0, FACT_HEADINGS, true, None);
    var table := TableItem(Tables(n), parent, [], None, [header], header, 1, 11, []);
    LinkKeeps(f.doc.(tables := f.doc.tables + [table]), parent, Tables(n));
  }

  lemma PushDimensionsKeeps(f: State, dimensions: seq<(string, string)>)
    ensures Keeps(f.doc, PushDimensions(f, dimensions).doc)
  {
    var parent, self := CurrentParent(f.headings), KeyValues(|f.doc.keyValues|);
    LinkKeeps(f.doc.(keyValues := f.doc.keyValues + [KeyValueItem(self, parent, dimensions, [])]), parent, self);
  }

  lemma OnHtmlIslandKeeps(f: State, text: string)
    ensures Keeps(f.doc, OnHtmlIsland(f, text).doc)
  {
    var parent, self, g := CurrentParent(f.headings), Groups(|f.doc.groups|), OpenIsland(f);
    var m := f.doc.(groups := f.doc.groups + [GroupItem(self, parent, IslandGroup, [])]);
    LinkKeeps(m, parent, self);
    KeepsTrans(f.doc, m, g.doc);
    var t := TextItem(Texts(|g.doc.texts|), self, BodyLayer, Paragraph, 0, false, text, None, [], []);
    var n := g.doc.(texts := g.doc.texts + [t]);
    LinkKeeps(n, self, t.selfRef);
    KeepsTrans(g.doc, n, n.LinkChild(self, t.selfRef));
    KeepsTrans(f.doc, g.doc, n.LinkChild(self, t.selfRef));
  }

  lemma PushPictureKeeps(f: State, item: TextEvent)
    ensures Keeps(f.doc, PushPicture(f, item).doc)
  {
    var parent, self := CurrentParent(f.headings), Pictures(|f.doc.pictures|);
    LinkKeeps(f.doc.(pictures := f.doc.pictures + [PictureItem(self, parent, [], item.elementId, [])]), parent, self);
  }

  /** No event changes anything of an earlier text but the children it lists. */
  lemma ConsumeKeeps(f: State, e: Event)
    ensures Keeps(f.doc, Consume(f, e).doc)
  {
    if e.Text? {
      PushPictureKeeps(f, e.item);
      PushTextKeeps(f, e.item);
    } else if e.TableStart? {
      OnTableStartKeeps(f, e.tableRef, e.caption, e.elementId);
    } else if e.TableEnd? {
      FinishTableKeeps(f);
    } else if e.Fact? {
      OnFactKeeps(f, e.columns, e.dimensions);
    } else if e.Citation? {
      PushTextKeeps(f, CitationText(e.text, e.ordinal, e.elementId));
    } else if e.Footnote? {
      PushTextKeeps(f, FootnoteText(e.text, e.name));
    } else if e.HtmlIsland? {
      OnHtmlIslandKeeps(f, e.text);
    }
  }

  lemma {:induction false} LaterKeeps(events: seq<Event>, n: nat)
    requires n <= |events|
    ensures Keeps(FoldAll(events[..n]).doc, FoldAll(events).doc)
    decreases |events|
  {
    if n == |events| {
      assert events[..n] == events;
    } else {
      var front, e := events[..|events| - 1], events[|events| - 1];
      assert front[..n] == events[..n];
      LaterKeeps(front, n);
      ConsumeKeeps(FoldAll(front), e);
      KeepsTrans(FoldAll(events[..n]).doc, FoldAll(front).doc, FoldAll(events).doc);
    }
  }

  /** The group an item was put in is its parent in the finished document. */
  lemma GroupIsFinal(events: seq<Event>, i: nat)
    requires i < |events| && IsListItem(events[i])
    ensures var d, n := Taken(FoldAll(events)), |FoldAll(events[..i]).doc.texts|;
      n < |d.texts| && d.texts[n].parent == GroupAt(events, i)
  {
    var f := FoldAll(events[..i]);
    ListItemText(f, events[i].item);
    assert events[..i + 1][..i] == events[..i];
    LaterKeeps(events, i + 1);
    ParentKept(PushText(f, events[i].item).doc, FoldAll(events), |f.doc.texts|);
  }

  lemma ParentKept(d: Document, f: State, n: nat)
    requires Keeps(d, f.doc) && n < |d.texts|
    ensures n < |Taken(f).texts| && Taken(f).texts[n].parent == d.texts[n].parent
  {
    FinishTableKeeps(f);
    var g := FinishTable(f);
    KeepsTrans(d, f.doc, g.doc);
    assert g.doc.texts[n].(children := []).parent == d.texts[n].(children := []).parent;
    assert Publish(g.doc, g.anchors).texts[n] == ResolveText(g.anchors, g.doc.texts[n]);
  }

  // ---------------------------------------------------------------- no empty lists

  /** Every list group but the n-th lists an item. */
  predicate Filled(d: Document, n: nat) {
    forall i :: 0 <= i < |d.groups| && i != n && d.groups[i].kind.ListGroup? ==> d.groups[i].children != []
  }

  predicate AllFilled(d: Document) {
    Filled(d, |d.groups|)
  }

  lemma LinkFilled(d: Document, p: Ref, c: Ref, n: nat)
    requires Filled(d, n)
    ensures Filled(d.LinkChild(p, c), n) && |d.LinkChild(p, c).groups| == |d.groups|
    ensures p == Groups(n) && n < |d.groups| ==> AllFilled(d.LinkChild(p, c))
  {
  }

  lemma EnsureListFilled(f: State, depth: nat, ordered: bool)
    requires AllFilled(f.doc) && Nested(f.lists, |f.doc.groups|)
    ensures var g := EnsureList(f, depth, ordered);
      && g.lists[|g.lists| - 1].ref.Groups? && g.lists[|g.lists| - 1].ref.n < |g.doc.groups|
      && Filled(g.doc, g.lists[|g.lists| - 1].ref.n)
  {
    ListsForExactly(f.lists, depth, ordered, |f.doc.groups|);
    EnsureListIs(f, depth, ordered);
    var closed := CloseLists(f.lists, depth, ordered);
    if closed == [] || closed[|closed| - 1].depth < depth {
      var parent := if closed == [] then CurrentParent(f.headings) else closed[|closed| - 1].ref;
      var self := Groups(|f.doc.groups|);
      var m := f.doc.(groups := f.doc.groups + [GroupItem(self, parent, ListGroup(ordered), [])]);
      LinkFilled(m, parent, self, self.n);
    }
  }

  lemma PushTextFilled(f: State, item: TextEvent)
    requires AllFilled(f.doc) && Nested(f.lists, |f.doc.groups|)
    ensures AllFilled(PushText(f, item).doc)
  {
    var g := Opened(f, item);
    if item.kind.ListItem? {
      EnsureListFilled(f, item.Depth(), item.Ordered());
    }
    var t := NewText(item, Texts(|g.doc.texts|), ParentFor(g, item));
    var m := g.doc.(texts := g.doc.texts + [t]);
    LinkFilled(m, t.parent, t.selfRef,
               if item.kind.ListItem? then g.lists[|g.lists| - 1].ref.n else |m.groups|);
  }

  lemma FinishTableFilled(f: State)
    requires AllFilled(f.doc)
    ensures AllFilled(FinishTable(f).doc)
  {
    if f.table.Some? {
      var self := Tables(|f.doc.tables|);
      var m := f.doc.(tables := f.doc.tables + [NewTable(self, f.table.value)]);
      LinkFilled(m, f.table.value.parent, self, |m.groups|);
    }
  }

  lemma OnHtmlIslandFilled(f: State, text: string)
    requires AllFilled(f.doc)
    ensures AllFilled(OnHtmlIsland(f, text).doc)
  {
    var parent, self := CurrentParent(f.headings), Groups(|f.doc.groups|);
    var m := f.doc.(groups := f.doc.groups + [GroupItem(self, parent, IslandGroup, [])]);
    LinkFilled(m, parent, self, |m.groups|);
    var g := OpenIsland(f);
    var t := TextItem(Texts(|g.doc.texts|), self, BodyLayer, Paragraph, 0, false, text, None, [], []);
    LinkFilled(g.doc.(texts := g.doc.texts + [t]), self, Texts(|g.doc.texts|), |g.doc.groups|);
  }

  lemma OnFactFilled(f: State, columns: FactColumns, dimensions: seq<(string, string)>)
    requires AllFilled(f.doc)
    ensures AllFilled(OnFact(f, columns, dimensions).doc)
  {
    var parent := CurrentParent(f.headings);
    var header := FactRow(0, FACT_HEADINGS, true, None);
    var table := TableItem(Tables(|f.doc.tables|), parent, [], None, [header], header, 1, 11, []);
    LinkFilled(f.doc.(tables := f.doc.tables + [table]), parent, Tables(|f.doc.tables|), |f.doc.groups|);
    var g := EnsureFactsTable(f);
    assert AllFilled(g.doc);
    var item := KeyValueItem(KeyValues(|g.doc.keyValues|), parent, dimensions, []);
    LinkFilled(g.doc.(keyValues := g.doc.keyValues + [item]), parent, KeyValues(|g.doc.keyValues|), |g.doc.groups|);
    assert AllFilled(PushDimensions(g, dimensions).doc);
  }

  lemma PushPictureFilled(f: State, item: TextEvent)
    requires AllFilled(f.doc)
    ensures AllFilled(PushPicture(f, item).doc)
  {
    var parent, self := CurrentParent(f.headings), Pictures(|f.doc.pictures|);
    var picture := PictureItem(self, parent, [], item.elementId, []);
    LinkFilled(f.doc.(pictures := f.doc.pictures + [picture]), parent, self, |f.doc.groups|);
  }

  lemma ConsumeFilled(f: State, e: Event)
    requires AllFilled(f.doc) && Nested(f.lists, |f.doc.groups|)
    ensures AllFilled(Consume(f, e).doc)
  {
    if e.Text? {
      PushPictureFilled(f, e.item);
      PushTextFilled(f, e.item);
    } else if e.TableStart? {
      FinishTableFilled(f.(lists := []));
      var g := FinishTable(f.(lists := []));
      if e.caption.Some? {
        PushTextFilled(g, CaptionText(e.caption.value));
      }
    } else if e.TableEnd? {
      FinishTableFilled(f);
    } else if e.Fact? {
      OnFactFilled(f, e.columns, e.dimensions);
    } else if e.Citation? {
      PushTextFilled(f, CitationText(e.text, e.ordinal, e.elementId));
    } else if e.Footnote? {
      PushTextFilled(f, FootnoteText(e.text, e.name));
    } else if e.HtmlIsland? {
      OnHtmlIslandFilled(f, e.text);
    }
  }

  lemma {:induction false} FoldAllFilled(events: seq<Event>)
    ensures AllFilled(FoldAll(events).doc)
    decreases |events|
  {
    if events != [] {
      FoldAllFilled(events[..|events| - 1]);
      FoldAllNested(events[..|events| - 1]);
      ConsumeFilled(FoldAll(events[..|events| - 1]), events[|events| - 1]);
    }
  }

  /** No list group of a finished document is empty. */
  lemma NoListIsEmpty(events: seq<Event>)
    ensures AllFilled(Taken(FoldAll(events)))
  {
    FoldAllFilled(events);
    FinishTableFilled(FoldAll(events));
  }
}
