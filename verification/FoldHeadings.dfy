/** The heading ladder is a search: the stack of open headers answers what a scan
    back over all earlier headers would. */
module FoldHeadings {
  import opened Wrappers
  import opened Document
  import opened Grid
  import opened Fold
  import opened FoldLinks

  /** How a text was made: as a section header of some level, as the text of an
      island, or as any other content. */
  datatype Made = Header(level: nat) | InIsland | Plain

  /** The texts an event adds. */
  function AddedTexts(e: Event): seq<Made> {
    match e
    case Text(item) => if item.kind.Picture? then [] else [MadeOf(item)]
    case TableStart(_, caption, _) => if caption.Some? && caption.value != "" then [Plain] else []
    case Citation(text, _, _) => if text == "" then [] else [Plain]
    case Footnote(text, _) => if text == "" then [] else [Plain]
    case HtmlIsland(_) => [InIsland]
    case _ => []
  }

  function MadeOf(item: TextEvent): Made {
    if !item.kind.SectionHeader? then Plain else Header(if item.level == None then 1 else item.level.value)
  }

  /** All texts of a stream, in the order they were made. */
  function History(events: seq<Event>): seq<Made> {
    if events == [] then [] else History(events[..|events| - 1]) + AddedTexts(events[|events| - 1])
  }

  /** The latest header of a strictly smaller level, or the body. */
  function LatestLower(h: seq<Made>, level: nat): Ref {
    if h == [] then Body
    else
      var n := |h| - 1;
      if h[n].Header? && h[n].level < level then Texts(n) else LatestLower(h[..n], level)
  }

  /** The latest header of any level, or the body. */
  function LatestHeader(h: seq<Made>): Ref {
    if h == [] then Body
    else
      var n := |h| - 1;
      if h[n].Header? then Texts(n) else LatestHeader(h[..n])
  }

  lemma LatestIsNoGroup(h: seq<Made>, level: nat)
    ensures !LatestLower(h, level).Groups? && !LatestLower(h, level).Furniture?
    ensures !LatestHeader(h).Groups? && !LatestHeader(h).Furniture?
    decreases |h|
  {
    if h != [] {
      LatestIsNoGroup(h[..|h| - 1], level);
    }
  }

  ghost predicate Ladder(headings: seq<Heading>, h: seq<Made>) {
    && (forall i, j :: 0 <= i < j < |headings| ==> headings[i].level < headings[j].level)
    && (forall level: nat :: CurrentParent(CloseHeadings(headings, level)) == LatestLower(h, level))
    && CurrentParent(headings) == LatestHeader(h)
  }

  lemma {:induction false} CloseHeadingsBelow(headings: seq<Heading>, level: nat)
    ensures CloseHeadings(headings, level) != [] ==>
      CloseHeadings(headings, level)[|CloseHeadings(headings, level)| - 1].level < level
    decreases |headings|
  {
    if headings != [] && headings[|headings| - 1].level >= level {
      CloseHeadingsBelow(headings[..|headings| - 1], level);
    }
  }

  lemma {:induction false} CloseTwice(headings: seq<Heading>, a: nat, b: nat)
    requires b <= a
    ensures CloseHeadings(CloseHeadings(headings, a), b) == CloseHeadings(headings, b)
    decreases |headings|
  {
    if headings != [] && headings[|headings| - 1].level >= a {
      CloseTwice(headings[..|headings| - 1], a, b);
    }
  }

  lemma LadderText(headings: seq<Heading>, h: seq<Made>, made: Made)
    requires Ladder(headings, h) && !made.Header?
    ensures Ladder(headings, h + [made])
  {
    assert (h + [made])[..|h|] == h;
  }

  lemma LadderHeaderAt(headings: seq<Heading>, h: seq<Made>, level: nat, l: nat)
    requires Ladder(headings, h)
    ensures var now := CloseHeadings(headings, level) + [Heading(level, Texts(|h|))];
      CurrentParent(CloseHeadings(now, l)) == LatestLower(h + [Header(level)], l)
  {
    var closed := CloseHeadings(headings, level);
    var now := closed + [Heading(level, Texts(|h|))];
    assert now[..|now| - 1] == closed;
    assert (h + [Header(level)])[..|h|] == h;
    if level >= l {
      CloseTwice(headings, level, l);
      assert CloseHeadings(now, l) == CloseHeadings(closed, l);
    }
  }

  lemma LadderHeader(headings: seq<Heading>, h: seq<Made>, level: nat)
    requires Ladder(headings, h)
    ensures Ladder(CloseHeadings(headings, level) + [Heading(level, Texts(|h|))], h + [Header(level)])
  {
    CloseHeadingsPrefix(headings, level);
    CloseHeadingsBelow(headings, level);
    var closed := CloseHeadings(headings, level);
    var now := closed + [Heading(level, Texts(|h|))];
    forall l: nat ensures CurrentParent(CloseHeadings(now, l)) == LatestLower(h + [Header(level)], l) {
      LadderHeaderAt(headings, h, level, l);
    }
    forall i, j | 0 <= i < j < |now| ensures now[i].level < now[j].level {
      assert forall k :: 0 <= k < |closed| ==> closed[k] == headings[k];
    }
  }

  // ------------------------------------------------------------- where texts hang

  /** The placeholder of an island with nothing in it but this child. */
  predicate PlaceholderOf(d: Document, group: Ref, child: Ref) {
    && group.Groups? && group.n < |d.groups|
    && d.groups[group.n].kind == IslandGroup && d.groups[group.n].children == [child]
  }

  /** Where the i-th text hangs, by searching back over the texts before it: a
      header under the latest header of strictly smaller level, page chrome under
      the furniture, a list item under its group, an island's text alone in its
      placeholder, and everything else under the latest header. */
  ghost predicate HangsRight(d: Document, h: seq<Made>, i: nat)
    requires i < |d.texts| && |d.texts| == |h|
  {
    var t := d.texts[i];
    && (t.kind.SectionHeader? <==> h[i].Header?)
    && (t.layer.FurnitureLayer? <==> t.parent.Furniture?)
    && (t.parent.Furniture? <==> t.kind.PageHeader? || t.kind.PageFooter?)
    && (if h[i].InIsland? then PlaceholderOf(d, t.parent, Texts(i))
        else if h[i].Header? then t.parent == LatestLower(h[..i], h[i].level)
        else if t.parent.Furniture? then true
        else if t.kind.ListItem? then
          t.parent.Groups? && t.parent.n < |d.groups| && d.groups[t.parent.n].kind == ListGroup(t.enumerated)
        else t.parent == LatestHeader(h[..i]))
  }

  ghost predicate AllHangRight(d: Document, h: seq<Made>) {
    |d.texts| == |h| && forall i :: 0 <= i < |h| ==> HangsRight(d, h, i)
  }

  /** Every open list's group is of the list's kind. */
  ghost predicate ListKinds(f: State) {
    forall i :: 0 <= i < |f.lists| ==>
      f.lists[i].ref.Groups? && f.lists[i].ref.n < |f.doc.groups|
      && f.doc.groups[f.lists[i].ref.n].kind == ListGroup(f.lists[i].ordered)
  }

  ghost predicate Placed(f: State, h: seq<Made>) {
    && Ladder(f.headings, h)
    && AllHangRight(f.doc, h)
    && ListKinds(f)
    && (f.table.Some? ==> !f.table.value.parent.Furniture? && !f.table.value.parent.Groups?)
  }

  /** d' keeps the texts and groups of d, but for the children they list. */
  ghost predicate Keeps(d: Document, d': Document) {
    && |d.texts| <= |d'.texts| && |d.groups| <= |d'.groups|
    && (forall i :: 0 <= i < |d.texts| ==> d'.texts[i].(children := []) == d.texts[i].(children := []))
    && (forall i :: 0 <= i < |d.groups| ==> d'.groups[i].(children := []) == d.groups[i].(children := []))
  }

  /** d' keeps the islands of d, with the children they list. */
  ghost predicate IslandsKept(d: Document, d': Document) {
    && |d.groups| <= |d'.groups|
    && (forall i :: 0 <= i < |d.groups| && d.groups[i].kind.IslandGroup? ==> d'.groups[i] == d.groups[i])
  }

  predicate NoIsland(d: Document, r: Ref) {
    r.Groups? && r.n < |d.groups| ==> !d.groups[r.n].kind.IslandGroup?
  }

  lemma LinkKeeps(d: Document, p: Ref, c: Ref)
    ensures Keeps(d, d.LinkChild(p, c))
    ensures |d.LinkChild(p, c).texts| == |d.texts| && |d.LinkChild(p, c).groups| == |d.groups|
    ensures NoIsland(d, p) ==> IslandsKept(d, d.LinkChild(p, c))
  {
  }

  lemma KeptHangRight(d: Document, d': Document, h: seq<Made>)
    requires AllHangRight(d, h) && Keeps(d, d') && IslandsKept(d, d') && |d'.texts| == |d.texts|
    ensures AllHangRight(d', h)
  {
    forall i | 0 <= i < |h| ensures HangsRight(d', h, i) {
      assert HangsRight(d, h, i);
      assert d'.texts[i].(children := []) == d.texts[i].(children := []);
      var p := d.texts[i].parent;
      if p.Groups? && p.n < |d.groups| {
        assert d'.groups[p.n].(children := []) == d.groups[p.n].(children := []);
      }
    }
  }

  lemma KeptKinds(f: State, g: State)
    requires ListKinds(f) && Keeps(f.doc, g.doc)
    requires forall i :: 0 <= i < |g.lists| ==> g.lists[i] in f.lists
    ensures ListKinds(g)
  {
    forall i | 0 <= i < |g.lists|
      ensures g.lists[i].ref.Groups? && g.lists[i].ref.n < |g.doc.groups|
           && g.doc.groups[g.lists[i].ref.n].kind == ListGroup(g.lists[i].ordered)
    {
      var n := g.lists[i].ref.n;
      assert g.doc.groups[n].(children := []) == f.doc.groups[n].(children := []);
    }
  }

  /** One more text, linked under its parent. */
  lemma AddedHangsRight(d: Document, t: TextItem, h: seq<Made>, made: Made)
    requires AllHangRight(d, h) && NoIsland(d, t.parent)
    requires HangsRight(d.(texts := d.texts + [t]), h + [made], |h|)
    ensures AllHangRight(d.(texts := d.texts + [t]).LinkChild(t.parent, t.selfRef), h + [made])
  {
    var m, h' := d.(texts := d.texts + [t]), h + [made];
    forall i | 0 <= i < |h'| ensures HangsRight(m, h', i) {
      if i < |h| {
        assert HangsRight(d, h, i);
        assert h'[..i] == h[..i];
      }
    }
    LinkKeeps(m, t.parent, t.selfRef);
    KeptHangRight(m, m.LinkChild(t.parent, t.selfRef), h');
  }

  // ---------------------------------------------------------------- event by event

  lemma OpenListGroupPlaced(f: State, depth: nat, ordered: bool, h: seq<Made>)
    requires Placed(f, h)
    ensures Placed(OpenListGroup(f, depth, ordered), h)
  {
    LatestIsNoGroup(h, 0);
    var parent := if f.lists == [] then CurrentParent(f.headings) else f.lists[|f.lists| - 1].ref;
    var self, g := Groups(|f.doc.groups|), OpenListGroup(f, depth, ordered);
    var m := f.doc.(groups := f.doc.groups + [GroupItem(self, parent, ListGroup(ordered), [])]);
    LinkKeeps(m, parent, self);
    KeptHangRight(f.doc, m, h);
    KeptHangRight(m, g.doc, h);
    var e := f.(doc := m, lists := g.lists);
    assert ListKinds(e);
    KeptKinds(e, g);
  }

  lemma EnsureListPlaced(f: State, depth: nat, ordered: bool, h: seq<Made>)
    requires Placed(f, h)
    ensures Placed(EnsureList(f, depth, ordered), h)
    ensures var g := EnsureList(f, depth, ordered); g.lists[|g.lists| - 1].ordered == ordered
  {
    CloseListsPrefix(f.lists, depth, ordered);
    CloseListsKind(f.lists, depth, ordered);
    var closed := f.(lists := CloseLists(f.lists, depth, ordered));
    KeptKinds(f, closed);
    OpenListGroupPlaced(closed, depth, ordered, h);
  }

  lemma {:induction false} CloseListsKind(lists: seq<OpenList>, depth: nat, ordered: bool)
    ensures var closed := CloseLists(lists, depth, ordered);
      closed == [] || closed[|closed| - 1].depth < depth
      || (closed[|closed| - 1].depth == depth && closed[|closed| - 1].ordered == ordered)
    decreases |lists|
  {
    if lists != [] && ClosedBy(lists[|lists| - 1], depth, ordered) {
      CloseListsKind(lists[..|lists| - 1], depth, ordered);
    }
  }

  /** The new text hangs where the search says, given the state it is placed in. */
  lemma NewTextHangsRight(g: State, item: TextEvent, h: seq<Made>)
    requires AllHangRight(g.doc, h) && ListKinds(g)
    requires item.kind.ListItem? ==> g.lists != [] && g.lists[|g.lists| - 1].ordered == item.Ordered()
    requires !item.Chrome() && !item.kind.ListItem? ==>
      CurrentParent(g.headings) == if item.kind.SectionHeader? then LatestLower(h, item.Level()) else LatestHeader(h)
    ensures var t := NewText(item, Texts(|g.doc.texts|), ParentFor(g, item));
      HangsRight(g.doc.(texts := g.doc.texts + [t]), h + [MadeOf(item)], |h|)
  {
    LatestIsNoGroup(h, item.Level());
    assert (h + [MadeOf(item)])[..|h|] == h;
  }

  lemma OpenedPlaced(f: State, item: TextEvent, h: seq<Made>)
    requires Placed(f, h)
    ensures var g := Opened(f, item);
      && AllHangRight(g.doc, h) && ListKinds(g) && g.table == f.table
      && g.headings == (if item.kind.SectionHeader? then CloseHeadings(f.headings, item.Level()) else f.headings)
      && (item.kind.ListItem? ==> g.lists[|g.lists| - 1].ordered == item.Ordered())
  {
    if item.kind.ListItem? {
      EnsureListPlaced(f, item.Depth(), item.Ordered(), h);
    } else {
      KeptKinds(f, Opened(f, item));
    }
  }

  lemma PlaceTextPlaced(g: State, item: TextEvent, h: seq<Made>)
    requires AllHangRight(g.doc, h) && ListKinds(g)
    requires item.kind.ListItem? ==> g.lists != [] && g.lists[|g.lists| - 1].ordered == item.Ordered()
    requires !item.Chrome() && !item.kind.ListItem? ==>
      CurrentParent(g.headings) == if item.kind.SectionHeader? then LatestLower(h, item.Level()) else LatestHeader(h)
    ensures AllHangRight(PlaceText(g, item).doc, h + [MadeOf(item)]) && ListKinds(PlaceText(g, item))
  {
    LatestIsNoGroup(h, item.Level());
    NewTextHangsRight(g, item, h);
    var t := NewText(item, Texts(|g.doc.texts|), ParentFor(g, item));
    AddedHangsRight(g.doc, t, h, MadeOf(item));
    LinkKeeps(g.doc.(texts := g.doc.texts + [t]), t.parent, t.selfRef);
    KeptKinds(g, PlaceText(g, item));
  }

  lemma PushTextPlaced(f: State, item: TextEvent, h: seq<Made>)
    requires Placed(f, h)
    ensures Placed(PushText(f, item), h + [MadeOf(item)])
  {
    OpenedPlaced(f, item, h);
    PlaceTextPlaced(Opened(f, item), item, h);
    if item.kind.SectionHeader? {
      LadderHeader(f.headings, h, item.Level());
    } else {
      LadderText(f.headings, h, Plain);
    }
  }

  lemma OpenIslandPlaced(f: State, h: seq<Made>)
    requires Placed(f, h)
    ensures Placed(OpenIsland(f), h)
  {
    var self, parent, g := Groups(|f.doc.groups|), CurrentParent(f.headings), OpenIsland(f);
    LatestIsNoGroup(h, 0);
    var m := f.doc.(groups := f.doc.groups + [GroupItem(self, parent, IslandGroup, [])]);
    LinkKeeps(m, parent, self);
    KeptHangRight(f.doc, m, h);
    KeptHangRight(m, g.doc, h);
  }

  /** The text of the island just opened is its placeholder's only child. */
  lemma IslandTextHangs(d: Document, n: nat, t: TextItem, h: seq<Made>)
    requires AllHangRight(d, h) && n < |d.groups| && d.groups[n].kind == IslandGroup && d.groups[n].children == []
    requires t.selfRef == Texts(|h|) && t.parent == Groups(n) && t.kind == Paragraph && t.layer == BodyLayer
    ensures AllHangRight(d.(texts := d.texts + [t]).LinkChild(t.parent, t.selfRef), h + [InIsland])
  {
    var d', h' := d.(texts := d.texts + [t]).LinkChild(t.parent, t.selfRef), h + [InIsland];
    forall i | 0 <= i < |h'| ensures HangsRight(d', h', i) {
      if i < |h| {
        assert HangsRight(d, h, i);
        assert h'[..i] == h[..i];
      }
    }
  }

  lemma OnHtmlIslandPlaced(f: State, text: string, h: seq<Made>)
    requires Placed(f, h)
    ensures Placed(OnHtmlIsland(f, text), h + [InIsland])
  {
    var g, self := OpenIsland(f), Groups(|f.doc.groups|);
    OpenIslandPlaced(f, h);
    LatestIsNoGroup(h, 0);
    var t := TextItem(Texts(|g.doc.texts|), self, BodyLayer, Paragraph, 0, false, text, None, [], []);
    assert |g.doc.groups| == self.n + 1 && g.doc.groups[self.n].children == [];
    IslandTextHangs(g.doc, self.n, t, h);
    LadderText(f.headings, h, InIsland);
    var k := PushIslandSource(g, self, text);
    KeptHangRight(k.doc, OnHtmlIsland(f, text).doc, h + [InIsland]);
  }

  /** Steps that add no text and open no header. */
  lemma OtherPlaced(f: State, g: State, h: seq<Made>)
    requires Placed(f, h) && Keeps(f.doc, g.doc) && IslandsKept(f.doc, g.doc) && |g.doc.texts| == |f.doc.texts|
    requires g.headings == f.headings && (g.lists == f.lists || g.lists == [])
    requires g.table.Some? ==> !g.table.value.parent.Furniture? && !g.table.value.parent.Groups?
    ensures Placed(g, h)
  {
    KeptHangRight(f.doc, g.doc, h);
    KeptKinds(f, g);
  }

  lemma FinishTablePlaced(f: State, h: seq<Made>)
    requires Placed(f, h)
    ensures Placed(FinishTable(f), h)
  {
    if f.table.Some? {
      var self := Tables(|f.doc.tables|);
      LinkKeeps(f.doc.(tables := f.doc.tables + [NewTable(self, f.table.value)]), f.table.value.parent, self);
      OtherPlaced(f, FinishTable(f), h);
    }
  }

  lemma OnTableStartPlaced(f: State, tableRef: string, caption: Option<string>, id: Option<string>, h: seq<Made>)
    requires Placed(f, h)
    ensures Placed(OnTableStart(f, tableRef, caption, id), h + AddedTexts(TableStart(tableRef, caption, id)))
  {
    hide PushText;
    var e := f.(lists := []);
    OtherPlaced(f, e, h);
    FinishTablePlaced(e, h);
    var g := FinishTable(e);
    var k := OnTableStart(f, tableRef, caption, id);
    if caption.Some? && caption.value != "" {
      PushTextPlaced(g, CaptionText(caption.value), h);
      TableOpenPlaced(PushText(g, CaptionText(caption.value)), k.table, h + [Plain]);
    } else {
      assert h + [] == h;
      TableOpenPlaced(g, k.table, h);
    }
  }

  lemma TableOpenPlaced(f: State, table: Option<PendingTable>, h: seq<Made>)
    requires Placed(f, h) && table.Some? && table.value.parent == CurrentParent(f.headings)
    ensures Placed(f.(table := table), h)
  {
    LatestIsNoGroup(h, 0);
    OtherPlaced(f, f.(table := table), h);
  }

  lemma EnsureFactsTablePlaced(f: State, h: seq<Made>)
    requires Placed(f, h)
    ensures Placed(EnsureFactsTable(f), h)
  {
    LatestIsNoGroup(h, 0);
    var parent, n := CurrentParent(f.headings), |f.doc.tables|;
    var header := FactRow(0, FACT_HEADINGS, true, None);
    var table := TableItem(Tables(n), parent, [], None, [header], header, 1, 11, []);
    LinkKeeps(f.doc.(tables := f.doc.tables + [table]), parent, Tables(n));
    OtherPlaced(f, EnsureFactsTable(f), h);
  }

  lemma PushDimensionsPlaced(f: State, dimensions: seq<(string, string)>, h: seq<Made>)
    requires Placed(f, h)
    ensures Placed(PushDimensions(f, dimensions), h)
  {
    LatestIsNoGroup(h, 0);
    var parent, self := CurrentParent(f.headings), KeyValues(|f.doc.keyValues|);
    LinkKeeps(f.doc.(keyValues := f.doc.keyValues + [KeyValueItem(self, parent, dimensions, [])]), parent, self);
    OtherPlaced(f, PushDimensions(f, dimensions), h);
  }

  lemma AddFactRowPlaced(f: State, index: nat, columns: FactColumns, dimensions: Option<Ref>, h: seq<Made>)
    requires Placed(f, h)
    ensures Placed(AddFactRow(f, index, columns, dimensions), h)
  {
    OtherPlaced(f, AddFactRow(f, index, columns, dimensions), h);
  }

  lemma OnFactPlaced(f: State, columns: FactColumns, dimensions: seq<(string, string)>, h: seq<Made>)
    requires Placed(f, h)
    ensures Placed(OnFact(f, columns, dimensions), h)
  {
    EnsureFactsTablePlaced(f, h);
    var g := EnsureFactsTable(f);
    PushDimensionsPlaced(g, dimensions, h);
    var ref := if dimensions == [] then None else Some(KeyValues(|g.doc.keyValues|));
    AddFactRowPlaced(PushDimensions(g, dimensions), g.factsTable.value, columns, ref, h);
  }

  lemma PushPicturePlaced(f: State, item: TextEvent, h: seq<Made>)
    requires Placed(f, h)
    ensures Placed(PushPicture(f, item), h)
  {
    LatestIsNoGroup(h, 0);
    var parent, self := CurrentParent(f.headings), Pictures(|f.doc.pictures|);
    LinkKeeps(f.doc.(pictures := f.doc.pictures + [PictureItem(self, parent, [], item.elementId, [])]), parent, self);
    OtherPlaced(f, PushPicture(f, item), h);
  }

  lemma ConsumePlaced(f: State, e: Event, h: seq<Made>)
    requires Placed(f, h)
    ensures Placed(Consume(f, e), h + AddedTexts(e))
  {
    assert h + [] == h;
    if e.Text? {
      if e.item.kind.Picture? {
        PushPicturePlaced(f, e.item, h);
      } else {
        PushTextPlaced(f, e.item, h);
      }
    } else if e.TableStart? {
      OnTableStartPlaced(f, e.tableRef, e.caption, e.elementId, h);
    } else if e.TableRow? {
      OtherPlaced(f, OnTableRow(f, e.tableRef, e.isHeader, e.cells), h);
    } else if e.TableEnd? {
      FinishTablePlaced(f, h);
    } else if e.Fact? {
      OnFactPlaced(f, e.columns, e.dimensions, h);
    } else if e.Citation? {
      PushTextPlaced(f, CitationText(e.text, e.ordinal, e.elementId), h);
    } else if e.Footnote? {
      PushTextPlaced(f, FootnoteText(e.text, e.name), h);
    } else if e.HtmlIsland? {
      OnHtmlIslandPlaced(f, e.text, h);
    }
  }

  lemma {:induction false} FoldAllPlaced(events: seq<Event>)
    ensures Placed(FoldAll(events), History(events))
    decreases |events|
  {
    if events != [] {
      FoldAllPlaced(events[..|events| - 1]);
      ConsumePlaced(FoldAll(events[..|events| - 1]), events[|events| - 1], History(events[..|events| - 1]));
    }
  }

  /** In the finished document of any stream every text hangs where a search back
      over the headers before it finds its place. */
  lemma TextsHangByLatestHeader(events: seq<Event>)
    ensures AllHangRight(Taken(FoldAll(events)), History(events))
  {
    FoldAllPlaced(events);
    FinishTablePlaced(FoldAll(events), History(events));
    var g := FinishTable(FoldAll(events));
    var d := Publish(g.doc, g.anchors);
    forall i | 0 <= i < |d.texts| ensures HangsRight(d, History(events), i) {
      assert d.texts[i] == ResolveText(g.anchors, g.doc.texts[i]);
      assert HangsRight(g.doc, History(events), i);
    }
  }
}
