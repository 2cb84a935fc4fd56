/** How list items are grouped, told from what they state themselves: their depth, and
    whether they are numbered. Groups nest as the items do. */
module FoldNesting {
  import opened Wrappers
  import opened Document
  import opened Fold
  import opened FoldHeadings
  import opened FoldLists
  import FoldLinks
  import FoldStates

  /** No depth, none above and the first are the same depth. */
  predicate Outermost(item: TextEvent) {
    item.listDepth in {None, Some(0), Some(1)}
  }

  predicate SameDepth(a: TextEvent, b: TextEvent) {
    a.listDepth == b.listDepth || (Outermost(a) && Outermost(b))
  }

  predicate Deeper(a: TextEvent, b: TextEvent) {
    !Outermost(a) && (Outermost(b) || a.listDepth.value > b.listDepth.value)
  }

  predicate Numbered(item: TextEvent) {
    item.enumerated || item.ordinal != None
  }

  /** This event ends the list of that item: content between lists, an item less deep,
      or one as deep of which only one is numbered. */
  predicate Ends(e: Event, item: TextEvent) {
    || Interrupts(e)
    || (IsListItem(e) &&
         (Deeper(item, e.item) || (SameDepth(item, e.item) && Numbered(item) != Numbered(e.item))))
  }

  predicate Undisturbed(events: seq<Event>, i: nat, j: nat)
    requires i < j <= |events| && IsListItem(events[i])
  {
    forall k :: i < k < j ==> !Ends(events[k], events[i].item)
  }

  /** Where the text of the event at position i stands in the finished document. */
  function PlaceOf(events: seq<Event>, i: nat): nat
    requires i < |events|
  {
    |FoldStates.AccountOf(events[..i]).texts|
  }

  /** What the finished document hangs that text off. */
  function HungFrom(events: seq<Event>, i: nat): Ref
    requires i < |events|
  {
    var texts, n := Taken(FoldAll(events)).texts, PlaceOf(events, i);
    if n < |texts| then texts[n].parent else Body
  }

  lemma AfterKeepsTexts(x: FoldStates.Account, e: Event)
    ensures x.texts <= FoldStates.After(x, e).texts
  {
  }

  lemma {:induction false} TextsGrow(events: seq<Event>, n: nat)
    requires n <= |events|
    ensures FoldStates.AccountOf(events[..n]).texts <= FoldStates.AccountOf(events).texts
    decreases |events|
  {
    if n == |events| {
      assert events[..n] == events;
    } else {
      var front := events[..|events| - 1];
      assert front[..n] == events[..n];
      TextsGrow(front, n);
      AfterKeepsTexts(FoldStates.AccountOf(front), events[|events| - 1]);
    }
  }

  /** That text is the item's own. */
  lemma ItemInPlace(events: seq<Event>, i: nat)
    requires i < |events| && IsListItem(events[i])
    ensures var texts, n := Taken(FoldAll(events)).texts, PlaceOf(events, i);
      n < |texts| && FoldStates.StatedBy(texts[n]) == FoldStates.CalledFor(events[i].item)
  {
    hide FoldAll, Taken, FoldStates.CalledFor;
    var x, later := FoldStates.AccountOf(events[..i]), FoldStates.AccountOf(events).Closed().texts;
    assert later[|x.texts|] == FoldStates.CalledFor(events[i].item) by {
      assert events[..i + 1][..i] == events[..i];
      TextsGrow(events, i + 1);
    }
    FoldStates.ItemsStateTheirEvents(events);
  }

  // ------------------------------------------------------------------------ sharing

  lemma DepthsCompare(a: TextEvent, b: TextEvent)
    ensures Deeper(a, b) <==> a.Depth() > b.Depth()
    ensures SameDepth(a, b) <==> a.Depth() == b.Depth()
    ensures Numbered(a) <==> a.Ordered()
  {
  }

  lemma EndsIsBreaks(e: Event, item: TextEvent)
    ensures Ends(e, item) <==> Breaks(e, item.Depth(), item.Ordered())
  {
    if IsListItem(e) {
      DepthsCompare(item, e.item);
      DepthsCompare(e.item, item);
    }
  }

  lemma HungFromGroup(events: seq<Event>, i: nat)
    requires i < |events| && IsListItem(events[i])
    ensures PlaceOf(events, i) < |Taken(FoldAll(events)).texts| && HungFrom(events, i) == GroupAt(events, i)
  {
    FoldStates.FoldAllAccounts(events[..i]);
    GroupIsFinal(events, i);
  }

  /** In the finished document two list items hang off one group if and only if they
      state the same depth, both or neither are numbered, and nothing between them ends
      the list of the first. Items that state no depth, zero or one are as deep. */
  lemma ListsAreGrouped(events: seq<Event>, i: nat, j: nat)
    requires i < j < |events| && IsListItem(events[i]) && IsListItem(events[j])
    ensures HungFrom(events, i) == HungFrom(events, j) <==>
      && SameDepth(events[i].item, events[j].item) && Numbered(events[i].item) == Numbered(events[j].item)
      && Undisturbed(events, i, j)
  {
    var a, b := events[i].item, events[j].item;
    HungFromGroup(events, i);
    HungFromGroup(events, j);
    ListItemsShareGroup(events, i, j);
    DepthsCompare(a, b);
    DepthsCompare(b, a);
    forall k | i < k < j ensures Ends(events[k], a) <==> Breaks(events[k], a.Depth(), a.Ordered()) {
      EndsIsBreaks(events[k], a);
    }
  }

  // ------------------------------------------------------------------------ nesting

  /** What the k-th open list's group hangs off: the list around it, or the header the
      outermost list is under. */
  function Around(f: State, k: nat): Ref
    requires k < |f.lists|
  {
    if k == 0 then CurrentParent(f.headings) else f.lists[k - 1].ref
  }

  predicate GroupIs(d: Document, g: Ref, parent: Ref, ordered: bool) {
    && g.Groups? && g.n < |d.groups|
    && d.groups[g.n].parent == parent && d.groups[g.n].kind == ListGroup(ordered)
  }

  /** The groups of the open lists hang one off the other. */
  predicate Chained(f: State) {
    forall k :: 0 <= k < |f.lists| ==> ChainedAt(f, k)
  }

  predicate ChainedAt(f: State, k: nat)
    requires k < |f.lists|
  {
    GroupIs(f.doc, f.lists[k].ref, Around(f, k), f.lists[k].ordered)
  }

  lemma KeptChained(f: State, g: State)
    requires Chained(f) && Keeps(f.doc, g.doc) && g.headings == f.headings && g.lists <= f.lists
    ensures Chained(g)
  {
    forall k | 0 <= k < |g.lists| ensures ChainedAt(g, k) {
      assert ChainedAt(f, k);
      var n := f.lists[k].ref.n;
      assert g.doc.groups[n].(children := []) == f.doc.groups[n].(children := []);
    }
  }

  lemma OpenListGroupChained(f: State, depth: nat, ordered: bool)
    requires Chained(f)
    ensures Chained(OpenListGroup(f, depth, ordered))
  {
    hide Chained;
    var parent := if f.lists == [] then CurrentParent(f.headings) else f.lists[|f.lists| - 1].ref;
    var self := Groups(|f.doc.groups|);
    var e := f.(doc := f.doc.(groups := f.doc.groups + [GroupItem(self, parent, ListGroup(ordered), [])]),
                lists := f.lists + [OpenList(depth, ordered, self)]);
    OneMoreChained(f, e);
    LinkKeeps(e.doc, parent, self);
    KeptChained(e, OpenListGroup(f, depth, ordered));
  }

  /** One more list, whose group hangs off the innermost one or the header. */
  lemma OneMoreChained(f: State, e: State)
    requires Chained(f) && e.headings == f.headings && |e.lists| == |f.lists| + 1 && f.lists <= e.lists
    requires f.doc.groups <= e.doc.groups && ChainedAt(e, |f.lists|)
    ensures Chained(e)
  {
    forall k | 0 <= k < |e.lists| ensures ChainedAt(e, k) {
      assert k < |f.lists| ==> ChainedAt(f, k);
    }
  }

  lemma EnsureListChained(f: State, depth: nat, ordered: bool)
    requires Chained(f)
    ensures Chained(EnsureList(f, depth, ordered))
  {
    FoldLinks.CloseListsPrefix(f.lists, depth, ordered);
    var closed := f.(lists := CloseLists(f.lists, depth, ordered));
    KeptChained(f, closed);
    OpenListGroupChained(closed, depth, ordered);
  }

  lemma ListItemChained(f: State, item: TextEvent)
    requires item.kind.ListItem? && Chained(f)
    ensures Chained(PushText(f, item))
  {
    var g := EnsureList(f, item.Depth(), item.Ordered());
    EnsureListChained(f, item.Depth(), item.Ordered());
    PlaceKeeps(g, item);
    KeptChained(g, PlaceText(g, item));
  }

  lemma PlaceKeeps(g: State, item: TextEvent)
    requires item.kind.ListItem? && g.lists != []
    ensures Keeps(g.doc, PlaceText(g, item).doc)
    ensures PlaceText(g, item).headings == g.headings && PlaceText(g, item).lists == g.lists
  {
    var t := NewText(item, Texts(|g.doc.texts|), ParentFor(g, item));
    var m := g.doc.(texts := g.doc.texts + [t]);
    LinkKeeps(m, t.parent, t.selfRef);
    KeepsTrans(g.doc, m, m.LinkChild(t.parent, t.selfRef));
  }

  /** The open headers change only with a header, which ends every list. */
  lemma HeadingsStay(f: State, e: Event)
    requires !Interrupts(e)
    ensures Consume(f, e).headings == f.headings
  {
  }

  lemma ConsumeChained(f: State, e: Event)
    requires Chained(f)
    ensures Chained(Consume(f, e))
  {
    hide PushText, Chained;
    ListsAfter(f, e);
    if IsListItem(e) {
      ListItemChained(f, e.item);
    } else if Interrupts(e) {
      NoListsChained(Consume(f, e));
    } else {
      ConsumeKeeps(f, e);
      HeadingsStay(f, e);
      KeptChained(f, Consume(f, e));
    }
  }

  lemma NoListsChained(f: State)
    requires f.lists == []
    ensures Chained(f)
  {
  }

  lemma {:induction false} FoldAllChained(events: seq<Event>)
    ensures Chained(FoldAll(events))
    decreases |events|
  {
    if events != [] {
      FoldAllChained(events[..|events| - 1]);
      ConsumeChained(FoldAll(events[..|events| - 1]), events[|events| - 1]);
    }
  }

  /** What a list item's group hangs off, by searching back from the item: the group of
      the latest item less deep than it, or, when content between lists or the start of
      the stream comes first, the latest header. */
  function Enclosing(events: seq<Event>, j: nat, k: nat): Ref
    requires k <= j < |events| && IsListItem(events[j])
  {
    if k == 0 || Interrupts(events[k - 1]) then LatestHeader(History(events[..j]))
    else if IsListItem(events[k - 1]) && Deeper(events[j].item, events[k - 1].item) then HungFrom(events, k - 1)
    else Enclosing(events, j, k - 1)
  }

  /** Nothing from k on is content between lists or an item less deep than this. */
  predicate AsDeep(events: seq<Event>, k: nat, j: nat, depth: nat)
    requires j <= |events|
  {
    forall i :: k <= i < j ==> !Interrupts(events[i]) && (IsListItem(events[i]) ==> events[i].item.Depth() >= depth)
  }

  /** Above the first so many lists, nothing is less deep. */
  predicate Above(lists: seq<OpenList>, base: seq<OpenList>, depth: nat) {
    base <= lists && forall i :: |base| <= i < |lists| ==> lists[i].depth >= depth
  }

  lemma {:induction false} CloseListsAbove(
    lists: seq<OpenList>, base: seq<OpenList>, depth: nat, d: nat, ordered: bool)
    requires Above(lists, base, depth) && depth <= d && forall x :: x in base ==> x.depth < depth
    ensures Above(CloseLists(lists, d, ordered), base, depth)
    decreases |lists|
  {
    if lists != [] && ClosedBy(lists[|lists| - 1], d, ordered) {
      assert lists[|lists| - 1] !in base;
      CloseListsAbove(lists[..|lists| - 1], base, depth, d, ordered);
    }
  }

  lemma NextAbove(lists: seq<OpenList>, groups: nat, e: Event, base: seq<OpenList>, depth: nat)
    requires Above(lists, base, depth) && forall x :: x in base ==> x.depth < depth
    requires !Interrupts(e) && (IsListItem(e) ==> e.item.Depth() >= depth)
    ensures Above(Next(lists, groups, e), base, depth)
  {
    if IsListItem(e) {
      CloseListsAbove(lists, base, depth, e.item.Depth(), e.item.Ordered());
    }
  }

  lemma {:induction false} StaysAbove(t: Trace, events: seq<Event>, k: nat, j: nat, base: seq<OpenList>, depth: nat)
    requires t.Of(events) && k <= j <= |events| && AsDeep(events, k, j, depth)
    requires t.lists[k] == base && forall x :: x in base ==> x.depth < depth
    ensures Above(t.lists[j], base, depth)
    decreases j - k
  {
    if k < j {
      StaysAbove(t, events, k, j - 1, base, depth);
      NextAbove(t.lists[j - 1], t.groups[j - 1], events[j - 1], base, depth);
    }
  }

  lemma LastIsNext(lists: seq<OpenList>, groups: nat, base: seq<OpenList>, y: OpenList)
    requires Nested(lists, groups) && Above(lists, base, y.depth) && Innermost(lists, y)
    requires forall x :: x in base ==> x.depth < y.depth
    ensures |lists| == |base| + 1
  {
    var m, n := |base|, |lists| - 1;
    assert m <= n by {
      assert y !in base;
    }
    var z := lists[m];
    assert m < n ==> z.depth < y.depth;
  }

  /** The item's own list stands right on what was open at k. */
  lemma StandsOn(t: Trace, events: seq<Event>, k: nat, j: nat, base: seq<OpenList>, y: OpenList)
    requires t.Of(events) && k <= j < |events| && AsDeep(events, k, j + 1, y.depth)
    requires t.lists[k] == base && forall x :: x in base ==> x.depth < y.depth
    requires Innermost(t.lists[j + 1], y)
    ensures |t.lists[j + 1]| == |base| + 1 && base <= t.lists[j + 1]
  {
    StaysAbove(t, events, k, j + 1, base, y.depth);
    LastIsNext(t.lists[j + 1], t.groups[j + 1], base, y);
  }

  lemma DepthsMatch(events: seq<Event>, j: nat, k: nat)
    requires k < j < |events| && IsListItem(events[j]) && !Interrupts(events[k])
    requires AsDeep(events, k + 1, j + 1, events[j].item.Depth())
    ensures IsListItem(events[k]) ==>
      (Deeper(events[j].item, events[k].item) <==> events[k].item.Depth() < events[j].item.Depth())
    ensures !(IsListItem(events[k]) && Deeper(events[j].item, events[k].item)) ==>
      AsDeep(events, k, j + 1, events[j].item.Depth())
  {
    if IsListItem(events[k]) {
      DepthsCompare(events[j].item, events[k].item);
    }
  }

  /** A trace of the stream in which every list item's own list is the innermost. */
  predicate Follows(t: Trace, events: seq<Event>) {
    && |t.lists| == |events| + 1 && t.lists[0] == []
    && (forall i :: 0 <= i < |events| && IsListItem(events[i]) ==> Innermost(t.lists[i + 1], ListAt(events, i)))
  }

  lemma Followed(events: seq<Event>, j: nat) returns (t: Trace)
    requires j < |events| && IsListItem(events[j])
    ensures t.Of(events) && Follows(t, events)
    ensures t.lists[j + 1] == FoldAll(events[..j + 1]).lists && Innermost(t.lists[j + 1], ListAt(events, j))
  {
    t := Traced(events);
    assert events[..0] == [];
    forall i | 0 <= i < |events| && IsListItem(events[i]) ensures Innermost(t.lists[i + 1], ListAt(events, i)) {
      ListAtIsInnermost(events, i);
    }
  }

  /** Lists begin anew with the stream and after content between lists. */
  lemma BeginsAnew(t: Trace, events: seq<Event>, k: nat)
    requires t.Of(events) && t.lists[0] == []
    requires k <= |events| && (k == 0 || Interrupts(events[k - 1]))
    ensures t.lists[k] == []
  {
    assert k > 0 ==> t.lists[k - 1 + 1] == Next(t.lists[k - 1], t.groups[k - 1], events[k - 1]);
  }

  /** The list around the item's own is that of the latest item less deep. */
  lemma AroundItem(t: Trace, events: seq<Event>, j: nat, k: nat, x: OpenList, y: OpenList)
    requires t.Of(events) && k < j < |events| && AsDeep(events, k + 1, j + 1, y.depth)
    requires Innermost(t.lists[k + 1], x) && x.depth < y.depth && Innermost(t.lists[j + 1], y)
    ensures |t.lists[j + 1]| >= 2 && t.lists[j + 1][|t.lists[j + 1]| - 2] == x
  {
    var base := t.lists[k + 1];
    BaseIsShallower(base, t.groups[k + 1], x, y.depth);
    StandsOn(t, events, k + 1, j, base, y);
  }

  /** What the innermost list stands in: the list around it, or the header. */
  function Outer(lists: seq<OpenList>, header: Ref): Ref {
    if |lists| < 2 then header else lists[|lists| - 2].ref
  }

  /** The list around the item's own, at the item, is the one the search finds. */
  lemma {:induction false} EnclosingIsAround(t: Trace, events: seq<Event>, j: nat, k: nat, y: OpenList)
    requires t.Of(events) && Follows(t, events)
    requires k <= j < |events| && IsListItem(events[j]) && AsDeep(events, k, j + 1, y.depth)
    requires y == ListAt(events, j)
    ensures Outer(t.lists[j + 1], LatestHeader(History(events[..j]))) == Enclosing(events, j, k)
    decreases k
  {
    hide FoldAll, HungFrom, History, LatestHeader, Innermost, AsDeep, GroupAt, Next;
    if k == 0 || Interrupts(events[k - 1]) {
      BeginsAnew(t, events, k);
      StandsOn(t, events, k, j, [], y);
    } else {
      DepthsMatch(events, j, k - 1);
      if IsListItem(events[k - 1]) && Deeper(events[j].item, events[k - 1].item) {
        AroundItem(t, events, j, k - 1, ListAt(events, k - 1), y);
        HungFromGroup(events, k - 1);
      } else {
        EnclosingIsAround(t, events, j, k - 1, y);
      }
    }
  }

  lemma BaseIsShallower(base: seq<OpenList>, groups: nat, x: OpenList, depth: nat)
    requires Nested(base, groups) && Innermost(base, x) && x.depth < depth
    ensures forall z :: z in base ==> z.depth < depth
  {
    forall z | z in base ensures z.depth < depth {
      var i :| 0 <= i < |base| && base[i] == z;
      assert i < |base| - 1 ==> base[i].depth < base[|base| - 1].depth;
    }
  }

  lemma HeaderThere(events: seq<Event>, j: nat)
    requires j < |events| && IsListItem(events[j])
    ensures CurrentParent(FoldAll(events[..j + 1]).headings) == LatestHeader(History(events[..j]))
  {
    assert events[..j + 1][..j] == events[..j];
    FoldAllPlaced(events[..j]);
    HeadingsStay(FoldAll(events[..j]), events[j]);
  }

  lemma GroupKept(d: Document, f: State, g: Ref, parent: Ref, ordered: bool)
    requires Keeps(d, f.doc) && GroupIs(d, g, parent, ordered)
    ensures GroupIs(Taken(f), g, parent, ordered)
  {
    FinishTableKeeps(f);
    KeepsTrans(d, f.doc, FinishTable(f).doc);
    assert FinishTable(f).doc.groups[g.n].(children := []) == d.groups[g.n].(children := []);
  }

  /** In the finished document the group of any list item is a list, numbered exactly
      when the item is, and hangs off the group of the latest item before that is less
      deep, or off the latest header when content between lists comes first. */
  lemma ListsAreNested(events: seq<Event>, j: nat)
    requires j < |events| && IsListItem(events[j])
    ensures GroupIs(Taken(FoldAll(events)), HungFrom(events, j), Enclosing(events, j, j), Numbered(events[j].item))
  {
    hide Enclosing, HungFrom, Taken;
    GroupThen(events, j);
    HungFromGroup(events, j);
    LaterKeeps(events, j + 1);
    DepthsCompare(events[j].item, events[j].item);
    GroupKept(FoldAll(events[..j + 1]).doc, FoldAll(events), HungFrom(events, j), Enclosing(events, j, j),
              Numbered(events[j].item));
  }

  /** The same when the item has just been taken. */
  lemma GroupThen(events: seq<Event>, j: nat)
    requires j < |events| && IsListItem(events[j])
    ensures GroupIs(FoldAll(events[..j + 1]).doc, GroupAt(events, j), Enclosing(events, j, j), events[j].item.Ordered())
  {
    hide Enclosing, FoldAll, GroupAt, History, LatestHeader, Follows, Chained, Outer;
    var t := Followed(events, j);
    HeaderThere(events, j);
    EnclosingIsAround(t, events, j, j, ListAt(events, j));
    FoldAllChained(events[..j + 1]);
    LastChained(FoldAll(events[..j + 1]), LatestHeader(History(events[..j])));
  }

  lemma LastChained(f: State, header: Ref)
    requires Chained(f) && f.lists != [] && CurrentParent(f.headings) == header
    ensures var n := |f.lists| - 1; GroupIs(f.doc, f.lists[n].ref, Outer(f.lists, header), f.lists[n].ordered)
  {
    assert ChainedAt(f, |f.lists| - 1);
  }

  /** So a deeper item right after a list item has a group of its own in that item's. */
  lemma DeeperItemNests(events: seq<Event>, i: nat)
    requires i + 1 < |events| && IsListItem(events[i]) && IsListItem(events[i + 1])
    requires Deeper(events[i + 1].item, events[i].item)
    ensures GroupIs(Taken(FoldAll(events)), HungFrom(events, i + 1), HungFrom(events, i), Numbered(events[i + 1].item))
    ensures HungFrom(events, i + 1) != HungFrom(events, i)
  {
    ListsAreNested(events, i + 1);
    ListsAreGrouped(events, i, i + 1);
  }
}
