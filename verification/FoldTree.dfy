/** The nested tree the fold builds flattens back to the stream: a preorder walk
    visits items in the order they were made. */
module FoldTree {
  import opened Basics
  import opened Wrappers
  import opened Document
  import opened Grid
  import opened Fold
  import opened FoldLinks

  datatype Tree = Node(root: Ref, kids: seq<Tree>)

  /** Preorder. */
  function Flatten(t: Tree): seq<Ref> {
    [t.root] + FlattenAll(t.kids)
  }

  function FlattenAll(ts: seq<Tree>): seq<Ref> {
    if ts == [] then [] else FlattenAll(ts[..|ts| - 1]) + Flatten(ts[|ts| - 1])
  }

  /** The children a walk visits: with or without tables, which are leaves. */
  function Kept(refs: seq<Ref>, tables: bool): seq<Ref> {
    if refs == [] then []
    else
      var c := refs[|refs| - 1];
      Kept(refs[..|refs| - 1], tables) + (if c.Tables? && !tables then [] else [c])
  }

  function Roots(ts: seq<Tree>): seq<Ref> {
    seq(|ts|, i requires 0 <= i < |ts| => ts[i].root)
  }

  /** t is the tree the document's children lists spell out below t.root. */
  predicate Mirrors(d: Document, t: Tree, tables: bool) {
    && Roots(t.kids) == Kept(d.Children(t.root), tables)
    && forall k :: k in t.kids ==> Mirrors(d, k, tables)
  }

  // --------------------------------------------------------- growing on the right

  /** path names, from below t.root, a chain of last children. */
  predicate OnSpine(t: Tree, path: seq<Ref>) {
    path == []
    || (t.kids != [] && t.kids[|t.kids| - 1].root == path[0] && OnSpine(t.kids[|t.kids| - 1], path[1..]))
  }

  /** t with a new leaf as the last child at the end of the path. */
  function Insert(t: Tree, path: seq<Ref>, c: Ref): Tree
    requires OnSpine(t, path)
  {
    if path == [] then Node(t.root, t.kids + [Node(c, [])])
    else
      var n := |t.kids| - 1;
      Node(t.root, t.kids[..n] + [Insert(t.kids[n], path[1..], c)])
  }

  lemma FlattenAllSnoc(ts: seq<Tree>, t: Tree)
    ensures FlattenAll(ts + [t]) == FlattenAll(ts) + Flatten(t)
  {
    assert (ts + [t])[..|ts|] == ts;
  }

  /** A leaf inserted anywhere on the spine is the last item of the walk. */
  lemma {:induction false} InsertAppends(t: Tree, path: seq<Ref>, c: Ref)
    requires OnSpine(t, path)
    ensures Insert(t, path, c).root == t.root
    ensures Flatten(Insert(t, path, c)) == Flatten(t) + [c]
    decreases |path|
  {
    if path == [] {
      FlattenAllSnoc(t.kids, Node(c, []));
      assert Flatten(Node(c, [])) == [c];
      Assoc([t.root], FlattenAll(t.kids), [c]);
    } else {
      var n := |t.kids| - 1;
      var last, front := t.kids[n], t.kids[..n];
      InsertAppends(last, path[1..], c);
      FlattenAllSnoc(front, Insert(last, path[1..], c));
      Assoc(FlattenAll(front), Flatten(last), [c]);
      Assoc([t.root], FlattenAll(t.kids), [c]);
    }
  }

  lemma {:induction false} InsertSpine(t: Tree, path: seq<Ref>, c: Ref)
    requires OnSpine(t, path)
    ensures OnSpine(Insert(t, path, c), path + [c])
    decreases |path|
  {
    if path == [] {
      assert (path + [c])[1..] == [];
    } else {
      InsertSpine(t.kids[|t.kids| - 1], path[1..], c);
      InsertAppends(t.kids[|t.kids| - 1], path[1..], c);
      assert (path + [c])[1..] == path[1..] + [c];
    }
  }

  lemma {:induction false} SpinePrefix(t: Tree, path: seq<Ref>, n: nat)
    requires OnSpine(t, path) && n <= |path|
    ensures OnSpine(t, path[..n])
    decreases n
  {
    if n > 0 {
      SpinePrefix(t.kids[|t.kids| - 1], path[1..], n - 1);
      assert path[..n][1..] == path[1..][..n - 1];
    }
  }

  // ------------------------------------------------------- keeping up with the document

  lemma KeptSnoc(refs: seq<Ref>, c: Ref, tables: bool)
    ensures Kept(refs + [c], tables) == Kept(refs, tables) + (if c.Tables? && !tables then [] else [c])
  {
    assert (refs + [c])[..|refs|] == refs;
  }

  lemma FlattenMember(ts: seq<Tree>, k: Tree, r: Ref)
    requires k in ts && r in Flatten(k)
    ensures r in FlattenAll(ts)
    decreases |ts|
  {
    var n := |ts| - 1;
    if k != ts[n] {
      FlattenMember(ts[..n], k, r);
    }
  }

  /** A change elsewhere does not concern the tree. */
  lemma {:induction false} MirrorsElsewhere(d: Document, d': Document, t: Tree, tables: bool)
    requires Mirrors(d, t, tables)
    requires forall r: Ref :: r in Flatten(t) ==> Kept(d'.Children(r), tables) == Kept(d.Children(r), tables)
    ensures Mirrors(d', t, tables)
    decreases t
  {
    forall k | k in t.kids ensures Mirrors(d', k, tables) {
      forall r: Ref | r in Flatten(k) ensures Kept(d'.Children(r), tables) == Kept(d.Children(r), tables) {
        FlattenMember(t.kids, k, r);
      }
      MirrorsElsewhere(d, d', k, tables);
    }
  }

  /** What is left of a duplicate-free walk when its last subtree is set aside. */
  lemma SplitLast(t: Tree)
    requires t.kids != [] && NoDuplicates(Flatten(t))
    ensures var n := |t.kids| - 1;
      && NoDuplicates(Flatten(t.kids[n]))
      && t.root !in Flatten(t.kids[n])
      && forall r :: r in FlattenAll(t.kids[..n]) ==> r !in Flatten(t.kids[n])
  {
    var n := |t.kids| - 1;
    var a, b := [t.root] + FlattenAll(t.kids[..n]), Flatten(t.kids[n]);
    Assoc([t.root], FlattenAll(t.kids[..n]), b);
    assert Flatten(t) == a + b;
    forall i, j | 0 <= i < j < |b| ensures b[i] != b[j] {
      assert (a + b)[|a| + i] != (a + b)[|a| + j];
    }
    forall i, j | 0 <= i < |a| && 0 <= j < |b| ensures a[i] != b[j] {
      assert (a + b)[i] != (a + b)[|a| + j];
    }
    assert a[0] == t.root;
    forall r | r in FlattenAll(t.kids[..n]) ensures r !in b {
      assert r in a;
    }
  }

  function End(t: Tree, path: seq<Ref>): Ref {
    if path == [] then t.root else path[|path| - 1]
  }

  lemma {:induction false} EndInTree(t: Tree, path: seq<Ref>)
    requires OnSpine(t, path)
    ensures End(t, path) in Flatten(t)
    decreases |path|
  {
    if path != [] {
      var last := t.kids[|t.kids| - 1];
      EndInTree(last, path[1..]);
      assert End(last, path[1..]) == End(t, path);
      FlattenMember(t.kids, last, End(t, path));
    }
  }

  /** The same tree with its last child replaced by one that mirrors too. */
  lemma MirrorsLast(d: Document, d': Document, t: Tree, last': Tree, p: Ref, c: Ref, tables: bool)
    requires Mirrors(d, t, tables) && t.kids != [] && NoDuplicates(Flatten(t))
    requires Adds(d, d', c, p) && p in Flatten(t.kids[|t.kids| - 1])
    requires Mirrors(d', last', tables) && last'.root == t.kids[|t.kids| - 1].root
    ensures Mirrors(d', Node(t.root, t.kids[..|t.kids| - 1] + [last']), tables)
  {
    var n := |t.kids| - 1;
    var front := t.kids[..n];
    var t' := Node(t.root, front + [last']);
    SplitLast(t);
    assert Roots(t'.kids) == Roots(t.kids);
    forall k | k in t'.kids ensures Mirrors(d', k, tables) {
      if k != last' {
        assert k in front;
        forall r: Ref | r in Flatten(k) ensures r != p {
          FlattenMember(front, k, r);
        }
        MirrorsElsewhere(d, d', k, tables);
      }
    }
  }

  lemma MirrorsHere(d: Document, d': Document, t: Tree, c: Ref, tables: bool)
    requires Mirrors(d, t, tables) && NoDuplicates(Flatten(t))
    requires Adds(d, d', c, t.root) && (c.Tables? ==> tables)
    ensures Mirrors(d', Node(t.root, t.kids + [Node(c, [])]), tables)
  {
    KeptSnoc(d.Children(t.root), c, tables);
    var leaf := Node(c, []);
    var t' := Node(t.root, t.kids + [leaf]);
    assert Roots(t'.kids) == Roots(t.kids) + [c];
    assert Mirrors(d', leaf, tables);
    forall k | k in t'.kids ensures Mirrors(d', k, tables) {
      if k in t.kids {
        KidsElsewhere(d, d', t, k, t.root, c, tables);
      }
    }
  }

  /** Linking a fresh item at the end of a spine path is inserting it there. */
  lemma {:induction false} MirrorsInsert(d: Document, d': Document, t: Tree, path: seq<Ref>, c: Ref, tables: bool)
    requires Mirrors(d, t, tables) && OnSpine(t, path) && NoDuplicates(Flatten(t))
    requires Adds(d, d', c, End(t, path)) && (c.Tables? ==> tables)
    ensures Mirrors(d', Insert(t, path, c), tables)
    decreases |path|
  {
    if path == [] {
      MirrorsHere(d, d', t, c, tables);
    } else {
      var last := t.kids[|t.kids| - 1];
      SplitLast(t);
      assert End(last, path[1..]) == End(t, path);
      EndInTree(last, path[1..]);
      MirrorsInsert(d, d', last, path[1..], c, tables);
      InsertAppends(last, path[1..], c);
      MirrorsLast(d, d', t, Insert(last, path[1..], c), End(t, path), c, tables);
    }
  }

  lemma KidsElsewhere(d: Document, d': Document, t: Tree, k: Tree, p: Ref, c: Ref, tables: bool)
    requires Mirrors(d, t, tables) && NoDuplicates(Flatten(t)) && k in t.kids && p == t.root
    requires Adds(d, d', c, p)
    ensures Mirrors(d', k, tables)
  {
    var f := Flatten(t);
    forall r: Ref | r in Flatten(k) ensures r != p {
      FlattenMember(t.kids, k, r);
      var i :| 0 <= i < |FlattenAll(t.kids)| && FlattenAll(t.kids)[i] == r;
      assert f[0] == p && f[i + 1] == r;
    }
    MirrorsElsewhere(d, d', k, tables);
  }

  /** The tree below a root is determined by the document. */
  lemma {:induction false} MirrorsUnique(d: Document, t: Tree, u: Tree, tables: bool)
    requires Mirrors(d, t, tables) && Mirrors(d, u, tables) && t.root == u.root
    ensures t == u
    decreases t
  {
    assert |t.kids| == |Roots(t.kids)| == |Roots(u.kids)| == |u.kids|;
    forall i | 0 <= i < |t.kids| ensures t.kids[i] == u.kids[i] {
      assert Roots(t.kids)[i] == Roots(u.kids)[i];
      MirrorsUnique(d, t.kids[i], u.kids[i], tables);
    }
  }

  // -------------------------------------------------------------- the fold's spine

  /** The chain new content can still hang off: open headers, then open lists. */
  function HeadingRefs(headings: seq<Heading>): seq<Ref> {
    seq(|headings|, i requires 0 <= i < |headings| => headings[i].ref)
  }

  function ListRefs(lists: seq<OpenList>): seq<Ref> {
    seq(|lists|, i requires 0 <= i < |lists| => lists[i].ref)
  }

  function Spine(f: State): seq<Ref> {
    HeadingRefs(f.headings) + ListRefs(f.lists)
  }

  /** An item the walk of the body is to visit. */
  predicate InBody(d: Document, r: Ref, tables: bool) {
    d.Has(r) && !r.Root() && !d.ParentOf(r).Furniture? && (r.Tables? ==> tables)
  }

  /** t is the body's tree, holds exactly the body's items, each once, and ends in
      the chain of what is open. */
  ghost predicate Grows(f: State, t: Tree, tables: bool) {
    && Holds(f.doc, t, tables)
    && OnSpine(t, Spine(f))
    && (tables && f.table.Some? ==> f.lists == [] && f.table.value.parent == CurrentParent(f.headings))
  }

  ghost predicate Holds(d: Document, t: Tree, tables: bool) {
    && t.root == Body
    && Mirrors(d, t, tables)
    && NoDuplicates(Flatten(t))
    && (forall r :: r in Flatten(t) <==> r == Body || InBody(d, r, tables))
  }

  lemma NoDuplicatesSnoc(s: seq<Ref>, c: Ref)
    requires NoDuplicates(s) && c !in s
    ensures NoDuplicates(s + [c])
  {
  }

  /** One new item under the end of a spine path. */
  lemma HoldsInsert(d: Document, d': Document, t: Tree, path: seq<Ref>, c: Ref, tables: bool)
    requires Holds(d, t, tables) && OnSpine(t, path) && (c.Tables? ==> tables)
    requires Adds(d, d', c, End(t, path)) && !End(t, path).Furniture?
    ensures Holds(d', Insert(t, path, c), tables)
    ensures OnSpine(Insert(t, path, c), path + [c])
    ensures Flatten(Insert(t, path, c)) == Flatten(t) + [c]
  {
    assert c !in Flatten(t);
    MirrorsInsert(d, d', t, path, c, tables);
    InsertAppends(t, path, c);
    InsertSpine(t, path, c);
    NoDuplicatesSnoc(Flatten(t), c);
  }

  /** One new item the walk does not visit: page chrome, or a table set aside. */
  lemma HoldsAside(d: Document, d': Document, t: Tree, c: Ref, p: Ref, tables: bool)
    requires Holds(d, t, tables) && Adds(d, d', c, p)
    requires p.Furniture? || (c.Tables? && !tables)
    ensures Holds(d', t, tables)
  {
    forall r: Ref | r in Flatten(t) ensures Kept(d'.Children(r), tables) == Kept(d.Children(r), tables) {
      if r == p {
        KeptSnoc(d.Children(p), c, tables);
      }
    }
    MirrorsElsewhere(d, d', t, tables);
    assert d'.ParentOf(c) == p;
  }

  lemma HoldsSame(d: Document, d': Document, t: Tree, tables: bool)
    requires Holds(d, t, tables) && SameLinks(d, d')
    ensures Holds(d', t, tables)
  {
    MirrorsElsewhere(d, d', t, tables);
  }

  lemma HeadingEnd(f: State, t: Tree)
    requires t.root == Body
    ensures End(t, HeadingRefs(f.headings)) == CurrentParent(f.headings)
  {
  }

  /** Ending the lists leaves the headers on the spine. */
  lemma SpineOfHeadings(f: State, t: Tree, tables: bool)
    requires Grows(f, t, tables)
    ensures OnSpine(t, HeadingRefs(f.headings)) && Grows(f.(lists := []), t, tables)
  {
    SpinePrefix(t, Spine(f), |f.headings|);
    assert Spine(f)[..|f.headings|] == HeadingRefs(f.headings);
    assert HeadingRefs(f.headings) + ListRefs([]) == HeadingRefs(f.headings);
  }

  lemma FewerHeadings(f: State, t: Tree, level: nat, tables: bool)
    requires Grows(f, t, tables) && !(tables && f.table.Some?)
    ensures OnSpine(t, HeadingRefs(CloseHeadings(f.headings, level)))
  {
    SpineOfHeadings(f, t, tables);
    CloseHeadingsPrefix(f.headings, level);
    var n := |CloseHeadings(f.headings, level)|;
    SpinePrefix(t, HeadingRefs(f.headings), n);
    assert HeadingRefs(f.headings)[..n] == HeadingRefs(CloseHeadings(f.headings, level));
  }

  lemma FewerLists(f: State, t: Tree, depth: nat, ordered: bool, tables: bool)
    requires Grows(f, t, tables)
    ensures Grows(f.(lists := CloseLists(f.lists, depth, ordered)), t, tables)
  {
    CloseListsPrefix(f.lists, depth, ordered);
    var g := f.(lists := CloseLists(f.lists, depth, ordered));
    SpinePrefix(t, Spine(f), |Spine(g)|);
    assert Spine(f)[..|Spine(g)|] == Spine(g);
  }

  // ---------------------------------------------------------------- event by event

  /** An item of this depth and kind finds no list open to go in. */
  predicate NeedsList(f: State, depth: nat, ordered: bool) {
    var lists := CloseLists(f.lists, depth, ordered);
    lists == [] || lists[|lists| - 1].depth < depth
  }

  /** The group a text item opens before itself, if any. */
  function ListMadeBy(f: State, item: TextEvent): seq<Ref> {
    if item.kind.ListItem? && NeedsList(f, item.Depth(), item.Ordered()) then [Groups(|f.doc.groups|)] else []
  }

  /** What a text item makes under the body: its list, if it opens one, and then itself.
      Page chrome hangs elsewhere. */
  function MadeByText(f: State, item: TextEvent): seq<Ref> {
    if item.Chrome() then []
    else ListMadeBy(f, item) + [Texts(|f.doc.texts|)]
  }

  /** The table still open, when it is to be visited. */
  function MadeByTable(f: State, tables: bool): seq<Ref> {
    if f.table.Some? && tables then [Tables(|f.doc.tables|)] else []
  }

  /** What an event makes under the body, in the order a walk visits it. */
  function MadeBy(f: State, e: Event, tables: bool): seq<Ref> {
    match e
    case Text(item) => if item.kind.Picture? then [Pictures(|f.doc.pictures|)] else MadeByText(f, item)
    case TableStart(_, caption, _) =>
      MadeByTable(f, tables) + (if caption.Some? && caption.value != "" then [Texts(|f.doc.texts|)] else [])
    case TableEnd(r) => if f.table.Some? && f.table.value.reference == r then MadeByTable(f, tables) else []
    case Fact(_, dimensions) =>
      (if f.factsTable.None? && tables then [Tables(|f.doc.tables|)] else [])
      + (if dimensions == [] then [] else [KeyValues(|f.doc.keyValues|)])
    case Citation(text, ordinal, id) => if text == "" then [] else MadeByText(f, CitationText(text, ordinal, id))
    case Footnote(text, name) => if text == "" then [] else MadeByText(f, FootnoteText(text, name))
    case HtmlIsland(_) => [Groups(|f.doc.groups|), Texts(|f.doc.texts|)]
    case _ => []
  }

  /** What a stream makes under the body, event after event. */
  function Made(events: seq<Event>, tables: bool): seq<Ref>
    decreases |events|
  {
    if events == [] then []
    else
      var front := events[..|events| - 1];
      Made(front, tables) + MadeBy(FoldAll(front), events[|events| - 1], tables)
  }

  /** One new item at the end of the spine, which the new state keeps open or not. */
  lemma ExtendSpine(f: State, t: Tree, g: State, c: Ref, tables: bool) returns (t': Tree)
    requires Grows(f, t, tables) && !(tables && f.table.Some?) && g.table == f.table
    requires Adds(f.doc, g.doc, c, End(t, Spine(f))) && !End(t, Spine(f)).Furniture? && (c.Tables? ==> tables)
    requires Spine(g) == Spine(f) || Spine(g) == Spine(f) + [c]
    ensures Grows(g, t', tables) && Flatten(t') == Flatten(t) + [c]
  {
    HoldsInsert(f.doc, g.doc, t, Spine(f), c, tables);
    t' := Insert(t, Spine(f), c);
    SpinePrefix(t', Spine(f) + [c], |Spine(f)|);
    assert (Spine(f) + [c])[..|Spine(f)|] == Spine(f);
  }

  lemma ListSpine(f: State, depth: nat, ordered: bool)
    ensures Spine(OpenListGroup(f, depth, ordered)) == Spine(f) + [Groups(|f.doc.groups|)]
  {
    var lists := f.lists + [OpenList(depth, ordered, Groups(|f.doc.groups|))];
    assert ListRefs(lists) == ListRefs(f.lists) + [Groups(|f.doc.groups|)];
    Assoc(HeadingRefs(f.headings), ListRefs(f.lists), [Groups(|f.doc.groups|)]);
  }

  /** Where a new list group hangs is the end of the spine too. */
  lemma SpineEndOfLists(f: State, t: Tree)
    requires t.root == Body
    ensures End(t, Spine(f)) == if f.lists == [] then CurrentParent(f.headings) else f.lists[|f.lists| - 1].ref
  {
    HeadingEnd(f, t);
    assert f.lists != [] ==> Spine(f)[|Spine(f)| - 1] == f.lists[|f.lists| - 1].ref;
    assert f.lists == [] ==> Spine(f) == HeadingRefs(f.headings);
  }

  lemma OpenListGroupGrows(f: State, t: Tree, depth: nat, ordered: bool, tables: bool) returns (t': Tree)
    requires Inv(f) && Grows(f, t, tables) && !(tables && f.table.Some?)
    ensures Grows(OpenListGroup(f, depth, ordered), t', tables)
    ensures Flatten(t') == Flatten(t) + [Groups(|f.doc.groups|)]
  {
    OpenListGroupInv(f, depth, ordered);
    CurrentParentIsContainer(f);
    SpineEndOfLists(f, t);
    ListSpine(f, depth, ordered);
    t' := ExtendSpine(f, t, OpenListGroup(f, depth, ordered), Groups(|f.doc.groups|), tables);
  }

  lemma ClosedListsInv(f: State, depth: nat, ordered: bool)
    requires Inv(f)
    ensures Inv(f.(lists := CloseLists(f.lists, depth, ordered)))
  {
    CloseListsPrefix(f.lists, depth, ordered);
  }

  lemma ListItemOpenedGrows(f: State, t: Tree, depth: nat, ordered: bool, tables: bool) returns (t': Tree)
    requires Inv(f) && Grows(f, t, tables) && !(tables && f.table.Some?)
    ensures Grows(EnsureList(f, depth, ordered), t', tables)
    ensures Flatten(t') == Flatten(t) + if NeedsList(f, depth, ordered) then [Groups(|f.doc.groups|)] else []
  {
    FewerLists(f, t, depth, ordered, tables);
    var closed := f.(lists := CloseLists(f.lists, depth, ordered));
    t' := t;
    if NeedsList(f, depth, ordered) {
      ClosedListsInv(f, depth, ordered);
      t' := OpenListGroupGrows(closed, t, depth, ordered, tables);
    } else {
      assert Flatten(t) + [] == Flatten(t);
    }
  }

  lemma HeaderOpenedGrows(f: State, t: Tree, level: nat, tables: bool)
    requires Grows(f, t, tables) && !(tables && f.table.Some?)
    ensures Grows(f.(headings := CloseHeadings(f.headings, level), lists := []), t, tables)
  {
    FewerHeadings(f, t, level, tables);
    var g := f.(headings := CloseHeadings(f.headings, level), lists := []);
    assert Spine(g) == HeadingRefs(g.headings);
  }

  lemma OpenedGrows(f: State, t: Tree, item: TextEvent, tables: bool) returns (t': Tree)
    requires Inv(f) && Grows(f, t, tables) && !(tables && f.table.Some?)
    ensures Grows(Opened(f, item), t', tables) && Flatten(t') == Flatten(t) + ListMadeBy(f, item)
    ensures !item.Chrome() && !item.kind.ListItem? ==> Opened(f, item).lists == []
  {
    t' := t;
    assert Flatten(t) + [] == Flatten(t);
    if item.Chrome() {
    } else if item.kind.ListItem? {
      t' := ListItemOpenedGrows(f, t, item.Depth(), item.Ordered(), tables);
    } else if item.kind.SectionHeader? {
      HeaderOpenedGrows(f, t, item.Level(), tables);
    } else {
      SpineOfHeadings(f, t, tables);
    }
  }

  lemma TextSpine(g: State, item: TextEvent)
    requires !item.kind.SectionHeader? || g.lists == []
    requires item.kind.ListItem? ==> g.lists != []
    ensures var h, self := PlaceText(g, item), Texts(|g.doc.texts|);
      && h.table == g.table
      && Spine(h) == if item.kind.SectionHeader? then Spine(g) + [self] else Spine(g)
  {
    if item.kind.SectionHeader? {
      var headings := g.headings + [Heading(item.Level(), Texts(|g.doc.texts|))];
      assert HeadingRefs(headings) == HeadingRefs(g.headings) + [Texts(|g.doc.texts|)];
      assert ListRefs([]) == [];
    }
  }

  lemma BodyTextGrows(g: State, t: Tree, item: TextEvent, tables: bool) returns (t': Tree)
    requires Inv(g) && Grows(g, t, tables) && !(tables && g.table.Some?)
    requires !item.Chrome() && (item.kind.ListItem? <==> g.lists != [])
    ensures Grows(PlaceText(g, item), t', tables) && Flatten(t') == Flatten(t) + [Texts(|g.doc.texts|)]
  {
    PlaceTextAdds(g, item);
    CurrentParentIsContainer(g);
    SpineEndOfLists(g, t);
    TextSpine(g, item);
    assert ParentFor(g, item) == End(t, Spine(g));
    t' := ExtendSpine(g, t, PlaceText(g, item), Texts(|g.doc.texts|), tables);
  }

  lemma ChromeGrows(g: State, t: Tree, item: TextEvent, tables: bool)
    requires Inv(g) && Grows(g, t, tables) && item.Chrome()
    ensures Grows(PlaceText(g, item), t, tables)
  {
    PlaceTextAdds(g, item);
    HoldsAside(g.doc, PlaceText(g, item).doc, t, Texts(|g.doc.texts|), Furniture, tables);
  }

  lemma PushTextGrows(f: State, t: Tree, item: TextEvent, tables: bool) returns (t': Tree)
    requires Inv(f) && Grows(f, t, tables) && !(tables && f.table.Some?)
    ensures Grows(PushText(f, item), t', tables) && Flatten(t') == Flatten(t) + MadeByText(f, item)
  {
    OpenedInv(f, item);
    OpenedMakesNoText(f, item);
    t' := OpenedGrows(f, t, item, tables);
    if item.Chrome() {
      ChromeGrows(Opened(f, item), t', item, tables);
    } else {
      Assoc(Flatten(t), ListMadeBy(f, item), [Texts(|f.doc.texts|)]);
      t' := BodyTextGrows(Opened(f, item), t', item, tables);
    }
  }

  lemma OpenedMakesNoText(f: State, item: TextEvent)
    ensures |Opened(f, item).doc.texts| == |f.doc.texts|
  {
  }

  /** An item that ends the lists and hangs off the innermost open header. */
  lemma LeafGrows(f: State, t: Tree, g: State, c: Ref, tables: bool) returns (t': Tree)
    requires Inv(f) && Grows(f, t, tables) && !(tables && f.table.Some?) && (c.Tables? ==> tables)
    requires g.headings == f.headings && g.lists == [] && g.table == f.table
    requires Adds(f.doc, g.doc, c, CurrentParent(f.headings))
    ensures Grows(g, t', tables) && Flatten(t') == Flatten(t) + [c]
    ensures OnSpine(t', HeadingRefs(g.headings) + [c])
  {
    SpineOfHeadings(f, t, tables);
    HeadingEnd(f, t);
    CurrentParentIsContainer(f);
    var path := HeadingRefs(f.headings);
    HoldsInsert(f.doc, g.doc, t, path, c, tables);
    t' := Insert(t, path, c);
    SpinePrefix(t', path + [c], |path|);
    assert (path + [c])[..|path|] == path;
    assert Spine(g) == path;
  }

  lemma SameGrows(f: State, g: State, t: Tree, tables: bool)
    requires Grows(f, t, tables) && SameLinks(f.doc, g.doc)
    requires g.headings == f.headings && g.lists == f.lists && g.table == f.table
    ensures Grows(g, t, tables)
  {
    HoldsSame(f.doc, g.doc, t, tables);
  }

  lemma OpenIslandGrows(f: State, t: Tree, tables: bool) returns (t': Tree)
    requires Inv(f) && Grows(f, t, tables) && !(tables && f.table.Some?)
    ensures Grows(OpenIsland(f), t', tables) && Flatten(t') == Flatten(t) + [Groups(|f.doc.groups|)]
    ensures OnSpine(t', HeadingRefs(f.headings) + [Groups(|f.doc.groups|)])
  {
    OpenIslandInv(f);
    t' := LeafGrows(f, t, OpenIsland(f), Groups(|f.doc.groups|), tables);
  }

  lemma OnHtmlIslandGrows(f: State, t: Tree, text: string, tables: bool) returns (t': Tree)
    requires Inv(f) && Grows(f, t, tables) && !(tables && f.table.Some?)
    ensures Grows(OnHtmlIsland(f, text), t', tables)
    ensures Flatten(t') == Flatten(t) + [Groups(|f.doc.groups|), Texts(|f.doc.texts|)]
  {
    var self, g := Groups(|f.doc.groups|), OpenIsland(f);
    OpenIslandInv(f);
    OpenIslandMakes(f);
    var u := OpenIslandGrows(f, t, tables);
    t' := FilledIslandGrows(g, u, self, text, tables);
    assert Flatten(t) + [self] + [Texts(|f.doc.texts|)] == Flatten(t) + [self, Texts(|f.doc.texts|)];
  }

  lemma FilledIslandGrows(g: State, t: Tree, self: Ref, text: string, tables: bool) returns (t': Tree)
    requires Inv(g) && Grows(g, t, tables) && g.lists == [] && g.doc.Container(self) && self.Groups?
    requires OnSpine(t, HeadingRefs(g.headings) + [self])
    ensures var h := PushIslandSource(g, self, text);
      Grows(h.(doc := h.doc.(attachments := h.doc.attachments + [self])), t', tables)
    ensures Flatten(t') == Flatten(t) + [Texts(|g.doc.texts|)]
  {
    t' := InsideLeafGrows(g, t, self, text, tables);
    AttachedGrows(g, t', self, text, tables);
  }

  lemma OpenIslandMakes(f: State)
    ensures OpenIsland(f).headings == f.headings && OpenIsland(f).lists == []
    ensures |OpenIsland(f).doc.texts| == |f.doc.texts|
  {
  }

  /** Attaching the placeholder changes no link. */
  lemma AttachedGrows(g: State, t: Tree, self: Ref, text: string, tables: bool)
    requires Inv(g) && g.lists == [] && g.doc.Container(self) && self.Groups?
    requires Grows(PushIslandSource(g, self, text), t, tables)
    ensures var h := PushIslandSource(g, self, text);
      Grows(h.(doc := h.doc.(attachments := h.doc.attachments + [self])), t, tables)
  {
    var h := PushIslandSource(g, self, text);
    PushIslandSourceInv(g, self, text);
    AttachInv(h, self);
    SameGrows(h, h.(doc := h.doc.(attachments := h.doc.attachments + [self])), t, tables);
  }

  /** The island's text goes inside the placeholder just made. */
  lemma InsideLeafGrows(g: State, t: Tree, group: Ref, text: string, tables: bool) returns (t': Tree)
    requires Inv(g) && Grows(g, t, tables) && g.lists == [] && g.doc.Container(group) && group.Groups?
    requires OnSpine(t, HeadingRefs(g.headings) + [group])
    ensures Grows(PushIslandSource(g, group, text), t', tables) && Flatten(t') == Flatten(t) + [Texts(|g.doc.texts|)]
  {
    var inner, path := Texts(|g.doc.texts|), HeadingRefs(g.headings) + [group];
    PushIslandSourceInv(g, group, text);
    var h := PushIslandSource(g, group, text);
    HoldsInsert(g.doc, h.doc, t, path, inner, tables);
    t' := Insert(t, path, inner);
    SpinePrefix(t', path + [inner], |g.headings|);
    assert (path + [inner])[..|g.headings|] == HeadingRefs(h.headings);
    NoListSpine(h);
  }

  lemma NoListSpine(f: State)
    requires f.lists == []
    ensures Spine(f) == HeadingRefs(f.headings)
  {
  }

  /** An open table takes its place: aside, or under the header it opened under. */
  lemma FinishTableGrows(f: State, t: Tree, tables: bool) returns (t': Tree)
    requires Inv(f) && Grows(f, t, tables)
    ensures Grows(FinishTable(f), t', tables) && Flatten(t') == Flatten(t) + MadeByTable(f, tables)
  {
    FinishTableInv(f);
    t' := t;
    assert Flatten(t) + [] == Flatten(t);
    if f.table.Some? {
      var p, g := f.table.value, f.(table := None);
      assert Grows(g, t, tables);
      AppendTableInv(g, p);
      var h, self := AppendTable(g, p), Tables(|f.doc.tables|);
      if tables {
        t' := LeafGrows(g, t, h, self, true);
      } else {
        HoldsAside(g.doc, h.doc, t, self, p.parent, false);
      }
    }
  }

  /** The table opens under the header open now, with the lists ended. */
  lemma OpenTableGrows(f: State, t: Tree, p: PendingTable, tables: bool)
    requires Grows(f, t, tables) && p.parent == CurrentParent(f.headings) && (tables ==> f.lists == [])
    ensures Grows(f.(table := Some(p)), t, tables)
  {
  }

  lemma OnTableStartGrows(
    f: State, t: Tree, tableRef: string, caption: Option<string>, id: Option<string>, tables: bool)
    returns (t': Tree)
    requires Inv(f) && Grows(f, t, tables)
    ensures Grows(OnTableStart(f, tableRef, caption, id), t', tables)
    ensures Flatten(t') == Flatten(t) + MadeBy(f, TableStart(tableRef, caption, id), tables)
  {
    hide PushText, Grows, Inv;
    var e, g := f.(lists := []), FinishTable(f.(lists := []));
    t' := EarlierTableGrows(f, t, e, g, tables);
    var h := g;
    if caption.Some? && caption.value != "" {
      h, t' := CaptionGrows(e, g, t', caption.value, tables);
      Assoc(Flatten(t), MadeByTable(f, tables), [Texts(|f.doc.texts|)]);
    } else {
      Assoc(Flatten(t), MadeByTable(f, tables), []);
    }
    OpenTableGrows(h, t', OnTableStart(f, tableRef, caption, id).table.value, tables);
  }

  /** A table start ends the lists, and a table still open takes its place. */
  lemma EarlierTableGrows(f: State, t: Tree, e: State, g: State, tables: bool) returns (t': Tree)
    requires Inv(f) && Grows(f, t, tables) && e == f.(lists := []) && g == FinishTable(e)
    ensures Inv(g) && g.table.None? && g.lists == [] && g.headings == f.headings && Grows(g, t', tables)
    ensures Flatten(t') == Flatten(t) + MadeByTable(f, tables)
  {
    SpineOfHeadings(f, t, tables);
    assert Inv(e);
    FinishTableInv(e);
    t' := FinishTableGrows(e, t, tables);
  }

  /** A table's caption is a text of its own, made before its table. */
  lemma CaptionGrows(e: State, g: State, t: Tree, text: string, tables: bool) returns (h: State, t': Tree)
    requires g == FinishTable(e) && Inv(g) && g.table.None? && g.lists == [] && Grows(g, t, tables)
    ensures h == PushText(g, CaptionText(text)) && h.lists == [] && Grows(h, t', tables)
    ensures Flatten(t') == Flatten(t) + [Texts(|e.doc.texts|)]
  {
    hide Grows, Inv, Opened;
    h := PushText(g, CaptionText(text));
    t' := PushTextGrows(g, t, CaptionText(text), tables);
    CaptionEndsLists(g, text);
    assert MadeByText(g, CaptionText(text)) == [] + [Texts(|g.doc.texts|)];
    assert |g.doc.texts| == |e.doc.texts|;
  }

  lemma CaptionEndsLists(g: State, text: string)
    ensures PushText(g, CaptionText(text)).lists == []
  {
  }

  lemma FactsTableGrows(f: State, t: Tree, tables: bool) returns (t': Tree)
    requires Inv(f) && Grows(f, t, tables) && !(tables && f.table.Some?)
    ensures Grows(EnsureFactsTable(f), t', tables)
    ensures Flatten(t') == Flatten(t) + if f.factsTable.None? && tables then [Tables(|f.doc.tables|)] else []
    ensures var g := EnsureFactsTable(f); Inv(g) && g.table == f.table && g.lists == []
  {
    SpineOfHeadings(f, t, tables);
    var e, g := f.(lists := []), EnsureFactsTable(f);
    assert Inv(e);
    t' := t;
    assert Flatten(t) + [] == Flatten(t);
    if f.factsTable.None? {
      OpenFactsTableInv(e);
      if tables {
        t' := LeafGrows(e, t, g, Tables(|f.doc.tables|), true);
      } else {
        HoldsAside(e.doc, g.doc, t, Tables(|f.doc.tables|), CurrentParent(e.headings), false);
      }
    }
  }

  lemma OnFactGrows(f: State, t: Tree, columns: FactColumns, dimensions: seq<(string, string)>, tables: bool)
    returns (t': Tree)
    requires Inv(f) && Grows(f, t, tables) && !(tables && f.table.Some?)
    ensures Grows(OnFact(f, columns, dimensions), t', tables)
    ensures Flatten(t') == Flatten(t) + MadeBy(f, Fact(columns, dimensions), tables)
  {
    hide PushDimensions, AddFactRow, Grows, Inv;
    var g := EnsureFactsTable(f);
    var u := FactsTableGrows(f, t, tables);
    FactsTableMakes(f);
    var ref := if dimensions == [] then None else Some(KeyValues(|g.doc.keyValues|));
    t' := FactRowGrows(g, u, g.factsTable.value, columns, dimensions, ref, tables);
    Assoc(Flatten(t), if f.factsTable.None? && tables then [Tables(|f.doc.tables|)] else [],
          if dimensions == [] then [] else [KeyValues(|f.doc.keyValues|)]);
  }

  lemma FactsTableMakes(f: State)
    ensures |EnsureFactsTable(f).doc.keyValues| == |f.doc.keyValues|
  {
  }

  lemma FactRowGrows(
    g: State, t: Tree, index: nat, columns: FactColumns, dimensions: seq<(string, string)>, ref: Option<Ref>,
    tables: bool) returns (t': Tree)
    requires Inv(g) && Grows(g, t, tables) && !(tables && g.table.Some?) && g.lists == []
    requires ref == if dimensions == [] then None else Some(KeyValues(|g.doc.keyValues|))
    ensures Grows(AddFactRow(PushDimensions(g, dimensions), index, columns, ref), t', tables)
    ensures Flatten(t') == Flatten(t) + if dimensions == [] then [] else [KeyValues(|g.doc.keyValues|)]
  {
    var h := PushDimensions(g, dimensions);
    t' := DimensionsGrow(g, t, dimensions, tables);
    PushDimensionsInv(g, dimensions);
    AddFactRowInv(h, index, columns, ref);
    SameGrows(h, AddFactRow(h, index, columns, ref), t', tables);
  }

  lemma DimensionsGrow(g: State, t: Tree, dimensions: seq<(string, string)>, tables: bool) returns (t': Tree)
    requires Inv(g) && Grows(g, t, tables) && !(tables && g.table.Some?) && g.lists == []
    ensures Grows(PushDimensions(g, dimensions), t', tables)
    ensures Flatten(t') == Flatten(t) + if dimensions == [] then [] else [KeyValues(|g.doc.keyValues|)]
  {
    t' := t;
    assert Flatten(t) + [] == Flatten(t);
    if dimensions != [] {
      PushDimensionsInv(g, dimensions);
      t' := LeafGrows(g, t, PushDimensions(g, dimensions), KeyValues(|g.doc.keyValues|), tables);
    }
  }

  /** Between a table's start and its end only rows arrive. */
  predicate Orderly(f: State, e: Event) {
    f.table.Some? ==> e.TableRow? || e.TableEnd? || e.TableStart?
  }

  /** Every event adds to the end of the walk, and to nowhere else, exactly what it makes,
      in one fixed order. */
  lemma ConsumeGrows(f: State, t: Tree, e: Event, tables: bool) returns (t': Tree)
    requires Inv(f) && Grows(f, t, tables) && (tables ==> Orderly(f, e))
    ensures Grows(Consume(f, e), t', tables) && Flatten(t') == Flatten(t) + MadeBy(f, e, tables)
  {
    t' := t;
    assert Flatten(t) + [] == Flatten(t);
    if e.Text? {
      if e.item.kind.Picture? {
        PushPictureInv(f, e.item);
        t' := LeafGrows(f, t, PushPicture(f, e.item), Pictures(|f.doc.pictures|), tables);
      } else {
        t' := PushTextGrows(f, t, e.item, tables);
      }
    } else if e.TableStart? {
      t' := OnTableStartGrows(f, t, e.tableRef, e.caption, e.elementId, tables);
    } else if e.TableRow? {
    } else if e.TableEnd? {
      if f.table.Some? && f.table.value.reference == e.tableRef {
        t' := FinishTableGrows(f, t, tables);
      }
    } else if e.Fact? {
      t' := OnFactGrows(f, t, e.columns, e.dimensions, tables);
    } else if e.Citation? {
      if e.text != "" {
        t' := PushTextGrows(f, t, CitationText(e.text, e.ordinal, e.elementId), tables);
      }
    } else if e.Footnote? {
      if e.text != "" {
        t' := PushTextGrows(f, t, FootnoteText(e.text, e.name), tables);
      }
    } else if e.HtmlIsland? {
      t' := OnHtmlIslandGrows(f, t, e.text, tables);
    }
  }

  lemma FreshGrows(tables: bool)
    ensures Grows(FRESH, Node(Body, []), tables)
  {
    FoldAllInv([]);
    assert Flatten(Node(Body, [])) == [Body];
    assert Roots([]) == [];
  }

  /** Only rows between a table start and its end, all along. */
  predicate AllOrderly(events: seq<Event>)
    decreases |events|
  {
    events == []
    || (AllOrderly(events[..|events| - 1]) && Orderly(FoldAll(events[..|events| - 1]), events[|events| - 1]))
  }

  /** The tree after a run, whose walk is all that the run made. */
  lemma {:induction false} FoldAllGrows(events: seq<Event>, tables: bool) returns (t: Tree)
    requires tables ==> AllOrderly(events)
    ensures Grows(FoldAll(events), t, tables) && Flatten(t) == [Body] + Made(events, tables)
    decreases |events|
  {
    if events == [] {
      FreshGrows(tables);
      t := Node(Body, []);
      assert [Body] + [] == [Body];
    } else {
      var front, e := events[..|events| - 1], events[|events| - 1];
      FoldAllInv(front);
      var u := FoldAllGrows(front, tables);
      t := ConsumeGrows(FoldAll(front), u, e, tables);
      Assoc([Body], Made(front, tables), MadeBy(FoldAll(front), e, tables));
    }
  }

  lemma TakenHolds(f: State, t: Tree, tables: bool) returns (t': Tree)
    requires Inv(f) && Grows(f, t, tables)
    ensures Holds(Taken(f), t', tables) && Flatten(t') == Flatten(t) + MadeByTable(f, tables)
  {
    t' := FinishTableGrows(f, t, tables);
    var g := FinishTable(f);
    PublishLinks(g.doc, g.anchors);
    HoldsSame(g.doc, Publish(g.doc, g.anchors), t', tables);
  }

  /** What was made by a front of the stream was made first. */
  lemma {:induction false} MadeFirst(events: seq<Event>, n: nat, tables: bool)
    requires n <= |events|
    ensures Made(events[..n], tables) <= Made(events, tables)
    decreases |events|
  {
    if n < |events| {
      var front := events[..|events| - 1];
      MadeFirst(front, n, tables);
      assert events[..n] == front[..n];
    } else {
      assert events[..n] == events;
    }
  }

  lemma {:induction false} FrontIsOrderly(events: seq<Event>, n: nat)
    requires n <= |events| && AllOrderly(events)
    ensures AllOrderly(events[..n])
    decreases |events|
  {
    if n < |events| {
      FrontIsOrderly(events[..|events| - 1], n);
      assert events[..n] == events[..|events| - 1][..n];
    } else {
      assert events[..n] == events;
    }
  }

  /** The finished document of any run is one tree under the body, and its preorder
      walk is exactly what the stream made under it, event after event and in a fixed
      order within each: a list before its item, an earlier table before the caption of
      the next, the fact table before a fact's dimensions, a placeholder before its
      text. Tables, which are leaves, are set aside; on a stream with only rows between
      a table's start and its end they fall in order too. */
  lemma WalkIsTheStream(events: seq<Event>, tables: bool) returns (walk: Tree)
    requires tables ==> AllOrderly(events)
    ensures walk.root == Body && Mirrors(Taken(FoldAll(events)), walk, tables)
    ensures Flatten(walk) == [Body] + Made(events, tables) + MadeByTable(FoldAll(events), tables)
    ensures NoDuplicates(Flatten(walk))
    ensures forall r :: r in Flatten(walk) <==> r == Body || InBody(Taken(FoldAll(events)), r, tables)
    ensures forall t: Tree :: t.root == Body && Mirrors(Taken(FoldAll(events)), t, tables) ==> t == walk
  {
    FoldAllInv(events);
    var before := FoldAllGrows(events, tables);
    walk := TakenHolds(FoldAll(events), before, tables);
    forall t: Tree | t.root == Body && Mirrors(Taken(FoldAll(events)), t, tables) ensures t == walk {
      MirrorsUnique(Taken(FoldAll(events)), t, walk, tables);
    }
  }

  /** What had been made after any part of the run is visited before everything made
      later: the walk of the document as it stood then comes first in the walk of the
      finished one. */
  lemma WalkFollowsTheStream(events: seq<Event>, n: nat, tables: bool) returns (before: Tree, after: Tree)
    requires n <= |events| && (tables ==> AllOrderly(events))
    ensures Mirrors(Taken(FoldAll(events)), after, tables) && after.root == Body
    ensures NoDuplicates(Flatten(after))
    ensures forall r :: r in Flatten(after) <==> r == Body || InBody(Taken(FoldAll(events)), r, tables)
    ensures Mirrors(FoldAll(events[..n]).doc, before, tables) && before.root == Body
    ensures forall r :: r in Flatten(before) <==> r == Body || InBody(FoldAll(events[..n]).doc, r, tables)
    ensures Flatten(before) <= Flatten(after)
    ensures forall t: Tree :: t.root == Body && Mirrors(Taken(FoldAll(events)), t, tables) ==> t == after
  {
    if tables {
      FrontIsOrderly(events, n);
    }
    FoldAllInv(events[..n]);
    before := FoldAllGrows(events[..n], tables);
    after := WalkIsTheStream(events, tables);
    MadeFirst(events, n, tables);
  }
}
