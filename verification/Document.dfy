/** The Document plane as the fold builds it: arenas of items that name each
    other by reference, and how an item is found and linked by its reference. */
module Document {
  import opened Wrappers

  /** A reference, `#/body`, `#/texts/0` and so on, by what it denotes. */
  datatype Ref =
    | Body
    | Furniture
    | Groups(n: nat)
    | Texts(n: nat)
    | Tables(n: nat)
    | Pictures(n: nat)
    | KeyValues(n: nat)
  {
    predicate Root() {
      Body? || Furniture?
    }
  }

  datatype Layer = BodyLayer | FurnitureLayer

  datatype Label =
    | Paragraph | Title | SectionHeader | ListItem | Code | Formula | Caption
    | Footnote | Reference | PageHeader | PageFooter | Picture | OtherLabel(code: nat)

  /** Where a cross-reference points: at a source name nothing has answered to
      yet, or at an item. */
  datatype Target = Key(name: string) | Item(ref: Ref)

  datatype Span = Span(
    start: nat, end: nat, styled: bool, hyperlink: Option<string>,
    reference: Option<string>, target: Option<Target>)

  datatype TextItem = TextItem(
    selfRef: Ref, parent: Ref, layer: Layer, kind: Label, level: nat, enumerated: bool,
    text: string, elementId: Option<string>, spans: seq<Span>, children: seq<Ref>)

  datatype GroupKind = ListGroup(ordered: bool) | IslandGroup

  datatype GroupItem = GroupItem(selfRef: Ref, parent: Ref, kind: GroupKind, children: seq<Ref>)

  datatype PictureItem = PictureItem(
    selfRef: Ref, parent: Ref, captions: seq<Ref>, elementId: Option<string>, children: seq<Ref>)

  datatype KeyValueItem = KeyValueItem(selfRef: Ref, parent: Ref, pairs: seq<(string, string)>, children: seq<Ref>)

  datatype Cell = Cell(
    rowSpan: nat, colSpan: nat, startRow: nat, endRow: nat, startCol: nat, endCol: nat,
    text: string, header: bool, spans: seq<Span>, ref: Option<Ref>)

  datatype TableItem = TableItem(
    selfRef: Ref, parent: Ref, captions: seq<Ref>, elementId: Option<string>,
    grid: seq<seq<Cell>>, cells: seq<Cell>, numRows: nat, numCols: nat, children: seq<Ref>)

  datatype Document = Document(
    body: seq<Ref>, furniture: seq<Ref>,
    groups: seq<GroupItem>, texts: seq<TextItem>, tables: seq<TableItem>,
    pictures: seq<PictureItem>, keyValues: seq<KeyValueItem>,
    attachments: seq<Ref>, anchors: map<string, Ref>)
  {
    /** A root, or an item that is in its arena. */
    predicate Has(r: Ref) {
      match r
      case Body => true
      case Furniture => true
      case Groups(n) => n < |groups|
      case Texts(n) => n < |texts|
      case Tables(n) => n < |tables|
      case Pictures(n) => n < |pictures|
      case KeyValues(n) => n < |keyValues|
    }

    function ParentOf(r: Ref): Ref
      requires Has(r) && !r.Root()
    {
      match r
      case Groups(n) => groups[n].parent
      case Texts(n) => texts[n].parent
      case Tables(n) => tables[n].parent
      case Pictures(n) => pictures[n].parent
      case KeyValues(n) => keyValues[n].parent
    }

    function SelfOf(r: Ref): Ref
      requires Has(r) && !r.Root()
    {
      match r
      case Groups(n) => groups[n].selfRef
      case Texts(n) => texts[n].selfRef
      case Tables(n) => tables[n].selfRef
      case Pictures(n) => pictures[n].selfRef
      case KeyValues(n) => keyValues[n].selfRef
    }

    /** The children an item lists. */
    function Children(r: Ref): seq<Ref> {
      match r
      case Body => body
      case Furniture => furniture
      case Groups(n) => if n < |groups| then groups[n].children else []
      case Texts(n) => if n < |texts| then texts[n].children else []
      case Tables(n) => if n < |tables| then tables[n].children else []
      case Pictures(n) => if n < |pictures| then pictures[n].children else []
      case KeyValues(n) => if n < |keyValues| then keyValues[n].children else []
    }

    /** What the fold ever makes a parent. */
    predicate Container(r: Ref) {
      match r
      case Body => true
      case Furniture => true
      case Groups(n) => n < |groups|
      case Texts(n) => n < |texts| && texts[n].kind.SectionHeader?
      case _ => false
    }

    /** The parent's half of a link: the parent lists the child. A reference that
        is no container is left alone. */
    function LinkChild(parent: Ref, child: Ref): Document {
      match parent
      case Body => this.(body := body + [child])
      case Furniture => this.(furniture := furniture + [child])
      case Groups(n) =>
        if n < |groups| then
          this.(groups := groups[n := groups[n].(children := groups[n].children + [child])])
        else this
      case Texts(n) =>
        if n < |texts| && texts[n].kind.SectionHeader? then
          this.(texts := texts[n := texts[n].(children := texts[n].children + [child])])
        else this
      case _ => this
    }
  }

  /** Every reference of a list resolves. */
  ghost predicate AllIn(d: Document, refs: seq<Ref>) {
    forall i :: 0 <= i < |refs| ==> d.Has(refs[i])
  }

  /** Every cell that points at an item points at one there is. */
  ghost predicate CellRefsIn(d: Document, cells: seq<Cell>) {
    forall i :: 0 <= i < |cells| ==> cells[i].ref.Some? ==> d.Has(cells[i].ref.value)
  }

  const EMPTY := Document([], [], [], [], [], [], [], [], map[])

  /** d' is d with one new childless item, linked both ways under p. */
  ghost predicate Adds(d: Document, d': Document, c: Ref, p: Ref) {
    && !d.Has(c) && d'.Has(c) && d.Container(p)
    && d'.SelfOf(c) == c && d'.ParentOf(c) == p && d'.Children(c) == []
    && (forall r: Ref :: d.Has(r) ==> d'.Has(r))
    && (forall r: Ref :: d'.Has(r) && r != c ==> d.Has(r))
    && (forall r: Ref :: d.Has(r) && !r.Root() ==> d'.SelfOf(r) == d.SelfOf(r) && d'.ParentOf(r) == d.ParentOf(r))
    && (forall r: Ref :: d.Container(r) ==> d'.Container(r))
    && (forall r: Ref :: r != p ==> d'.Children(r) == d.Children(r))
    && d'.Children(p) == d.Children(p) + [c]
  }

  /** d' differs from d in nothing that links items. */
  ghost predicate SameLinks(d: Document, d': Document) {
    && (forall r: Ref :: d'.Has(r) <==> d.Has(r))
    && (forall r: Ref :: d.Has(r) && !r.Root() ==> d'.SelfOf(r) == d.SelfOf(r) && d'.ParentOf(r) == d.ParentOf(r))
    && (forall r: Ref :: d.Container(r) <==> d'.Container(r))
    && (forall r: Ref :: d'.Children(r) == d.Children(r))
  }

  /** d' is d with one new childless item that names p its parent; p does not list
      it yet. */
  ghost predicate Appends(d: Document, d': Document, c: Ref, p: Ref) {
    && !d.Has(c) && d'.Has(c) && d.Container(p)
    && d'.SelfOf(c) == c && d'.ParentOf(c) == p && d'.Children(c) == []
    && (forall r: Ref :: d.Has(r) ==> d'.Has(r))
    && (forall r: Ref :: d'.Has(r) && r != c ==> d.Has(r))
    && (forall r: Ref :: d.Has(r) && !r.Root() ==> d'.SelfOf(r) == d.SelfOf(r) && d'.ParentOf(r) == d.ParentOf(r))
    && (forall r: Ref :: d.Container(r) ==> d'.Container(r))
    && (forall r: Ref :: d'.Children(r) == d.Children(r))
  }

  /** A link changes the children of its parent, and nothing else. */
  lemma LinkIsLocal(m: Document, p: Ref, c: Ref)
    requires m.Container(p)
    ensures var d := m.LinkChild(p, c);
      && (forall r: Ref :: d.Has(r) <==> m.Has(r)) && (forall r: Ref :: m.Container(r) ==> d.Container(r))
      && (forall r: Ref :: m.Has(r) && !r.Root() ==> d.SelfOf(r) == m.SelfOf(r) && d.ParentOf(r) == m.ParentOf(r))
  {
  }

  lemma LinkedChildren(m: Document, p: Ref, c: Ref)
    requires m.Container(p)
    ensures var d := m.LinkChild(p, c);
      (forall r: Ref :: r != p ==> d.Children(r) == m.Children(r)) && d.Children(p) == m.Children(p) + [c]
  {
  }

  lemma LinkAdds(d: Document, m: Document, c: Ref, p: Ref)
    requires Appends(d, m, c, p)
    ensures Adds(d, m.LinkChild(p, c), c, p)
  {
    assert m.Container(p) && p != c;
    LinkIsLocal(m, p, c);
    LinkedChildren(m, p, c);
  }

  lemma TextAdds(d: Document, t: TextItem)
    requires d.Container(t.parent) && t.selfRef == Texts(|d.texts|) && t.children == []
    ensures Adds(d, d.(texts := d.texts + [t]).LinkChild(t.parent, t.selfRef), t.selfRef, t.parent)
  {
    var m := d.(texts := d.texts + [t]);
    assert Appends(d, m, t.selfRef, t.parent);
    LinkAdds(d, m, t.selfRef, t.parent);
  }

  lemma GroupAdds(d: Document, g: GroupItem)
    requires d.Container(g.parent) && g.selfRef == Groups(|d.groups|) && g.children == []
    ensures Adds(d, d.(groups := d.groups + [g]).LinkChild(g.parent, g.selfRef), g.selfRef, g.parent)
  {
    var m := d.(groups := d.groups + [g]);
    assert Appends(d, m, g.selfRef, g.parent);
    LinkAdds(d, m, g.selfRef, g.parent);
  }

  lemma TableAdds(d: Document, t: TableItem)
    requires d.Container(t.parent) && t.selfRef == Tables(|d.tables|) && t.children == []
    ensures Adds(d, d.(tables := d.tables + [t]).LinkChild(t.parent, t.selfRef), t.selfRef, t.parent)
  {
    var m := d.(tables := d.tables + [t]);
    assert Appends(d, m, t.selfRef, t.parent);
    LinkAdds(d, m, t.selfRef, t.parent);
  }

  lemma PictureAdds(d: Document, p: PictureItem)
    requires d.Container(p.parent) && p.selfRef == Pictures(|d.pictures|) && p.children == []
    ensures Adds(d, d.(pictures := d.pictures + [p]).LinkChild(p.parent, p.selfRef), p.selfRef, p.parent)
  {
    var m := d.(pictures := d.pictures + [p]);
    assert Appends(d, m, p.selfRef, p.parent);
    LinkAdds(d, m, p.selfRef, p.parent);
  }

  lemma KeyValueAdds(d: Document, k: KeyValueItem)
    requires d.Container(k.parent) && k.selfRef == KeyValues(|d.keyValues|) && k.children == []
    ensures Adds(d, d.(keyValues := d.keyValues + [k]).LinkChild(k.parent, k.selfRef), k.selfRef, k.parent)
  {
    var m := d.(keyValues := d.keyValues + [k]);
    assert Appends(d, m, k.selfRef, k.parent);
    LinkAdds(d, m, k.selfRef, k.parent);
  }
}
