/** What every item of a document states is what its own event states: kind, layer,
    level, number, text, identifier and caption, told from the events' fields alone.
    So is which item answers to which identifier. */
module FoldStates {
  import opened Basics
  import opened Wrappers
  import opened Document
  import opened Grid
  import opened Fold

  // ------------------------------------------------------------- what events state

  /** What a text states besides its runs and its place. */
  datatype TextStated = TextStated(
    kind: Label, layer: Layer, level: nat, numbered: bool, text: string, id: Option<string>)

  /** A table's identifier, and its caption with the text that carries it. */
  datatype TableStated = TableStated(id: Option<string>, caption: Option<(nat, string)>)

  /** An item that enters its arena with an identifier. */
  datatype Entry = Entry(id: string, ref: Ref)

  /** What a stream has stated: its texts, pictures and tables in arena order, the table
      still open with its reference, whether facts have their table, which texts are
      islands', and the items with identifiers as they entered their arenas. */
  datatype Account = Account(
    texts: seq<TextStated>, pictures: seq<Option<string>>, tables: seq<TableStated>,
    open: Option<(string, TableStated)>, facts: bool, islands: seq<nat>, entries: seq<Entry>)
  {
    function Closed(): Account {
      if open.None? then this
      else this.(tables := tables + [open.value.1], open := None,
                 entries := Entered(entries, open.value.1.id, Tables(|tables|)))
    }

    function WithText(t: TextStated): Account {
      this.(texts := texts + [t], entries := Entered(entries, t.id, Texts(|texts|)))
    }
  }

  const NOTHING := Account([], [], [], None, false, [], [])

  function Entered(entries: seq<Entry>, id: Option<string>, ref: Ref): seq<Entry> {
    if id in {None, Some("")} then entries else entries + [Entry(id.value, ref)]
  }

  /** Body content with a text and perhaps an identifier. */
  function Plainly(kind: Label, text: string, id: Option<string>): TextStated {
    TextStated(kind, BodyLayer, 0, false, text, id)
  }

  /** What a text event calls for: page headers and footers are furniture, a section
      header keeps its level as far as 32 bits go, or stands at 1, and a list item is
      numbered when it says so or has a number. */
  function CalledFor(item: TextEvent): TextStated {
    var chrome := item.kind in {PageHeader, PageFooter};
    var level := if item.level == None then 1 else Min(item.level.value, 0x7FFF_FFFF);
    TextStated(
      item.kind, if chrome then FurnitureLayer else BodyLayer, if item.kind == SectionHeader then level else 0,
      item.kind == ListItem && (item.enumerated || item.ordinal != None), item.text, item.elementId)
  }

  /** What an event adds to the account. */
  function After(x: Account, e: Event): Account {
    match e
    case Text(item) =>
      if item.kind == Picture then
        x.(pictures := x.pictures + [item.elementId],
           entries := Entered(x.entries, item.elementId, Pictures(|x.pictures|)))
      else x.WithText(CalledFor(item))
    case TableStart(r, caption, id) =>
      var y := x.Closed();
      if caption in {None, Some("")} then y.(open := Some((r, TableStated(id, None))))
      else y.WithText(Plainly(Caption, caption.value, None)).(
        open := Some((r, TableStated(id, Some((|y.texts|, caption.value))))))
    case TableEnd(r) => if x.open.Some? && x.open.value.0 == r then x.Closed() else x
    case Fact(_, _) => if x.facts then x else x.(tables := x.tables + [TableStated(None, None)], facts := true)
    case Citation(text, _, id) => if text == "" then x else x.WithText(Plainly(Reference, text, id))
    case Footnote(text, name) =>
      if text == "" then x else x.WithText(Plainly(Label.Footnote, text, if name == "" then None else Some(name)))
    case HtmlIsland(text) => x.(islands := x.islands + [|x.texts|]).WithText(Plainly(Paragraph, text, None))
    case _ => x
  }

  function AccountOf(events: seq<Event>): Account
    decreases |events|
  {
    if events == [] then NOTHING else After(AccountOf(events[..|events| - 1]), events[|events| - 1])
  }

  // ------------------------------------------------------- a state that accounts for it

  function StatedBy(t: TextItem): TextStated {
    TextStated(t.kind, t.layer, t.level, t.enumerated, t.text, t.elementId)
  }

  predicate TextsState(texts: seq<TextItem>, stated: seq<TextStated>) {
    |texts| == |stated| && forall i :: 0 <= i < |texts| ==> StatedBy(texts[i]) == stated[i]
  }

  predicate PicturesState(pictures: seq<PictureItem>, stated: seq<Option<string>>) {
    |pictures| == |stated| && forall i :: 0 <= i < |pictures| ==> pictures[i].elementId == stated[i]
  }

  /** These are the identifier and the captions of what was stated. */
  predicate Shows(id: Option<string>, captions: seq<Ref>, stated: TableStated) {
    id == stated.id && captions == if stated.caption == None then [] else [Texts(stated.caption.value.0)]
  }

  predicate TablesState(tables: seq<TableItem>, stated: seq<TableStated>) {
    && |tables| == |stated|
    && (forall i :: 0 <= i < |tables| ==> Shows(tables[i].elementId, tables[i].captions, stated[i]))
  }

  /** Each island is attached by the placeholder its text hangs off. */
  predicate Attached(d: Document, islands: seq<nat>) {
    && |d.attachments| == |islands|
    && (forall i :: 0 <= i < |islands| ==>
          islands[i] < |d.texts| && d.attachments[i] == d.texts[islands[i]].parent)
  }

  predicate States(d: Document, x: Account) {
    && TextsState(d.texts, x.texts) && PicturesState(d.pictures, x.pictures)
    && TablesState(d.tables, x.tables) && Attached(d, x.islands)
  }

  predicate OpenStates(table: Option<PendingTable>, open: Option<(string, TableStated)>) {
    && (table.Some? <==> open.Some?)
    && (table.Some? ==>
          && table.value.reference == open.value.0
          && Shows(table.value.elementId, table.value.captions, open.value.1))
  }

  /** Which item each identifier belongs to: the first that entered with it. */
  function FirstOf(entries: seq<Entry>): map<string, Ref> {
    if entries == [] then map[]
    else
      var earlier, last := FirstOf(entries[..|entries| - 1]), entries[|entries| - 1];
      if last.id in earlier then earlier else earlier[last.id := last.ref]
  }

  predicate Accounts(f: State, x: Account) {
    && States(f.doc, x) && OpenStates(f.table, x.open) && f.factsTable.Some? == x.facts
    && f.anchors == FirstOf(x.entries)
  }

  lemma EnteredClaims(entries: seq<Entry>, id: Option<string>, ref: Ref)
    ensures FirstOf(Entered(entries, id, ref)) == ClaimAnchor(FirstOf(entries), id, ref)
  {
    if id !in {None, Some("")} {
      assert (entries + [Entry(id.value, ref)])[..|entries|] == entries;
    }
  }

  // ------------------------------------------------------------------- event by event

  lemma LinkStates(d: Document, p: Ref, c: Ref, x: Account)
    requires States(d, x)
    ensures States(d.LinkChild(p, c), x)
  {
  }

  lemma GroupStates(f: State, group: GroupItem, x: Account)
    requires States(f.doc, x)
    ensures States(f.doc.(groups := f.doc.groups + [group]).LinkChild(group.parent, group.selfRef), x)
  {
    LinkStates(f.doc.(groups := f.doc.groups + [group]), group.parent, group.selfRef, x);
  }

  lemma EnsureListAccounts(f: State, depth: nat, ordered: bool, x: Account)
    requires Accounts(f, x)
    ensures Accounts(EnsureList(f, depth, ordered), x)
  {
    hide States;
    var lists := CloseLists(f.lists, depth, ordered);
    var parent := if lists == [] then CurrentParent(f.headings) else lists[|lists| - 1].ref;
    GroupStates(f, GroupItem(Groups(|f.doc.groups|), parent, ListGroup(ordered), []), x);
  }

  lemma OpenedAccounts(f: State, item: TextEvent, x: Account)
    requires Accounts(f, x)
    ensures Accounts(Opened(f, item), x)
  {
    if item.kind.ListItem? {
      EnsureListAccounts(f, item.Depth(), item.Ordered(), x);
    }
  }

  /** One more text, with the identifier it states. */
  lemma TextStates(d: Document, t: TextItem, x: Account)
    requires States(d, x)
    ensures States(d.(texts := d.texts + [t]).LinkChild(t.parent, t.selfRef), x.WithText(StatedBy(t)))
  {
    LinkStates(d.(texts := d.texts + [t]), t.parent, t.selfRef, x.WithText(StatedBy(t)));
  }

  lemma NewTextStates(item: TextEvent, self: Ref, parent: Ref)
    ensures StatedBy(NewText(item, self, parent)) == CalledFor(item)
  {
  }

  lemma PlaceTextAccounts(g: State, item: TextEvent, x: Account)
    requires Accounts(g, x) && (item.kind.ListItem? ==> g.lists != [])
    ensures Accounts(PlaceText(g, item), x.WithText(CalledFor(item)))
  {
    var parent, self := ParentFor(g, item), Texts(|g.doc.texts|);
    NewTextStates(item, self, parent);
    TextStates(g.doc, NewText(item, self, parent), x);
    EnteredClaims(x.entries, item.elementId, self);
  }

  lemma PushTextAccounts(f: State, item: TextEvent, x: Account)
    requires Accounts(f, x)
    ensures Accounts(PushText(f, item), x.WithText(CalledFor(item)))
  {
    OpenedAccounts(f, item, x);
    PlaceTextAccounts(Opened(f, item), item, x);
  }

  lemma PictureAccounts(f: State, item: TextEvent, x: Account)
    requires Accounts(f, x) && item.kind.Picture?
    ensures Accounts(PushPicture(f, item), After(x, Event.Text(item)))
  {
    var parent, self := CurrentParent(f.headings), Pictures(|f.doc.pictures|);
    var m := f.doc.(pictures := f.doc.pictures + [PictureItem(self, parent, [], item.elementId, [])]);
    LinkStates(m, parent, self, After(x, Event.Text(item)));
    EnteredClaims(x.entries, item.elementId, self);
  }

  lemma FinishTableAccounts(f: State, x: Account)
    requires Accounts(f, x)
    ensures Accounts(FinishTable(f), x.Closed())
  {
    if f.table.Some? {
      var p, self := f.table.value, Tables(|f.doc.tables|);
      LinkStates(f.doc.(tables := f.doc.tables + [NewTable(self, p)]), p.parent, self, x.Closed());
      EnteredClaims(x.entries, p.elementId, self);
    }
  }

  lemma TableStartAccounts(f: State, e: Event, x: Account)
    requires e.TableStart? && Accounts(f, x)
    ensures Accounts(Consume(f, e), After(x, e))
  {
    hide PushText, FinishTable, States;
    FinishTableAccounts(f.(lists := []), x);
    var g, y := FinishTable(f.(lists := [])), x.Closed();
    if e.caption.Some? && e.caption.value != "" {
      CaptionAccounts(g, e.caption.value, y);
      var stated := TableStated(e.elementId, Some((|y.texts|, e.caption.value)));
      OpenAccounts(PushText(g, CaptionText(e.caption.value)), y.WithText(Plainly(Caption, e.caption.value, None)),
                   Consume(f, e), e.tableRef, stated);
    } else {
      OpenAccounts(g, y, Consume(f, e), e.tableRef, TableStated(e.elementId, None));
    }
  }

  lemma OpenAccounts(g: State, y: Account, k: State, tableRef: string, stated: TableStated)
    requires Accounts(g, y) && k.doc == g.doc && k.factsTable == g.factsTable && k.anchors == g.anchors
    requires OpenStates(k.table, Some((tableRef, stated)))
    ensures Accounts(k, y.(open := Some((tableRef, stated))))
  {
  }

  lemma CaptionAccounts(f: State, text: string, x: Account)
    requires Accounts(f, x)
    ensures Accounts(PushText(f, CaptionText(text)), x.WithText(Plainly(Caption, text, None)))
    ensures |f.doc.texts| == |x.texts|
  {
    hide PushText;
    assert CalledFor(CaptionText(text)) == Plainly(Caption, text, None);
    PushTextAccounts(f, CaptionText(text), x);
  }

  lemma TableRowAccounts(f: State, e: Event, x: Account)
    requires e.TableRow? && Accounts(f, x)
    ensures Accounts(Consume(f, e), x)
  {
  }

  lemma FactsTableAccounts(f: State, x: Account, columns: FactColumns, dimensions: seq<(string, string)>)
    requires Accounts(f, x)
    ensures Accounts(EnsureFactsTable(f), After(x, Fact(columns, dimensions)))
  {
    if f.factsTable.None? {
      var parent, n := CurrentParent(f.headings), |f.doc.tables|;
      var header := FactRow(0, FACT_HEADINGS, true, None);
      var table := TableItem(Tables(n), parent, [], None, [header], header, 1, 11, []);
      LinkStates(f.doc.(tables := f.doc.tables + [table]), parent, Tables(n), After(x, Fact(columns, dimensions)));
    }
  }

  lemma DimensionsAccount(f: State, dimensions: seq<(string, string)>, x: Account)
    requires Accounts(f, x)
    ensures Accounts(PushDimensions(f, dimensions), x)
  {
    var parent, self := CurrentParent(f.headings), KeyValues(|f.doc.keyValues|);
    var item := KeyValueItem(self, parent, dimensions, []);
    LinkStates(f.doc.(keyValues := f.doc.keyValues + [item]), parent, self, x);
  }

  lemma FactRowAccounts(f: State, index: nat, columns: FactColumns, ref: Option<Ref>, x: Account)
    requires Accounts(f, x)
    ensures Accounts(AddFactRow(f, index, columns, ref), x)
  {
  }

  lemma FactAccounts(f: State, e: Event, x: Account)
    requires e.Fact? && Accounts(f, x)
    ensures Accounts(Consume(f, e), After(x, e))
  {
    hide PushDimensions, AddFactRow, EnsureFactsTable, Accounts;
    var g, y := EnsureFactsTable(f), After(x, e);
    FactsTableAccounts(f, x, e.columns, e.dimensions);
    DimensionsAccount(g, e.dimensions, y);
    var ref := if e.dimensions == [] then None else Some(KeyValues(|g.doc.keyValues|));
    FactRowAccounts(PushDimensions(g, e.dimensions), g.factsTable.value, e.columns, ref, y);
  }

  lemma IslandAccounts(f: State, text: string, x: Account)
    requires Accounts(f, x)
    ensures Accounts(OnHtmlIsland(f, text), After(x, HtmlIsland(text)))
  {
    var parent, self, g := CurrentParent(f.headings), Groups(|f.doc.groups|), OpenIsland(f);
    GroupStates(f, GroupItem(self, parent, IslandGroup, []), x);
    var t := TextItem(Texts(|g.doc.texts|), self, BodyLayer, Paragraph, 0, false, text, None, [], []);
    TextStates(g.doc, t, x);
    AttachedMore(PushIslandSource(g, self, text).doc, x.islands, |g.doc.texts|, self);
  }

  lemma AttachedMore(d: Document, islands: seq<nat>, n: nat, self: Ref)
    requires Attached(d, islands) && n < |d.texts| && d.texts[n].parent == self
    ensures Attached(d.(attachments := d.attachments + [self]), islands + [n])
  {
  }

  lemma ConsumeAccounts(f: State, e: Event, x: Account)
    requires Accounts(f, x)
    ensures Accounts(Consume(f, e), After(x, e))
  {
    hide Accounts, PushText, PushPicture, FinishTable;
    if e.Text? {
      if e.item.kind.Picture? {
        PictureAccounts(f, e.item, x);
      } else {
        PushTextAccounts(f, e.item, x);
      }
    } else if e.TableStart? {
      TableStartAccounts(f, e, x);
    } else if e.TableRow? {
      TableRowAccounts(f, e, x);
    } else if e.TableEnd? {
      TableEndAccounts(f, e, x);
    } else if e.Fact? {
      FactAccounts(f, e, x);
    } else if e.Citation? {
      PushTextAccounts(f, CitationText(e.text, e.ordinal, e.elementId), x);
    } else if e.Footnote? {
      PushTextAccounts(f, FootnoteText(e.text, e.name), x);
    } else if e.HtmlIsland? {
      IslandAccounts(f, e.text, x);
    }
  }

  lemma TableEndAccounts(f: State, e: Event, x: Account)
    requires e.TableEnd? && Accounts(f, x)
    ensures Accounts(Consume(f, e), After(x, e))
  {
    FinishTableAccounts(f, x);
  }

  lemma {:induction false} FoldAllAccounts(events: seq<Event>)
    ensures Accounts(FoldAll(events), AccountOf(events))
    decreases |events|
  {
    if events != [] {
      var before := events[..|events| - 1];
      FoldAllAccounts(before);
      ConsumeAccounts(FoldAll(before), events[|events| - 1], AccountOf(before));
    }
  }

  // -------------------------------------------------------------- the finished document

  /** A caption a table states is the caption text it was made of. */
  predicate Captioned(texts: seq<TextStated>, stated: TableStated) {
    stated.caption.Some? ==>
      var (k, text) := stated.caption.value;
      k < |texts| && texts[k] == Plainly(Caption, text, None)
  }

  predicate AllCaptioned(x: Account) {
    && (forall i :: 0 <= i < |x.tables| ==> Captioned(x.texts, x.tables[i]))
    && (x.open.Some? ==> Captioned(x.texts, x.open.value.1))
  }

  lemma WithTextCaptioned(x: Account, t: TextStated)
    requires AllCaptioned(x)
    ensures AllCaptioned(x.WithText(t))
  {
    forall i | 0 <= i < |x.tables| ensures Captioned(x.WithText(t).texts, x.tables[i]) {
      assert Captioned(x.texts, x.tables[i]);
    }
  }

  lemma AfterCaptioned(x: Account, e: Event)
    requires AllCaptioned(x)
    ensures AllCaptioned(After(x, e))
  {
    if e.TableStart? {
      if e.caption.Some? {
        WithTextCaptioned(x.Closed(), Plainly(Caption, e.caption.value, None));
      }
    } else if After(x, e).texts != x.texts {
      WithTextCaptioned(x, After(x, e).texts[|x.texts|]);
    }
  }

  lemma {:induction false} AccountCaptioned(events: seq<Event>)
    ensures AllCaptioned(AccountOf(events))
    decreases |events|
  {
    if events != [] {
      AccountCaptioned(events[..|events| - 1]);
      AfterCaptioned(AccountOf(events[..|events| - 1]), events[|events| - 1]);
    }
  }

  /** A finished document states what was stated, and its identifiers belong to the
      items that first entered with them. */
  predicate StatesAll(d: Document, x: Account) {
    States(d, x) && AllCaptioned(x) && d.anchors == FirstOf(x.entries)
  }

  lemma PublishedStates(g: State, x: Account)
    requires Accounts(g, x)
    ensures States(Publish(g.doc, g.anchors), x)
  {
    var d := Publish(g.doc, g.anchors);
    forall i | 0 <= i < |d.texts|
      ensures StatedBy(d.texts[i]) == x.texts[i] && d.texts[i].parent == g.doc.texts[i].parent
    {
      assert d.texts[i] == ResolveText(g.anchors, g.doc.texts[i]);
    }
    forall i | 0 <= i < |d.tables| ensures Shows(d.tables[i].elementId, d.tables[i].captions, x.tables[i]) {
      assert d.tables[i] == ResolveTable(g.anchors, g.doc.tables[i]);
    }
  }

  /** In the finished document of any stream every text, picture and table states what
      its own event states, identifier and caption included: a table has exactly the
      caption its start states, as the one text made of it, or none. */
  lemma ItemsStateTheirEvents(events: seq<Event>)
    ensures StatesAll(Taken(FoldAll(events)), AccountOf(events).Closed())
  {
    FoldAllAccounts(events);
    FinishTableAccounts(FoldAll(events), AccountOf(events));
    PublishedStates(FinishTable(FoldAll(events)), AccountOf(events).Closed());
    AccountCaptioned(events);
  }

  /** The i-th entry is the first with its identifier. */
  predicate Earliest(entries: seq<Entry>, i: nat) {
    i < |entries| && forall j :: 0 <= j < i ==> entries[j].id != entries[i].id
  }

  lemma {:induction false} FirstOfIsFirst(entries: seq<Entry>, i: nat)
    requires i < |entries|
    ensures entries[i].id in FirstOf(entries)
    ensures Earliest(entries, i) ==> FirstOf(entries)[entries[i].id] == entries[i].ref
    decreases |entries|
  {
    var n := |entries| - 1;
    if i < n {
      FirstOfIsFirst(entries[..n], i);
    } else if entries[n].id in FirstOf(entries[..n]) {
      var j := FirstOfHas(entries[..n], entries[n].id);
    }
  }

  lemma {:induction false} FirstOfHas(entries: seq<Entry>, k: string) returns (i: nat)
    requires k in FirstOf(entries)
    ensures Earliest(entries, i) && entries[i].id == k
    decreases |entries|
  {
    var n := |entries| - 1;
    if k in FirstOf(entries[..n]) {
      i := FirstOfHas(entries[..n], k);
    } else {
      i := n;
      forall j | 0 <= j < n ensures entries[j].id != k {
        FirstOfIsFirst(entries[..n], j);
      }
    }
  }

  /** An event states this identifier for the item it makes. */
  predicate Identifies(e: Event, k: string) {
    && k != ""
    && match e
       case Text(item) => item.elementId == Some(k)
       case TableStart(_, _, id) => id == Some(k)
       case Citation(text, _, id) => text != "" && id == Some(k)
       case Footnote(text, name) => text != "" && name == k
       case _ => false
  }

  predicate Entering(entries: seq<Entry>, k: string) {
    exists i :: 0 <= i < |entries| && entries[i].id == k
  }

  predicate Awaited(x: Account, k: string) {
    Entering(x.entries, k) || (k != "" && x.open.Some? && x.open.value.1.id == Some(k))
  }

  lemma EnteredEnters(entries: seq<Entry>, id: Option<string>, ref: Ref, k: string)
    ensures Entering(Entered(entries, id, ref), k) <==> Entering(entries, k) || (k != "" && id == Some(k))
  {
    var more := Entered(entries, id, ref);
    if Entering(entries, k) {
      var i :| 0 <= i < |entries| && entries[i].id == k;
      assert more[i].id == k;
    }
    if k != "" && id == Some(k) {
      assert more[|entries|].id == k;
    }
  }

  lemma ClosedAwaits(x: Account, k: string)
    ensures Entering(x.Closed().entries, k) <==> Awaited(x, k)
    ensures Awaited(x.Closed(), k) <==> Awaited(x, k)
  {
    if x.open.Some? {
      EnteredEnters(x.entries, x.open.value.1.id, Tables(|x.tables|), k);
    }
  }

  lemma AfterAwaits(x: Account, e: Event, k: string)
    ensures Awaited(After(x, e), k) <==> Awaited(x, k) || Identifies(e, k)
  {
    ClosedAwaits(x, k);
    if e.Text? && e.item.kind == Picture {
      EnteredEnters(x.entries, e.item.elementId, Pictures(|x.pictures|), k);
    } else if e.Text? {
      EnteredEnters(x.entries, e.item.elementId, Texts(|x.texts|), k);
    } else if e.Citation? {
      EnteredEnters(x.entries, e.elementId, Texts(|x.texts|), k);
    } else if e.Footnote? {
      EnteredEnters(x.entries, if e.name == "" then None else Some(e.name), Texts(|x.texts|), k);
    }
  }

  lemma {:induction false} AccountAwaits(events: seq<Event>, k: string)
    ensures Awaited(AccountOf(events), k) <==> exists i :: 0 <= i < |events| && Identifies(events[i], k)
    decreases |events|
  {
    if events != [] {
      var n := |events| - 1;
      var before := events[..n];
      AccountAwaits(before, k);
      AfterAwaits(AccountOf(before), events[n], k);
      if Awaited(AccountOf(before), k) {
        var i :| 0 <= i < |before| && Identifies(before[i], k);
        assert Identifies(events[i], k);
      }
      forall i | 0 <= i < |events| && Identifies(events[i], k) ensures Awaited(AccountOf(events), k) {
        assert i < n ==> Identifies(before[i], k);
      }
    }
  }

  /** A name has an anchor if and only if some event states it for the item it makes,
      and the anchor is the first such item to enter its arena. */
  lemma AnchorsAreStated(events: seq<Event>, k: string)
    ensures var anchors, entries := Taken(FoldAll(events)).anchors, AccountOf(events).Closed().entries;
      && (k in anchors <==> exists i :: 0 <= i < |events| && Identifies(events[i], k))
      && (forall i :: 0 <= i < |entries| && entries[i].id == k && Earliest(entries, i) ==>
            k in anchors && anchors[k] == entries[i].ref)
  {
    var anchors, entries := Taken(FoldAll(events)).anchors, AccountOf(events).Closed().entries;
    ItemsStateTheirEvents(events);
    AccountAwaits(events, k);
    ClosedAwaits(AccountOf(events), k);
    if k in anchors {
      var i := FirstOfHas(entries, k);
    }
    forall i | 0 <= i < |entries| && entries[i].id == k
      ensures k in anchors && (Earliest(entries, i) ==> anchors[k] == entries[i].ref)
    {
      FirstOfIsFirst(entries, i);
    }
  }
}
