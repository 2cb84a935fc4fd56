/** The merge contract as the program checks it: one walk over a document's
    references, gathering which exist, who lists whom and who claims whom. */
module Integrity {
  import opened Document

  datatype Error =
    | WrongPosition(selfRef: Ref, expected: Ref)
    | Duplicate(selfRef: Ref)
    | UnresolvedChild(child: Ref, parent: Ref)
    | UnresolvedParent(child: Ref, parent: Ref)
    | Unlisted(child: Ref, parent: Ref)
    | UnresolvedCell(target: Ref)
    | UnresolvedAttachment(target: Ref)
    | UnresolvedCaption(caption: Ref, owner: Ref)

  // --------------------------------------------------------- what the check means

  ghost predicate IsItem(d: Document, r: Ref) {
    d.Has(r) && !r.Root()
  }

  /** Every reference is dense and unique, resolves, and is reciprocated. */
  ghost predicate Sound(d: Document) {
    && Positioned(d)
    && ChildrenResolve(d)
    && ParentsReciprocate(d)
    && TargetsResolve(d)
  }

  ghost predicate Positioned(d: Document) {
    forall r: Ref :: IsItem(d, r) ==> d.SelfOf(r) == r
  }

  ghost predicate ChildrenResolve(d: Document) {
    forall p: Ref, c: Ref :: d.Has(p) && c in d.Children(p) ==> d.Has(c)
  }

  ghost predicate ParentsReciprocate(d: Document) {
    forall r: Ref :: IsItem(d, r) ==> d.Has(d.ParentOf(r)) && r in d.Children(d.ParentOf(r))
  }

  ghost predicate TargetsResolve(d: Document) {
    && (forall i :: 0 <= i < |d.tables| ==> CellRefsIn(d, d.tables[i].cells))
    && AllIn(d, d.attachments)
    && (forall i :: 0 <= i < |d.tables| ==> AllIn(d, d.tables[i].captions))
    && (forall i :: 0 <= i < |d.pictures| ==> AllIn(d, d.pictures[i].captions))
  }

  function AsSet(refs: seq<Ref>): set<Ref> {
    set r | r in refs
  }

  /** How far a walk has come in each arena. */
  datatype Bounds = Bounds(groups: nat, texts: nat, pictures: nat, tables: nat, keyValues: nat) {
    predicate Within(r: Ref) {
      match r
      case Body => false
      case Furniture => false
      case Groups(n) => n < groups
      case Texts(n) => n < texts
      case Pictures(n) => n < pictures
      case Tables(n) => n < tables
      case KeyValues(n) => n < keyValues
    }
  }

  const NOTHING := Bounds(0, 0, 0, 0, 0)

  function Everything(d: Document): Bounds {
    Bounds(|d.groups|, |d.texts|, |d.pictures|, |d.tables|, |d.keyValues|)
  }

  predicate Reciprocated(link: (Ref, Ref), refs: set<Ref>, children: map<Ref, set<Ref>>) {
    link.1 in refs && link.1 in children && link.0 in children[link.1]
  }

  predicate AllReciprocated(links: seq<(Ref, Ref)>, refs: set<Ref>, children: map<Ref, set<Ref>>) {
    forall i :: 0 <= i < |links| ==> Reciprocated(links[i], refs, children)
  }

  lemma AllReciprocatedSnoc(links: seq<(Ref, Ref)>, link: (Ref, Ref), refs: set<Ref>, children: map<Ref, set<Ref>>)
    ensures AllReciprocated(links + [link], refs, children) <==>
      AllReciprocated(links, refs, children) && Reciprocated(link, refs, children)
  {
    var more := links + [link];
    assert more[|links|] == link;
    assert forall i :: 0 <= i < |links| ==> more[i] == links[i];
  }

  // --------------------------------------------------------------------- the walk

  class Walk {
    var refs: set<Ref>
    var children: map<Ref, set<Ref>>
    var parents: seq<(Ref, Ref)>
    var errors: seq<Error>

    /** While no error is found, what has been gathered is exactly the part of the
        document walked so far; an error is found exactly when some item walked
        does not carry its own position. */
    ghost predicate Gathered(d: Document, walked: Bounds)
      reads this
    {
      && (forall r: Ref :: walked.Within(r) ==> IsItem(d, r))
      && (errors == [] <==> forall r: Ref :: walked.Within(r) ==> d.SelfOf(r) == r)
      && (errors == [] ==>
            && (forall r: Ref :: r in refs <==> r.Root() || walked.Within(r))
            && children.Keys == refs
            && (forall r :: r in refs ==> children[r] == AsSet(d.Children(r)))
            && (forall i :: 0 <= i < |parents| ==>
                  walked.Within(parents[i].0) && parents[i].1 == d.ParentOf(parents[i].0))
            && (forall r: Ref :: walked.Within(r) ==> (r, d.ParentOf(r)) in parents))
    }

    constructor ()
      ensures refs == {} && children == map[] && parents == [] && errors == []
    {
      refs, children, parents, errors := {}, map[], [], [];
    }

    /** Takes in the body and the furniture with the children they list. */
    method Roots(d: Document)
      requires refs == {} && children == map[] && parents == [] && errors == []
      modifies this
      ensures Gathered(d, NOTHING)
    {
      refs := {Body, Furniture};
      children := map[Body := AsSet(d.body), Furniture := AsSet(d.furniture)];
    }

    /** Takes in one item, and adds an error when its reference is not its position or is
        taken already. */
    method WalkItem(ghost d: Document, ghost walked: Bounds, ghost next: Bounds,
                    selfRef: Ref, expected: Ref, listed: seq<Ref>, parent: Ref)
      requires Gathered(d, walked) && IsItem(d, expected) && !walked.Within(expected)
      requires forall r: Ref :: next.Within(r) <==> walked.Within(r) || r == expected
      requires selfRef == d.SelfOf(expected) && listed == d.Children(expected) && parent == d.ParentOf(expected)
      modifies this
      ensures Gathered(d, next)
    {
      ghost var clean := errors == [] && selfRef == expected;
      if selfRef != expected {
        errors := errors + [WrongPosition(selfRef, expected)];
      }
      if selfRef in refs {
        errors := errors + [Duplicate(selfRef)];
      }
      refs := refs + {selfRef};
      var entry := if selfRef in children then children[selfRef] else {};
      children := children[selfRef := entry + AsSet(listed)];
      parents := parents + [(selfRef, parent)];
      if clean {
        forall r: Ref | next.Within(r) ensures (r, d.ParentOf(r)) in parents {
          if r == expected {
            assert parents[|parents| - 1] == (selfRef, parent);
          } else {
            assert (r, d.ParentOf(r)) in old(parents);
          }
        }
      } else {
        assert errors != [];
      }
    }

    method WalkGroups(d: Document)
      requires Gathered(d, NOTHING)
      modifies this
      ensures Gathered(d, Bounds(|d.groups|, 0, 0, 0, 0))
    {
      for i := 0 to |d.groups|
        invariant Gathered(d, Bounds(i, 0, 0, 0, 0))
      {
        var item := d.groups[i];
        WalkItem(d, Bounds(i, 0, 0, 0, 0), Bounds(i + 1, 0, 0, 0, 0),
                 item.selfRef, Groups(i), item.children, item.parent);
      }
    }

    method WalkTexts(d: Document)
      requires Gathered(d, Bounds(|d.groups|, 0, 0, 0, 0))
      modifies this
      ensures Gathered(d, Bounds(|d.groups|, |d.texts|, 0, 0, 0))
    {
      for i := 0 to |d.texts|
        invariant Gathered(d, Bounds(|d.groups|, i, 0, 0, 0))
      {
        var item := d.texts[i];
        WalkItem(d, Bounds(|d.groups|, i, 0, 0, 0), Bounds(|d.groups|, i + 1, 0, 0, 0),
                 item.selfRef, Texts(i), item.children, item.parent);
      }
    }

    method WalkPictures(d: Document)
      requires Gathered(d, Bounds(|d.groups|, |d.texts|, 0, 0, 0))
      modifies this
      ensures Gathered(d, Bounds(|d.groups|, |d.texts|, |d.pictures|, 0, 0))
    {
      for i := 0 to |d.pictures|
        invariant Gathered(d, Bounds(|d.groups|, |d.texts|, i, 0, 0))
      {
        var item := d.pictures[i];
        WalkItem(d, Bounds(|d.groups|, |d.texts|, i, 0, 0), Bounds(|d.groups|, |d.texts|, i + 1, 0, 0),
                 item.selfRef, Pictures(i), item.children, item.parent);
      }
    }

    method WalkTables(d: Document)
      requires Gathered(d, Bounds(|d.groups|, |d.texts|, |d.pictures|, 0, 0))
      modifies this
      ensures Gathered(d, Bounds(|d.groups|, |d.texts|, |d.pictures|, |d.tables|, 0))
    {
      for i := 0 to |d.tables|
        invariant Gathered(d, Bounds(|d.groups|, |d.texts|, |d.pictures|, i, 0))
      {
        var item := d.tables[i];
        WalkItem(d, Bounds(|d.groups|, |d.texts|, |d.pictures|, i, 0),
                 Bounds(|d.groups|, |d.texts|, |d.pictures|, i + 1, 0),
                 item.selfRef, Tables(i), item.children, item.parent);
      }
    }

    method WalkKeyValues(d: Document)
      requires Gathered(d, Bounds(|d.groups|, |d.texts|, |d.pictures|, |d.tables|, 0))
      modifies this
      ensures Gathered(d, Bounds(|d.groups|, |d.texts|, |d.pictures|, |d.tables|, |d.keyValues|))
    {
      for i := 0 to |d.keyValues|
        invariant Gathered(d, Bounds(|d.groups|, |d.texts|, |d.pictures|, |d.tables|, i))
      {
        var item := d.keyValues[i];
        WalkItem(d, Bounds(|d.groups|, |d.texts|, |d.pictures|, |d.tables|, i),
                 Bounds(|d.groups|, |d.texts|, |d.pictures|, |d.tables|, i + 1),
                 item.selfRef, KeyValues(i), item.children, item.parent);
      }
    }

    /** Walks all five arenas; afterwards what was gathered is exact, or an error was found. */
    method Arenas(d: Document)
      requires Gathered(d, NOTHING)
      modifies this
      ensures errors == [] <==> Positioned(d)
      ensures errors == [] ==> Exact(d, refs, children, parents)
    {
      WalkGroups(d);
      WalkTexts(d);
      WalkPictures(d);
      WalkTables(d);
      WalkKeyValues(d);
      GatheredAll(d);
    }

    /** Once everything was walked, what was gathered is the whole document. */
    lemma GatheredAll(d: Document)
      requires Gathered(d, Everything(d))
      ensures errors == [] <==> Positioned(d)
      ensures errors == [] ==> Exact(d, refs, children, parents)
    {
      assert forall r: Ref :: Everything(d).Within(r) <==> IsItem(d, r);
    }

    /** Every child one item lists resolves. */
    method CheckListed(p: Ref, children: set<Ref>)
      modifies this`errors
      ensures errors == [] <==> old(errors) == [] && children <= refs
    {
      var listed := children;
      while listed != {}
        invariant listed <= children
        invariant errors == [] <==> old(errors) == [] && children - listed <= refs
        decreases |listed|
      {
        var c :| c in listed;
        if c !in refs {
          errors := errors + [UnresolvedChild(c, p)];
          assert c in children - (listed - {c});
        }
        listed := listed - {c};
      }
      assert children - {} == children;
    }

    /** Every child listed anywhere resolves. */
    method CheckChildren()
      requires children.Keys == refs || errors != []
      modifies this`errors
      ensures errors == [] <==> old(errors) == [] && forall p :: p in children ==> children[p] <= refs
    {
      var todo := children.Keys;
      while todo != {}
        invariant todo <= children.Keys
        invariant errors == [] <==> old(errors) == [] && forall p :: p in children.Keys - todo ==> children[p] <= refs
        decreases |todo|
      {
        var p :| p in todo;
        CheckListed(p, children[p]);
        ghost var rest := children.Keys - todo;
        todo := todo - {p};
        assert children.Keys - todo == rest + {p};
      }
      assert children.Keys - {} == children.Keys;
    }

    /** Every parent claimed resolves, and lists who claims it. */
    method CheckParents()
      modifies this`errors
      ensures errors == [] <==> old(errors) == [] && AllReciprocated(parents, refs, children)
    {
      for i := 0 to |parents|
        invariant errors == [] <==> old(errors) == [] && AllReciprocated(parents[..i], refs, children)
      {
        var link := parents[i];
        AllReciprocatedSnoc(parents[..i], link, refs, children);
        assert parents[..i + 1] == parents[..i] + [link];
        if link.1 !in refs {
          errors := errors + [UnresolvedParent(link.0, link.1)];
        } else if !(link.1 in children && link.0 in children[link.1]) {
          errors := errors + [Unlisted(link.0, link.1)];
        }
      }
      assert parents[..|parents|] == parents;
    }

    /** Every cell reference of one table resolves. */
    method CheckCells(d: Document, cells: seq<Cell>)
      modifies this`errors
      ensures (forall r: Ref :: r in refs <==> d.Has(r)) ==>
        (errors == [] <==> old(errors) == [] && CellRefsIn(d, cells))
      ensures old(errors) != [] ==> errors != []
    {
      ghost var exact := forall r: Ref :: r in refs <==> d.Has(r);
      for j := 0 to |cells|
        invariant exact ==> (errors == [] <==> old(errors) == [] && CellRefsIn(d, cells[..j]))
        invariant old(errors) != [] ==> errors != []
      {
        assert cells[..j + 1] == cells[..j] + [cells[j]];
        if cells[j].ref.Some? && cells[j].ref.value !in refs {
          errors := errors + [UnresolvedCell(cells[j].ref.value)];
          assert exact ==> cells[..j + 1][j] == cells[j];
        }
      }
      assert cells[..|cells|] == cells;
    }

    /** Every caption an item lists resolves. */
    method CheckCaptions(d: Document, owner: Ref, captions: seq<Ref>)
      modifies this`errors
      ensures (forall r: Ref :: r in refs <==> d.Has(r)) ==>
        (errors == [] <==> old(errors) == [] && AllIn(d, captions))
      ensures old(errors) != [] ==> errors != []
    {
      ghost var exact := forall r: Ref :: r in refs <==> d.Has(r);
      for j := 0 to |captions|
        invariant exact ==> (errors == [] <==> old(errors) == [] && AllIn(d, captions[..j]))
        invariant old(errors) != [] ==> errors != []
      {
        assert captions[..j + 1] == captions[..j] + [captions[j]];
        if captions[j] !in refs {
          errors := errors + [UnresolvedCaption(captions[j], owner)];
          assert exact ==> captions[..j + 1][j] == captions[j];
        }
      }
      assert captions[..|captions|] == captions;
    }

    /** Every cell, attachment and caption that points into an arena resolves. */
    method CheckTargets(d: Document)
      modifies this`errors
      ensures (forall r: Ref :: r in refs <==> d.Has(r)) ==>
        (errors == [] <==> old(errors) == [] && TargetsResolve(d))
      ensures old(errors) != [] ==> errors != []
    {
      ghost var exact := forall r: Ref :: r in refs <==> d.Has(r);
      for i := 0 to |d.tables|
        invariant exact ==>
          (errors == [] <==> old(errors) == [] && forall k :: 0 <= k < i ==> CellRefsIn(d, d.tables[k].cells))
        invariant old(errors) != [] ==> errors != []
      {
        CheckCells(d, d.tables[i].cells);
      }
      ghost var afterCells := errors;
      for i := 0 to |d.attachments|
        invariant exact ==>
          (errors == [] <==> afterCells == [] && forall k :: 0 <= k < i ==> d.Has(d.attachments[k]))
        invariant afterCells != [] ==> errors != []
      {
        if d.attachments[i] !in refs {
          errors := errors + [UnresolvedAttachment(d.attachments[i])];
        }
      }
      ghost var afterAttachments := errors;
      for i := 0 to |d.tables|
        invariant exact ==>
          (errors == [] <==> afterAttachments == [] && forall k :: 0 <= k < i ==> AllIn(d, d.tables[k].captions))
        invariant afterAttachments != [] ==> errors != []
      {
        CheckCaptions(d, d.tables[i].selfRef, d.tables[i].captions);
      }
      ghost var afterTables := errors;
      for i := 0 to |d.pictures|
        invariant exact ==>
          (errors == [] <==> afterTables == [] && forall k :: 0 <= k < i ==> AllIn(d, d.pictures[k].captions))
        invariant afterTables != [] ==> errors != []
      {
        CheckCaptions(d, d.pictures[i].selfRef, d.pictures[i].captions);
      }
    }
  }

  /** What the walk gathered of a document whose references are all in position. */
  ghost predicate Exact(d: Document, refs: set<Ref>, children: map<Ref, set<Ref>>, parents: seq<(Ref, Ref)>) {
    && (forall r: Ref :: r in refs <==> d.Has(r))
    && children.Keys == refs
    && (forall r :: r in refs ==> children[r] == AsSet(d.Children(r)))
    && (forall i :: 0 <= i < |parents| ==> IsItem(d, parents[i].0) && parents[i].1 == d.ParentOf(parents[i].0))
    && (forall r :: IsItem(d, r) ==> (r, d.ParentOf(r)) in parents)
  }

  lemma ChildrenCheckMeans(d: Document, refs: set<Ref>, children: map<Ref, set<Ref>>, parents: seq<(Ref, Ref)>)
    requires Exact(d, refs, children, parents)
    ensures (forall p :: p in children ==> children[p] <= refs) <==> ChildrenResolve(d)
  {
    if ChildrenResolve(d) {
      forall p | p in children ensures children[p] <= refs {
        assert forall c :: c in children[p] ==> c in d.Children(p);
      }
    }
    if forall p :: p in children ==> children[p] <= refs {
      forall p: Ref, c: Ref | d.Has(p) && c in d.Children(p) ensures d.Has(c) {
        assert c in children[p];
      }
    }
  }

  lemma ParentsCheckMeans(d: Document, refs: set<Ref>, children: map<Ref, set<Ref>>, parents: seq<(Ref, Ref)>)
    requires Exact(d, refs, children, parents)
    ensures AllReciprocated(parents, refs, children) <==> ParentsReciprocate(d)
  {
    if AllReciprocated(parents, refs, children) {
      forall r: Ref | IsItem(d, r) ensures d.Has(d.ParentOf(r)) && r in d.Children(d.ParentOf(r)) {
        var i :| 0 <= i < |parents| && parents[i] == (r, d.ParentOf(r));
        assert Reciprocated(parents[i], refs, children);
      }
    }
  }

  /** The checker finds nothing exactly when the document is sound. */
  method IntegrityErrors(d: Document) returns (errors: seq<Error>)
    ensures errors == [] <==> Sound(d)
  {
    var walk := new Walk();
    walk.Roots(d);
    walk.Arenas(d);
    ghost var refs, children, parents := walk.refs, walk.children, walk.parents;
    if Positioned(d) {
      ChildrenCheckMeans(d, refs, children, parents);
      ParentsCheckMeans(d, refs, children, parents);
    }
    walk.CheckChildren();
    walk.CheckParents();
    walk.CheckTargets(d);
    errors := walk.errors;
  }
}
