/** References as the document writes them, and how linking reads one back. */
module RefNames {
  import opened Wrappers
  import opened Decimal
  import opened Document

  const BODY_REF := "#/body"
  const FURNITURE_REF := "#/furniture"

  /** The width of an index into memory. */
  const USIZE_MAX: nat := 0xFFFF_FFFF_FFFF_FFFF

  function Show(r: Ref): string {
    match r
    case Body => BODY_REF
    case Furniture => FURNITURE_REF
    case Groups(n) => "#/groups/" + Digits(n)
    case Texts(n) => "#/texts/" + Digits(n)
    case Tables(n) => "#/tables/" + Digits(n)
    case Pictures(n) => "#/pictures/" + Digits(n)
    case KeyValues(n) => "#/key_value_items/" + Digits(n)
  }

  /** The index after a prefix, if the text starts with it and the rest is one. */
  function IndexAfter(prefix: string, text: string): Option<nat> {
    if prefix <= text then ParseUnsigned(text[|prefix|..], USIZE_MAX) else None
  }

  /** What linking takes a parent's reference to name; None is a reference no child
      can be linked to. */
  function ReadParent(text: string): Option<Ref> {
    if text == BODY_REF then Some(Body)
    else if text == FURNITURE_REF then Some(Furniture)
    else
      var group := IndexAfter("#/groups/", text);
      if group.Some? then Some(Groups(group.value))
      else
        var header := IndexAfter("#/texts/", text);
        if header.Some? then Some(Texts(header.value)) else None
  }

  lemma IndexRoundTrip(prefix: string, n: nat)
    ensures IndexAfter(prefix, prefix + Digits(n)) == if n <= USIZE_MAX then Some(n) else None
  {
    assert (prefix + Digits(n))[|prefix|..] == Digits(n);
    ParseOfDigits(n, USIZE_MAX);
  }

  lemma Apart(text: string, prefix: string, k: nat)
    requires k < |text| && k < |prefix| && text[k] != prefix[k]
    ensures !(prefix <= text) && text != prefix
  {
  }

  /** Linking reads a parent's reference back as the item it was written for, and
      never takes a table, picture or key-value item for a parent. */
  lemma ReadParentOfShow(r: Ref)
    requires (r.Groups? || r.Texts?) ==> r.n <= USIZE_MAX
    ensures ReadParent(Show(r)) == if r.Body? || r.Furniture? || r.Groups? || r.Texts? then Some(r) else None
  {
    var text := Show(r);
    if r.Groups? {
      Apart(text, BODY_REF, 2);
      Apart(text, FURNITURE_REF, 2);
      IndexRoundTrip("#/groups/", r.n);
    } else if !r.Body? && !r.Furniture? {
      Apart(text, BODY_REF, 2);
      Apart(text, FURNITURE_REF, 2);
      Apart(text, "#/groups/", 2);
      if r.Texts? {
        IndexRoundTrip("#/texts/", r.n);
      } else if r.Tables? {
        Apart(text, "#/texts/", 3);
      } else {
        Apart(text, "#/texts/", 2);
      }
    }
  }

  /** The part of a written reference before its number. */
  function Prefix(r: Ref): string {
    match r
    case Body => BODY_REF
    case Furniture => FURNITURE_REF
    case Groups(_) => "#/groups/"
    case Texts(_) => "#/texts/"
    case Tables(_) => "#/tables/"
    case Pictures(_) => "#/pictures/"
    case KeyValues(_) => "#/key_value_items/"
  }

  /** The letter by which two kinds of reference differ: the third, or for texts and
      tables the fourth. */
  lemma KindsApart(a: Ref, b: Ref)
    requires Prefix(a) != Prefix(b)
    ensures Show(a) != Show(b)
  {
    if (a.Texts? && b.Tables?) || (a.Tables? && b.Texts?) {
      assert Show(a)[3] != Show(b)[3];
    } else {
      assert Show(a)[2] != Show(b)[2];
    }
  }

  /** No two items write the same reference. */
  lemma ShowIsInjective(a: Ref, b: Ref)
    requires Show(a) == Show(b)
    ensures a == b
  {
    if Prefix(a) != Prefix(b) {
      KindsApart(a, b);
    } else if !a.Root() {
      var prefix := Prefix(a);
      assert Show(a) == prefix + Digits(a.n) && Show(b) == prefix + Digits(b.n);
      assert Show(a)[|prefix|..] == Digits(a.n) && Show(b)[|prefix|..] == Digits(b.n);
      DigitsValueOfDigits(a.n);
      DigitsValueOfDigits(b.n);
    }
  }
}
