/** What is asked of an element's attributes: which of them answers to a name, the
    number one of them states, and all of them as one text. */
module Attributes {
  import opened Wrappers
  import opened Collapse
  import opened Decimal
  import opened Xml
  import Generic
  import Stream

  // ------------------------------------------------------------------ which one answers

  /** A key that is this name under some prefix. */
  predicate Prefixed(key: string, name: string) {
    && ':' !in name && |key| > |name|
    && key[|key| - |name|..] == name && key[|key| - |name| - 1] == ':'
  }

  /** The first attribute of the list under that very name. */
  predicate FirstNamed(attrs: seq<(string, string)>, name: string, i: nat) {
    && i < |attrs| && attrs[i].0 == name
    && (forall j :: 0 <= j < i ==> attrs[j].0 != name)
  }

  /** The first under that name with a prefix, when none has the very name. */
  predicate FirstPrefixed(attrs: seq<(string, string)>, name: string, i: nat) {
    && i < |attrs| && Prefixed(attrs[i].0, name)
    && (forall j :: 0 <= j < |attrs| ==> attrs[j].0 != name)
    && (forall j :: 0 <= j < i ==> !Prefixed(attrs[j].0, name))
  }

  /** No attribute has the name, with a prefix or without. */
  predicate Unnamed(attrs: seq<(string, string)>, name: string) {
    forall j :: 0 <= j < |attrs| ==> attrs[j].0 != name && !Prefixed(attrs[j].0, name)
  }

  lemma {:induction false} LocalPartIs(key: string, name: string)
    ensures LocalPart(key) == name <==> (key == name && ':' !in name) || Prefixed(key, name)
    decreases |key|
  {
    if ':' in key {
      LocalPartIs(key[1..], name);
      assert key == [key[0]] + key[1..];
      if |key| > |name| + 1 {
        assert key[|key| - |name|..] == key[1..][|key| - 1 - |name|..];
      } else if |key| == |name| + 1 {
        assert key[1..] == key[|key| - |name|..];
      }
    } else {
      assert forall i :: 0 <= i < |key| ==> key[i] != ':';
    }
  }

  lemma {:induction false} LookupIs(attrs: seq<(string, string)>, name: string) returns (i: nat)
    ensures Lookup(attrs, name).None? ==> forall j :: 0 <= j < |attrs| ==> attrs[j].0 != name
    ensures Lookup(attrs, name).Some? ==> FirstNamed(attrs, name, i) && Lookup(attrs, name).value == attrs[i].1
    decreases |attrs|
  {
    i := 0;
    if attrs != [] && attrs[0].0 != name {
      i := LookupIs(attrs[1..], name);
      i := i + 1;
      assert forall j :: 1 <= j < |attrs| ==> attrs[j] == attrs[1..][j - 1];
    }
  }

  lemma {:induction false} LookupLocalIs(attrs: seq<(string, string)>, name: string) returns (i: nat)
    requires forall j :: 0 <= j < |attrs| ==> attrs[j].0 != name
    ensures LookupLocal(attrs, name).None? ==> Unnamed(attrs, name)
    ensures LookupLocal(attrs, name).Some? ==>
      FirstPrefixed(attrs, name, i) && LookupLocal(attrs, name).value == attrs[i].1
    decreases |attrs|
  {
    i := 0;
    if attrs != [] {
      LocalPartIs(attrs[0].0, name);
      if LocalPart(attrs[0].0) != name {
        i := LookupLocalIs(attrs[1..], name);
        i := i + 1;
        assert forall j :: 1 <= j < |attrs| ==> attrs[j] == attrs[1..][j - 1];
      }
    }
  }

  /** An attribute is looked up by its name as written, and only when none has that
      very name by the part after a prefix; the first such attribute answers. */
  lemma GetIs(e: Element, name: string) returns (i: nat)
    ensures e.Get(name).None? ==> Unnamed(e.attrs, name)
    ensures e.Get(name).Some? ==>
      && (FirstNamed(e.attrs, name, i) || FirstPrefixed(e.attrs, name, i))
      && e.Get(name).value == e.attrs[i].1
  {
    i := LookupIs(e.attrs, name);
    if Lookup(e.attrs, name).None? {
      i := LookupLocalIs(e.attrs, name);
    }
  }

  // --------------------------------------------------------------------- as one text

  /** The attributes but for namespace declarations, each as it is shown. */
  function Shown(attrs: seq<(string, string)>): seq<string> {
    if attrs == [] then []
    else if Generic.Declares(attrs[0].0) then Shown(attrs[1..])
    else [attrs[0].0 + "=\"" + attrs[0].1 + "\""] + Shown(attrs[1..])
  }

  lemma {:induction false} ShownSnoc(attrs: seq<(string, string)>, a: (string, string))
    ensures Shown(attrs + [a]) == Shown(attrs) + Shown([a])
    decreases |attrs|
  {
    if attrs == [] {
      assert [] + [a] == [a];
    } else {
      assert (attrs + [a])[1..] == attrs[1..] + [a];
      ShownSnoc(attrs[1..], a);
    }
  }

  lemma {:induction false} JoinSnoc(words: seq<string>, word: string)
    ensures Join(words + [word]) == if words == [] then word else Join(words) + " " + word
    decreases |words|
  {
    if |words| > 1 {
      assert (words + [word])[1..] == words[1..] + [word];
      JoinSnoc(words[1..], word);
    } else if words != [] {
      assert (words + [word])[1..] == [word];
    }
  }

  lemma PairJoins(before: string, a: (string, string))
    ensures var word := a.0 + "=\"" + a.1 + "\"";
      before + " " + a.0 + "=\"" + a.1 + "\"" == before + " " + word
      && "" + "" + a.0 + "=\"" + a.1 + "\"" == word
  {
  }

  lemma {:induction false} PairsAreShown(attrs: seq<(string, string)>)
    ensures Stream.AttributePairs(attrs) == Join(Shown(attrs))
    ensures Shown(attrs) == [] <==> Join(Shown(attrs)) == ""
    decreases |attrs|
  {
    if attrs != [] {
      var front, last := attrs[..|attrs| - 1], attrs[|attrs| - 1];
      PairsAreShown(front);
      assert attrs == front + [last];
      ShownSnoc(front, last);
      assert [last][1..] == [];
      if Generic.Declares(last.0) {
        assert Shown(attrs) == Shown(front);
      } else {
        var word := last.0 + "=\"" + last.1 + "\"";
        assert Shown([last]) == [word] && |word| > 2;
        JoinSnoc(Shown(front), word);
        PairJoins(Stream.AttributePairs(front), last);
      }
    }
  }

  /** What an element without text of its own says instead: its attributes but for
      namespace declarations, each as name="value", in order, with a space between. */
  lemma AttributesAreShown(e: Element)
    ensures Stream.AttributeText(e) == if Shown(e.attrs) == [] then None else Some(Join(Shown(e.attrs)))
  {
    PairsAreShown(e.attrs);
  }

  // --------------------------------------------------------------------------- numbers

  /** The attribute states this number, which fits the width. */
  predicate Numbers(e: Element, name: string, n: nat, max: nat) {
    e.Get(name).Some? && Writes(e.Get(name).value, n) && n <= max
  }

  /** The attribute is absent, or states no number that fits. */
  ghost predicate Numberless(e: Element, name: string, max: nat) {
    forall n: nat :: !Numbers(e, name, n, max)
  }

  lemma NumberIs(e: Element, name: string, n: nat, max: nat)
    ensures Numbers(e, name, n, max) ==> Stream.NumberOf(e, name, max) == Some(n)
    ensures Numberless(e, name, max) ==> Stream.NumberOf(e, name, max).None?
  {
    if e.Get(name).Some? {
      ParseIsReading(e.Get(name).value, n, max);
      var found := Stream.NumberOf(e, name, max);
      if found.Some? {
        ParseIsReading(e.Get(name).value, found.value, max);
        assert Numbers(e, name, found.value, max);
      }
    }
  }
}
