/** What is handed on of the pass's events, with the document among them or without:
    every event passes the fold before it goes out, and the fold's document goes out
    ahead of the trailer. */
module Emit {
  import opened Wrappers
  import opened Xml
  import opened Document
  import opened Fold
  import opened Pipeline
  import DocumentFold
  import Stream
  import StreamModes
  import StreamOrder

  datatype Handed = Passed(event: Stream.Event) | Folded(document: Document)

  /** The fold after so many events: it starts over once its document was taken. */
  function FoldOf(out: seq<Stream.Event>): State {
    if out == [] then FRESH
    else
      var n := |out| - 1;
      var f := Consume(FoldOf(out[..n]), Carried(out[n]));
      if out[n].Status? then AfterTake(f) else f
  }

  /** What is handed on for the last of these events. */
  function HandedFor(out: seq<Stream.Event>, asked: bool): seq<Handed>
    requires out != []
  {
    var n := |out| - 1;
    if asked && out[n].Status? then [Folded(Taken(Consume(FoldOf(out[..n]), Carried(out[n])))), Passed(out[n])]
    else [Passed(out[n])]
  }

  function Handing(out: seq<Stream.Event>, asked: bool): seq<Handed> {
    if out == [] then [] else Handing(out[..|out| - 1], asked) + HandedFor(out, asked)
  }

  function AllPassed(out: seq<Stream.Event>): (r: seq<Handed>)
    ensures |r| == |out|
  {
    seq(|out|, i requires 0 <= i < |out| => Passed(out[i]))
  }

  /** The first of these, as many as there is room for. */
  function Upto(handed: seq<Handed>, room: nat): seq<Handed> {
    if |handed| <= room then handed else handed[..room]
  }

  // ------------------------------------------------------------------- handing it on

  /** Hand one thing on, unless the consumer has taken all it will take. */
  method Deliver(handed: seq<Handed>, room: nat, h: Handed) returns (after: seq<Handed>, sent: bool)
    requires |handed| <= room
    ensures after == Upto(handed + [h], room) && (sent <==> |handed| < room)
  {
    sent := |handed| < room;
    after := if sent then handed + [h] else handed;
    assert (handed + [h])[..|handed|] == handed;
  }

  /** The fold, where there is one, has seen these events. */
  ghost predicate Seen(fold: DocumentFold.DocumentFold?, before: seq<Stream.Event>)
    reads fold
  {
    fold != null ==> fold.Valid() && fold.View() == FoldOf(before)
  }

  method NewFold(asked: bool) returns (fold: DocumentFold.DocumentFold?)
    ensures fold != null <==> asked
    ensures fold != null ==> fresh(fold)
    ensures Seen(fold, [])
  {
    fold := null;
    if asked {
      fold := new DocumentFold.DocumentFold();
    }
  }

  /** One event on its way out: the fold sees it first, and at the trailer it gives its
      document. */
  method EmitOne(
    fold: DocumentFold.DocumentFold?, e: Stream.Event, handed: seq<Handed>, room: nat, ghost before: seq<Stream.Event>)
    returns (after: seq<Handed>, sent: bool)
    requires |handed| <= room
    requires Seen(fold, before)
    modifies fold
    ensures Seen(fold, before + [e])
    ensures after == Upto(handed + HandedFor(before + [e], fold != null), room)
    ensures sent <==> |handed| + |HandedFor(before + [e], fold != null)| <= room
  {
    assert (before + [e])[..|before|] == before;
    after, sent := handed, true;
    if fold != null {
      fold.Consume(Carried(e));
      if e.Status? {
        var document := fold.Take();
        after, sent := Deliver(after, room, Folded(document));
        assert sent ==> after + [Passed(e)] == handed + [Folded(document), Passed(e)];
      }
    }
    if sent {
      after, sent := Deliver(after, room, Passed(e));
    }
  }

  /** Hand the events of a pass on to a consumer that takes so many and then refuses;
      nothing follows a refusal. */
  method HandOn(out: seq<Stream.Event>, asked: bool, room: nat) returns (handed: seq<Handed>, gone: bool)
    ensures handed == Upto(Handing(out, asked), room)
    ensures gone <==> |Handing(out, asked)| > room
  {
    hide Taken, Consume, Carried;
    var fold := NewFold(asked);
    handed, gone := [], false;
    assert out[..0] == [];
    for i := 0 to |out|
      invariant !gone && (fold != null ==> fresh(fold)) && Seen(fold, out[..i])
      invariant |handed| <= room && handed == Handing(out[..i], asked)
    {
      HandingNext(out, i, asked);
      var sent;
      handed, sent := EmitOne(fold, out[i], handed, room, out[..i]);
      if !sent {
        return handed, true;
      }
    }
    assert out[..|out|] == out;
  }

  /** One more event adds what is handed on for it, and what comes later only follows. */
  lemma HandingNext(out: seq<Stream.Event>, i: nat, asked: bool)
    requires i < |out|
    ensures out[..i] + [out[i]] == out[..i + 1]
    ensures Handing(out[..i + 1], asked) == Handing(out[..i], asked) + HandedFor(out[..i + 1], asked)
    ensures Handing(out[..i + 1], asked) <= Handing(out, asked)
  {
    assert out[..i + 1][..i] == out[..i];
    HandingGrows(out, i + 1, asked);
  }

  /** What is handed on for a front of the events comes first. */
  lemma {:induction false} HandingGrows(out: seq<Stream.Event>, n: nat, asked: bool)
    requires n <= |out|
    ensures Handing(out[..n], asked) <= Handing(out, asked)
    decreases |out|
  {
    if n < |out| {
      HandingGrows(out[..|out| - 1], n, asked);
      assert out[..|out| - 1][..n] == out[..n];
    } else {
      assert out[..n] == out;
    }
  }

  // ------------------------------------------------------------- with and without it

  predicate Untrailed(out: seq<Stream.Event>) {
    forall i :: 0 <= i < |out| ==> !out[i].Status?
  }

  /** Without a trailer the fold has simply seen every event, and nothing but the events
      is handed on. */
  lemma {:induction false} NoTrailer(out: seq<Stream.Event>, asked: bool)
    requires Untrailed(out)
    ensures FoldOf(out) == FoldAll(CarriedAll(out)) && Handing(out, asked) == AllPassed(out)
    decreases |out|
  {
    hide Consume, Carried, Taken;
    if out != [] {
      var n := |out| - 1;
      NoTrailer(out[..n], asked);
      assert (CarriedAll(out[..n]) + [Carried(out[n])])[..n] == CarriedAll(out[..n]);
      assert AllPassed(out) == AllPassed(out[..n]) + [Passed(out[n])];
    }
  }

  /** Until the trailer is read there is none. */
  lemma {:induction false} NoTrailerYet(out: seq<Stream.Event>)
    requires StreamOrder.ReadAll(out).ok && !StreamOrder.ReadAll(out).ended
    ensures Untrailed(out)
    decreases |out|
  {
    if out != [] {
      NoTrailerYet(out[..|out| - 1]);
    }
  }

  /** The trailer itself says nothing to the fold. */
  lemma TrailerAlone(out: seq<Stream.Event>, t: Stream.Event, f: State)
    requires t.Status? && f == FoldOf(out)
    ensures HandedFor(out + [t], true) == [Folded(Taken(f)), Passed(t)]
    ensures HandedFor(out + [t], false) == [Passed(t)]
  {
    assert (out + [t])[..|out|] == out;
    assert Consume(f, Carried(t)) == f;
  }

  lemma HandingSnoc(out: seq<Stream.Event>, t: Stream.Event, asked: bool)
    ensures Handing(out + [t], asked) == Handing(out, asked) + HandedFor(out + [t], asked)
  {
    assert (out + [t])[..|out|] == out;
  }

  /** A trailer at the end of what had none. */
  lemma TrailerLast(out: seq<Stream.Event>, t: Stream.Event, f: State)
    requires Untrailed(out) && t.Status? && f == FoldAll(CarriedAll(out))
    ensures Handing(out + [t], false) == AllPassed(out + [t])
    ensures Handing(out + [t], true) == AllPassed(out) + [Folded(Taken(f)), Passed(t)]
  {
    hide Consume, Carried, Taken;
    NoTrailer(out, true);
    NoTrailer(out, false);
    TrailerAlone(out, t, f);
    HandingSnoc(out, t, true);
    HandingSnoc(out, t, false);
    assert AllPassed(out + [t]) == AllPassed(out) + [Passed(t)];
  }

  /** These events, handed on without the document and with it. */
  predicate Hands(out: seq<Stream.Event>) {
    var n := |out| - 1;
    && n >= 0 && out[n].Status? && Untrailed(out[..n])
    && Handing(out, false) == AllPassed(out)
    && Handing(out, true) == AllPassed(out[..n]) + [Folded(Taken(FoldAll(CarriedAll(out[..n])))), Passed(out[n])]
  }

  lemma TrailedHands(front: seq<Stream.Event>, t: Stream.Event)
    requires Untrailed(front) && t.Status?
    ensures Hands(front + [t])
  {
    assert (front + [t])[..|front|] == front;
    TrailerLast(front, t, FoldAll(CarriedAll(front)));
  }

  /** The stream of a pass read to its end: asked for or not, all its events are handed
      on in their order; asked for, there is one document among them, right before the
      trailer, and it is the fold of every event before it. */
  lemma DocumentBeforeTrailer(rules: Stream.Rules, root: Element, steps: seq<Step>)
    requires StreamModes.Sane(rules) && Stream.Parse(rules, root, steps).progress == Stream.Closed
    ensures Hands(Stream.Parse(rules, root, steps).out)
  {
    var s := Stream.OnSteps(rules, Stream.Begin(rules, root), steps + [Eof]);
    StreamOrder.RunsAreOrderly(rules, root, steps);
    NoTrailerYet(s.out);
    TrailedHands(s.out, Stream.Status(s.counts));
  }

  /** A pass that failed hands on what it had sent, and no document. */
  lemma FailedHasNoDocument(rules: Stream.Rules, root: Element, steps: seq<Step>, asked: bool)
    requires StreamModes.Sane(rules) && Stream.Parse(rules, root, steps).progress != Stream.Closed
    ensures Handing(Stream.Parse(rules, root, steps).out, asked) == AllPassed(Stream.Parse(rules, root, steps).out)
  {
    StreamOrder.RunsAreOrderly(rules, root, steps);
    NoTrailerYet(Stream.Parse(rules, root, steps).out);
    NoTrailer(Stream.Parse(rules, root, steps).out, asked);
  }
}
