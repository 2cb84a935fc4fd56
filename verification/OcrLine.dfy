/** OCR lines of an hOCR page: each word box is a range of the raw text of its line,
    and the ranges are carried over to the collapsed text. */
module OcrLine {
  import opened Basics
  import opened Wrappers
  import opened Collapse

  /** A word box; its coordinates are copied and never computed with. */
  datatype Box = Box(left: real, top: real, right: real, bottom: real)

  datatype WordBuild = WordBuild(start: nat, end: nat, bbox: Box)

  datatype WordBox = WordBox(range: Range, bbox: Box)

  /** Words recorded inside one line at most. */
  const MAX_INLINE_SPANS: nat := 512

  /** What a line holds between its own tags: character data and spans, each
      span with the box its title states if it is a word. */
  datatype Node = Text(chars: string) | Span(word: Option<Box>, kids: seq<Node>)

  /** The character data of a line, in order. */
  function Flatten(nodes: seq<Node>): string
    decreases nodes
  {
    if nodes == [] then ""
    else
      (match nodes[0]
       case Text(chars) => chars
       case Span(_, kids) => Flatten(kids))
      + Flatten(nodes[1..])
  }

  /** The raw words of a line: its boxed word spans that sit directly in it,
      up to the bound, each with the raw text it holds. */
  function RawWords(nodes: seq<Node>, recorded: nat): seq<(string, Box)>
    decreases nodes
  {
    if nodes == [] then []
    else if nodes[0].Span? && nodes[0].word.Some? && recorded < MAX_INLINE_SPANS then
      [(Flatten(nodes[0].kids), nodes[0].word.value)] + RawWords(nodes[1..], recorded + 1)
    else RawWords(nodes[1..], recorded)
  }

  lemma NoContent(recorded: nat)
    ensures Flatten([]) == "" && RawWords([], recorded) == []
  {
  }

  lemma ContentHead(nodes: seq<Node>, recorded: nat)
    requires nodes != []
    ensures Flatten(nodes) == Flatten([nodes[0]]) + Flatten(nodes[1..])
    ensures var first := RawWords([nodes[0]], recorded);
      RawWords(nodes, recorded) == first + RawWords(nodes[1..], recorded + |first|)
  {
    assert [nodes[0]][1..] == [];
  }

  /** Word runs measured on a text: in order, disjoint, inside the text. */
  ghost predicate Measured(words: seq<WordBuild>, text: string) {
    && (forall k :: 0 <= k < |words| ==> words[k].start <= words[k].end <= |text|)
    && (forall j, k :: 0 <= j < k < |words| ==> words[j].end <= words[k].start)
  }

  /** The text of each run, beside its box. */
  function Slices(words: seq<WordBuild>, text: string): seq<(string, Box)>
    requires forall k :: 0 <= k < |words| ==> words[k].start <= words[k].end <= |text|
  {
    seq(|words|, k requires 0 <= k < |words| => (text[words[k].start..words[k].end], words[k].bbox))
  }

  lemma SlicesOfLongerText(words: seq<WordBuild>, text: string, more: string)
    requires Measured(words, text)
    ensures Measured(words, text + more) && Slices(words, text + more) == Slices(words, text)
  {
    forall k | 0 <= k < |words|
      ensures (text + more)[words[k].start..words[k].end] == text[words[k].start..words[k].end]
    {
    }
  }

  lemma SlicesSnoc(words: seq<WordBuild>, w: WordBuild, text: string)
    requires Measured(words, text) && w.start <= w.end <= |text|
    requires forall k :: 0 <= k < |words| ==> words[k].end <= w.start
    ensures Measured(words + [w], text)
    ensures Slices(words + [w], text) == Slices(words, text) + [(text[w.start..w.end], w.bbox)]
  {
  }

  /** Finished boxes: in order, disjoint, none empty, all inside the text. */
  ghost predicate Boxed(boxes: seq<WordBox>, text: string) {
    && (forall k :: 0 <= k < |boxes| ==> boxes[k].range.start < boxes[k].range.end <= |text|)
    && (forall j, k :: 0 <= j < k < |boxes| ==> boxes[j].range.end <= boxes[k].range.start)
  }

  /** The text each finished box covers, beside the box. */
  function Covered(boxes: seq<WordBox>, text: string): seq<(string, Box)>
    requires forall k :: 0 <= k < |boxes| ==> boxes[k].range.start < boxes[k].range.end <= |text|
  {
    seq(|boxes|, k requires 0 <= k < |boxes| => (text[boxes[k].range.start..boxes[k].range.end], boxes[k].bbox))
  }

  lemma BoxedSnoc(boxes: seq<WordBox>, b: WordBox, text: string)
    requires Boxed(boxes, text) && b.range.start < b.range.end <= |text|
    requires forall k :: 0 <= k < |boxes| ==> boxes[k].range.end <= b.range.start
    ensures Boxed(boxes + [b], text)
    ensures Covered(boxes + [b], text) == Covered(boxes, text) + [(text[b.range.start..b.range.end], b.bbox)]
  {
  }

  /** The raw words that leave a box: those not all whitespace, collapsed. */
  function KeptWords(raw: seq<(string, Box)>): seq<(string, Box)> {
    if raw == [] then []
    else (if Blank(raw[0].0) then [] else [(Collapsed(raw[0].0), raw[0].1)]) + KeptWords(raw[1..])
  }

  lemma {:induction false} KeptWordsSnoc(raw: seq<(string, Box)>, x: (string, Box))
    ensures KeptWords(raw + [x]) == KeptWords(raw) + (if Blank(x.0) then [] else [(Collapsed(x.0), x.1)])
  {
    if raw == [] {
      assert KeptWords([x]) == (if Blank(x.0) then [] else [(Collapsed(x.0), x.1)]) + KeptWords([x][1..]);
    } else {
      assert (raw + [x])[1..] == raw[1..] + [x];
      KeptWordsSnoc(raw[1..], x);
    }
  }

  /** A finished box lies before whatever a later run leaves. */
  ghost predicate Precedes(b: WordBox, w: WordBuild, text: string) {
    var range := CollapsedRange(Positions(text), w.start, w.end);
    range.Some? ==> b.range.end <= range.value.start
  }

  lemma RangePrecedes(text: string, v: WordBuild, w: WordBuild)
    requires v.start <= v.end <= w.start <= w.end <= |text|
    requires CollapsedRange(Positions(text), v.start, v.end).Some?
    ensures Precedes(WordBox(CollapsedRange(Positions(text), v.start, v.end).value, v.bbox), w, text)
  {
    RangeIsNoneWhenBlank(text, v.start, v.end);
    RangeIsNoneWhenBlank(text, w.start, w.end);
    if !Blank(text[w.start..w.end]) {
      RangesKeepTheirOrder(text, v.start, v.end, w.start, w.end);
    }
  }

  /** The boxes of a finished line: one per run that left text. */
  function FinishWords(words: seq<WordBuild>, positions: seq<Option<nat>>): seq<WordBox> {
    if words == [] then []
    else
      var front, w := words[..|words| - 1], words[|words| - 1];
      FinishWords(front, positions) +
      match CollapsedRange(positions, w.start, w.end)
      case None => []
      case Some(range) => [WordBox(range, w.bbox)]
  }

  lemma {:induction false} FinishedBefore(words: seq<WordBuild>, w: WordBuild, text: string)
    requires Measured(words, text) && w.start <= w.end <= |text|
    requires forall k :: 0 <= k < |words| ==> words[k].end <= w.start
    ensures forall k :: 0 <= k < |FinishWords(words, Positions(text))| ==>
      Precedes(FinishWords(words, Positions(text))[k], w, text)
  {
    if words != [] {
      var front, v := words[..|words| - 1], words[|words| - 1];
      FinishedBefore(front, w, text);
      if CollapsedRange(Positions(text), v.start, v.end).Some? {
        RangePrecedes(text, v, w);
      }
    }
  }

  /** The boxes of a finished line are disjoint and in reading order, and each
      covers exactly the collapse of its own raw run. */
  lemma {:induction false} FinishWordsCovers(words: seq<WordBuild>, text: string)
    requires Measured(words, text)
    ensures Boxed(FinishWords(words, Positions(text)), Collapsed(text))
    ensures Covered(FinishWords(words, Positions(text)), Collapsed(text)) == KeptWords(Slices(words, text))
  {
    if words != [] {
      var front, w := words[..|words| - 1], words[|words| - 1];
      var slices := Slices(words, text);
      assert slices == Slices(front, text) + [slices[|front|]];
      FinishWordsCovers(front, text);
      assert slices[|front|] == (text[w.start..w.end], w.bbox);
      KeptWordsSnoc(Slices(front, text), slices[|front|]);
      RangeSlicesCollapse(text, w.start, w.end);
      FinishedBefore(front, w, text);
      match CollapsedRange(Positions(text), w.start, w.end) {
        case None =>
        case Some(range) =>
          BoxedSnoc(FinishWords(front, Positions(text)), WordBox(range, w.bbox), Collapsed(text));
      }
    }
  }

  /** An ocr_line being captured. */
  class OcrCapture {
    var text: string
    var chars: nat
    var spanDepth: nat
    var words: seq<WordBuild>
    var openWord: Option<WordBuild>

    ghost predicate Valid()
      reads this
    {
      && chars == |text|
      && Measured(words, text)
      && (openWord.Some? ==>
            && 0 < spanDepth
            && openWord.value.start <= |text|
            && forall k :: 0 <= k < |words| ==> words[k].end <= openWord.value.start)
    }

    constructor ()
      ensures Valid() && text == "" && spanDepth == 0 && words == [] && openWord == None
    {
      text, chars, spanDepth, words, openWord := "", 0, 0, [], None;
    }

    method Push(more: string)
      requires Valid()
      modifies this`text, this`chars
      ensures Valid() && text == old(text) + more
    {
      SlicesOfLongerText(words, text, more);
      text := text + more;
      chars := chars + |more|;
    }

    /** An opening span while the line is being captured. */
    method OpenSpan(word: Option<Box>)
      requires Valid()
      modifies this`spanDepth, this`openWord
      ensures Valid() && spanDepth == old(spanDepth) + 1
      ensures openWord ==
        if old(spanDepth) == 0 && |words| < MAX_INLINE_SPANS && word.Some?
        then Some(WordBuild(|text|, |text|, word.value)) else old(openWord)
    {
      if spanDepth == 0 && openWord.None? && |words| < MAX_INLINE_SPANS {
        openWord := match word case None => None case Some(bbox) => Some(WordBuild(chars, chars, bbox));
      }
      spanDepth := spanDepth + 1;
    }

    /** A closing span inside the line. */
    method CloseSpan()
      requires Valid() && spanDepth > 0
      modifies this`spanDepth, this`openWord, this`words
      ensures Valid() && spanDepth == old(spanDepth) - 1
      ensures spanDepth > 0 || old(openWord).None? ==> words == old(words) && openWord == old(openWord)
      ensures spanDepth == 0 && old(openWord).Some? ==>
        openWord == None && words == old(words) + [old(openWord).value.(end := |text|)]
    {
      spanDepth := spanDepth - 1;
      if spanDepth == 0 && openWord.Some? {
        words := words + [openWord.value.(end := chars)];
        openWord := None;
      }
    }

    /** Take the balanced content of a line as the reader delivers it. At the
        line's own level every boxed word span becomes one run over exactly the
        text it holds; inside a word nothing is a word. */
    method Feed(nodes: seq<Node>)
      requires Valid()
      modifies this
      ensures Valid() && spanDepth == old(spanDepth)
      ensures text == old(text) + Flatten(nodes)
      ensures spanDepth > 0 ==> words == old(words) && openWord == old(openWord)
      ensures spanDepth == 0 ==>
        Slices(words, text) == Slices(old(words), old(text)) + RawWords(nodes, |old(words)|)
      decreases nodes, 0
    {
      hide Flatten, RawWords, Slices;
      if nodes == [] {
        NoContent(|words|);
        assert text == old(text) + Flatten(nodes);
        assert Slices(words, text) == Slices(words, text) + RawWords(nodes, |words|);
        return;
      }
      FeedNode(nodes[0]);
      ghost var first, said := RawWords([nodes[0]], |old(words)|), Flatten([nodes[0]]);
      Feed(nodes[1..]);
      ContentHead(nodes, |old(words)|);
      Assoc(old(text), said, Flatten(nodes[1..]));
      if spanDepth == 0 {
        Assoc(Slices(old(words), old(text)), first, RawWords(nodes[1..], |old(words)| + |first|));
      }
    }

    method FeedNode(node: Node)
      requires Valid()
      modifies this
      ensures Valid() && spanDepth == old(spanDepth)
      ensures text == old(text) + Flatten([node])
      ensures spanDepth > 0 ==> words == old(words) && openWord == old(openWord)
      ensures spanDepth == 0 ==>
        && Slices(words, text) == Slices(old(words), old(text)) + RawWords([node], |old(words)|)
        && |words| == |old(words)| + |RawWords([node], |old(words)|)|
      decreases node, 2
    {
      assert [node][1..] == [];
      match node {
        case Text(s) =>
          assert Flatten([node]) == s;
          assert Slices(words, text) + [] == Slices(words, text);
          SlicesOfLongerText(words, text, s);
          Push(s);
        case Span(word, kids) =>
          assert Flatten([node]) == Flatten(kids);
          FeedSpan(word, kids);
      }
    }

    method FeedSpan(word: Option<Box>, kids: seq<Node>)
      requires Valid()
      modifies this
      ensures Valid() && spanDepth == old(spanDepth)
      ensures text == old(text) + Flatten(kids)
      ensures spanDepth > 0 ==> words == old(words) && openWord == old(openWord)
      ensures spanDepth == 0 ==>
        Slices(words, text) == Slices(old(words), old(text)) +
          if word.Some? && |old(words)| < MAX_INLINE_SPANS then [(Flatten(kids), word.value)] else []
      ensures spanDepth == 0 ==>
        |words| == |old(words)| + if word.Some? && |old(words)| < MAX_INLINE_SPANS then 1 else 0
      decreases kids, 1
    {
      OpenSpan(word);
      ghost var current, before, start := openWord, words, text;
      SlicesOfLongerText(before, start, Flatten(kids));
      Feed(kids);
      CloseSpan();
      assert text == start + Flatten(kids);
      if spanDepth == 0 {
        if current.Some? {
          assert text[|start|..] == Flatten(kids);
          ghost var w := WordBuild(|start|, |text|, current.value.bbox);
          SlicesSnoc(before, w, text);
          assert w.bbox == word.value;
          assert words == before + [w];
          assert text[w.start..w.end] == Flatten(kids);
          assert Slices(before, text) == Slices(before, start);
        } else {
          assert Slices(before, text) + [] == Slices(before, text);
        }
      }
    }

    /** The finished line: its collapsed text and the boxes of its words. */
    method Finish() returns (out: string, boxes: seq<WordBox>)
      requires Valid()
      ensures out == Join(Words(text))
      ensures Boxed(boxes, out) && Covered(boxes, out) == KeptWords(Slices(words, text))
    {
      var positions;
      out, positions := CollapsePositions(text);
      CollapsedIsJoinedWords(text);
      FinishWordsCovers(words, text);
      boxes := FinishWords(words, positions);
    }
  }

  /** A whole line: the text is its character data collapsed, its boxes come out
      disjoint and in reading order, and each box covers exactly the collapse
      of the text its own word held. */
  method CaptureLine(line: seq<Node>) returns (out: string, boxes: seq<WordBox>)
    ensures out == Join(Words(Flatten(line)))
    ensures Boxed(boxes, out) && Covered(boxes, out) == KeptWords(RawWords(line, 0))
  {
    var capture := new OcrCapture();
    capture.Feed(line);
    assert "" + Flatten(line) == Flatten(line);
    assert [] + RawWords(line, 0) == RawWords(line, 0);
    out, boxes := capture.Finish();
  }
}
