/** Whitespace collapse: every run of whitespace becomes one space and the ends
    are trimmed, with and without a record of where each character landed. */
module Collapse {
  import opened Basics
  import opened Wrappers

  /** A half-open range of positions in a collapsed text. */
  datatype Range = Range(start: nat, end: nat)

  /** The characters with the Unicode White_Space property. */
  predicate IsWhitespace(c: char) {
    var p := c as int;
    || 0x09 <= p <= 0x0D || p == 0x20 || p == 0x85 || p == 0xA0 || p == 0x1680
    || 0x2000 <= p <= 0x200A || p == 0x2028 || p == 0x2029 || p == 0x202F || p == 0x205F || p == 0x3000
  }

  predicate Blank(s: string) {
    forall i :: 0 <= i < |s| ==> IsWhitespace(s[i])
  }

  // ------------------------------------------------------- what collapsing means

  /** Length of the leading run of characters that are not whitespace. */
  function WordLength(s: string): (n: nat)
    ensures n <= |s|
    ensures forall i :: 0 <= i < n ==> !IsWhitespace(s[i])
    ensures n < |s| ==> IsWhitespace(s[n])
  {
    if s == [] || IsWhitespace(s[0]) then 0 else 1 + WordLength(s[1..])
  }

  /** The whitespace-separated words of a text, first to last. */
  function Words(s: string): seq<string>
    decreases |s|
  {
    if s == [] then []
    else if IsWhitespace(s[0]) then Words(s[1..])
    else [s[..WordLength(s)]] + Words(s[WordLength(s)..])
  }

  function Join(words: seq<string>): string {
    if words == [] then ""
    else if |words| == 1 then words[0]
    else words[0] + " " + Join(words[1..])
  }

  // -------------------------------------------------------- one pass, left to right

  /** What a single pass holds: the text written so far and whether it owes a
      space before the next character it keeps. */
  datatype Pass = Pass(out: string, pending: bool) {
    function Feed(c: char): Pass {
      if IsWhitespace(c) then Pass(out, out != "")
      else Pass(if pending then out + [' ', c] else out + [c], false)
    }
  }

  const START := Pass("", false)

  function Scan(p: Pass, s: string): Pass
    decreases |s|
  {
    if s == [] then p else Scan(p.Feed(s[0]), s[1..])
  }

  /** The text one pass leaves of s. */
  function Collapsed(s: string): string {
    Scan(START, s).out
  }

  lemma {:induction false} ScanConcat(p: Pass, a: string, b: string)
    ensures Scan(p, a + b) == Scan(Scan(p, a), b)
    decreases |a|
  {
    if a == [] {
      assert a + b == b;
    } else {
      assert (a + b)[1..] == a[1..] + b;
      ScanConcat(p.Feed(a[0]), a[1..], b);
    }
  }

  lemma ScanSnoc(p: Pass, s: string, c: char)
    ensures Scan(p, s + [c]) == Scan(p, s).Feed(c)
  {
    ScanConcat(p, s, [c]);
    assert Scan(Scan(p, s), [c]) == Scan(Scan(p, s).Feed(c), [c][1..]);
  }

  lemma BlankTail(s: string)
    requires s != []
    ensures Blank(s) <==> IsWhitespace(s[0]) && Blank(s[1..])
  {
    if IsWhitespace(s[0]) && Blank(s[1..]) {
      forall i | 0 <= i < |s| ensures IsWhitespace(s[i]) {
        if i > 0 { assert s[i] == s[1..][i - 1]; }
      }
    }
  }

  /** The separator a collapse leaves in front of b, when text precedes it. */
  function Seam(pending: bool, b: string): string
    requires b != ""
  {
    if pending || IsWhitespace(b[0]) then " " else ""
  }

  /** What a pass that has already written text adds for s: nothing when s is
      blank, and otherwise the collapse of s after at most one space. */
  ghost predicate AddsCollapse(p: Pass, s: string) {
    if Blank(s) then
      Collapsed(s) == "" && Scan(p, s) == Pass(p.out, p.pending || s != "")
    else
      && Collapsed(s) != ""
      && Scan(p, s) == Pass(p.out + Seam(p.pending, s) + Collapsed(s), Scan(START, s).pending)
  }

  lemma AddsCollapseWhitespace(p: Pass, c: char, t: string)
    requires p.out != "" && IsWhitespace(c) && AddsCollapse(Pass(p.out, true), t)
    ensures AddsCollapse(p, [c] + t)
  {
    var s := [c] + t;
    BlankTail(s);
    assert s[1..] == t && Scan(p, s) == Scan(p.Feed(c), t) && Scan(START, s) == Scan(START.Feed(c), t);
  }

  lemma FeedCharacter(p: Pass, c: char)
    requires !IsWhitespace(c)
    ensures p.Feed(c) == Pass(p.out + ((if p.pending then " " else "") + [c]), false)
    ensures START.Feed(c) == Pass([c], false)
  {
    assert [' ', c] == " " + [c] && [c] == "" + [c];
  }

  lemma AddsCollapseCharacter(p: Pass, c: char, t: string)
    requires p.out != "" && !IsWhitespace(c)
    requires AddsCollapse(p.Feed(c), t) && AddsCollapse(Pass([c], false), t)
    ensures AddsCollapse(p, [c] + t)
  {
    var s, seam := [c] + t, if p.pending then " " else "";
    BlankTail(s);
    assert s[0] == c && s[1..] == t;
    FeedCharacter(p, c);
    var q := p.Feed(c);
    assert Scan(p, s) == Scan(q, t) && Scan(START, s) == Scan(Pass([c], false), t);
    if Blank(t) {
      Assoc(p.out, seam, [c]);
    } else {
      var added := Seam(false, t) + Collapsed(t);
      Assoc(q.out, Seam(false, t), Collapsed(t));
      Assoc([c], Seam(false, t), Collapsed(t));
      Assoc(p.out, seam + [c], added);
      Assoc(seam, [c], added);
      Assoc(p.out, seam, [c] + added);
    }
  }

  lemma {:induction false} ScanAfterText(p: Pass, s: string)
    requires p.out != ""
    ensures AddsCollapse(p, s)
    decreases |s|
  {
    if s != [] {
      var c, t := s[0], s[1..];
      assert s == [c] + t;
      if IsWhitespace(c) {
        ScanAfterText(Pass(p.out, true), t);
        AddsCollapseWhitespace(p, c, t);
      } else {
        ScanAfterText(p.Feed(c), t);
        ScanAfterText(Pass([c], false), t);
        AddsCollapseCharacter(p, c, t);
      }
    }
  }

  /** Collapsing a concatenation: blank pieces vanish, and otherwise the two
      collapsed pieces meet with at most one space between them. */
  lemma CollapsedConcat(a: string, b: string)
    ensures Collapsed(a) == "" <==> Blank(a)
    ensures Collapsed(a + b) ==
      if Blank(a) then Collapsed(b)
      else if Blank(b) then Collapsed(a)
      else Collapsed(a) + Seam(Scan(START, a).pending, b) + Collapsed(b)
  {
    ScanConcat(START, a, b);
    BlankScan(a);
    if !Blank(a) {
      ScanAfterText(Scan(START, a), b);
    }
  }

  lemma {:induction false} BlankScan(s: string)
    ensures Blank(s) ==> Scan(START, s) == START
    ensures !Blank(s) ==> Collapsed(s) != ""
    decreases |s|
  {
    if s != [] {
      BlankTail(s);
      if IsWhitespace(s[0]) {
        BlankScan(s[1..]);
      } else {
        ScanAfterText(START.Feed(s[0]), s[1..]);
      }
    }
  }

  lemma {:induction false} ScanWord(p: Pass, w: string)
    requires forall i :: 0 <= i < |w| ==> !IsWhitespace(w[i])
    requires !p.pending
    ensures Scan(p, w) == Pass(p.out + w, false)
    decreases |w|
  {
    if w == [] {
      assert p.out + w == p.out;
    } else {
      var q := Pass(p.out + [w[0]], false);
      assert p.Feed(w[0]) == q;
      ScanWord(q, w[1..]);
      Assoc(p.out, [w[0]], w[1..]);
      assert [w[0]] + w[1..] == w;
    }
  }

  lemma CollapsedFirstWord(s: string, n: nat)
    requires s != [] && !IsWhitespace(s[0]) && n == WordLength(s)
    ensures Collapsed(s) == if Blank(s[n..]) then s[..n] else s[..n] + " " + Collapsed(s[n..])
  {
    var w, rest := s[..n], s[n..];
    assert s == w + rest && w[0] == s[0];
    ScanWord(START, w);
    assert START.out + w == w;
    ScanConcat(START, w, rest);
    ScanAfterText(Pass(w, false), rest);
    if rest == [] {
    } else {
      assert rest[0] == s[n];
    }
  }

  /** The one-pass result is the words of the text joined with one space. */
  lemma {:induction false} CollapsedIsJoinedWords(s: string)
    ensures Collapsed(s) == Join(Words(s))
    ensures Blank(s) <==> Words(s) == []
    decreases |s|
  {
    if s != [] {
      BlankTail(s);
      if IsWhitespace(s[0]) {
        CollapsedIsJoinedWords(s[1..]);
      } else {
        var n := WordLength(s);
        CollapsedIsJoinedWords(s[n..]);
        CollapsedFirstWord(s, n);
        assert Words(s)[1..] == Words(s[n..]);
      }
    }
  }

  /** A collapsed text is a fixed point: it has nothing left to trim or join. */
  lemma {:induction false} CollapsedIdempotent(s: string)
    ensures Collapsed(Collapsed(s)) == Collapsed(s)
    ensures !Scan(START, Collapsed(s)).pending
    decreases |s|
  {
    if s != [] {
      var front, c := s[..|s| - 1], s[|s| - 1];
      assert s == front + [c];
      CollapsedIdempotent(front);
      ScanSnoc(START, front, c);
      var t := Collapsed(front);
      if !IsWhitespace(c) {
        BlankScan(front);
        ScanSnoc(START, t + " ", c);
        ScanSnoc(START, t, ' ');
        ScanSnoc(START, t, c);
        assert t + [' ', c] == (t + " ") + [c];
        PendingMeansText(START, front);
      }
    }
  }

  lemma {:induction false} PendingMeansText(p: Pass, s: string)
    requires p.pending ==> p.out != ""
    ensures Scan(p, s).pending ==> Scan(p, s).out != ""
    decreases |s|
  {
    if s != [] {
      PendingMeansText(p.Feed(s[0]), s[1..]);
    }
  }

  // -------------------------------------------------------------------- positions

  /** Where the character at index i of s lands in the collapsed text. */
  function Landing(s: string, i: nat): nat
    requires i < |s| && !IsWhitespace(s[i])
  {
    var p := Scan(START, s[..i]);
    if p.pending then |p.out| + 1 else |p.out|
  }

  lemma LandingAt(s: string, i: nat)
    requires i < |s|
    ensures Scan(START, s[..i + 1]) == Scan(START, s[..i]).Feed(s[i])
    ensures !IsWhitespace(s[i]) ==> |Collapsed(s[..i + 1])| == Landing(s, i) + 1
    ensures !IsWhitespace(s[i]) ==> Collapsed(s[..i + 1])[Landing(s, i)] == s[i]
  {
    assert s[..i + 1] == s[..i] + [s[i]];
    ScanSnoc(START, s[..i], s[i]);
  }

  /** One entry per character: its landing position, or None for whitespace. */
  function Positions(s: string): seq<Option<nat>> {
    seq(|s|, i requires 0 <= i < |s| => if IsWhitespace(s[i]) then None else Some(Landing(s, i)))
  }

  lemma CollapsedPrefix(s: string, i: nat)
    requires i <= |s|
    ensures Collapsed(s[..i]) <= Collapsed(s)
  {
    assert s == s[..i] + s[i..];
    CollapsedConcat(s[..i], s[i..]);
  }

  /** Two kept characters land in order. */
  lemma LandingIncreasing(s: string, i: nat, j: nat)
    requires i < j < |s| && !IsWhitespace(s[i]) && !IsWhitespace(s[j])
    ensures Landing(s, i) < Landing(s, j)
  {
    CollapsedPrefix(s[..j], i + 1);
    assert s[..j][..i + 1] == s[..i + 1];
    LandingAt(s, i);
  }

  /** A kept character is the character found where it landed. */
  lemma LandingKeepsCharacter(s: string, i: nat)
    requires i < |s| && !IsWhitespace(s[i])
    ensures Landing(s, i) < |Collapsed(s)| && Collapsed(s)[Landing(s, i)] == s[i]
  {
    CollapsedPrefix(s, i + 1);
    LandingAt(s, i);
  }

  // ------------------------------------------------------------------- the loops

  method CollapseText(text: string) returns (out: string)
    ensures out == Join(Words(text))
  {
    out := "";
    var pendingSpace := false;
    for i := 0 to |text|
      invariant Scan(START, text[..i]) == Pass(out, pendingSpace)
    {
      var ch := text[i];
      LandingAt(text, i);
      if IsWhitespace(ch) {
        pendingSpace := out != "";
      } else {
        if pendingSpace {
          out := out + " ";
          pendingSpace := false;
        }
        out := out + [ch];
      }
    }
    assert text[..|text|] == text;
    CollapsedIsJoinedWords(text);
  }

  method CollapsePositions(text: string) returns (out: string, positions: seq<Option<nat>>)
    ensures out == Join(Words(text))
    ensures positions == Positions(text)
    ensures forall i :: 0 <= i < |text| ==> (positions[i] == None <==> IsWhitespace(text[i]))
    ensures forall i :: 0 <= i < |text| && positions[i] != None ==>
      positions[i].value < |out| && out[positions[i].value] == text[i]
    ensures forall i, j :: 0 <= i < j < |text| && positions[i] != None && positions[j] != None ==>
      positions[i].value < positions[j].value
  {
    out, positions := "", [];
    var pendingSpace, count := false, 0;
    for i := 0 to |text|
      invariant Scan(START, text[..i]) == Pass(out, pendingSpace) && count == |out|
      invariant positions == Positions(text)[..i]
    {
      var ch := text[i];
      LandingAt(text, i);
      if IsWhitespace(ch) {
        pendingSpace := count > 0;
        positions := positions + [None];
      } else {
        if pendingSpace {
          out := out + " ";
          count := count + 1;
          pendingSpace := false;
        }
        out := out + [ch];
        positions := positions + [Some(count)];
        count := count + 1;
      }
    }
    assert text[..|text|] == text;
    CollapsedIsJoinedWords(text);
    PositionsKeepText(text);
  }

  lemma PositionsKeepText(s: string)
    ensures var p, t := Positions(s), Collapsed(s);
      && (forall i :: 0 <= i < |s| && p[i] != None ==> p[i].value < |t| && t[p[i].value] == s[i])
      && (forall i, j :: 0 <= i < j < |s| && p[i] != None && p[j] != None ==> p[i].value < p[j].value)
  {
    var p, t := Positions(s), Collapsed(s);
    forall i | 0 <= i < |s| && p[i] != None ensures p[i].value < |t| && t[p[i].value] == s[i] {
      LandingKeepsCharacter(s, i);
    }
    forall i, j | 0 <= i < j < |s| && p[i] != None && p[j] != None ensures p[i].value < p[j].value {
      LandingIncreasing(s, i, j);
    }
  }

  // ----------------------------------------------------------------------- ranges

  function FirstKept(positions: seq<Option<nat>>): Option<nat> {
    if positions == [] then None
    else if positions[0].Some? then positions[0]
    else FirstKept(positions[1..])
  }

  function LastKept(positions: seq<Option<nat>>): Option<nat> {
    if positions == [] then None
    else if positions[|positions| - 1].Some? then positions[|positions| - 1]
    else LastKept(positions[..|positions| - 1])
  }

  /** Where the characters of a raw range land: from the first kept one to the last, or
      None when the range keeps none. */
  function CollapsedRange(positions: seq<Option<nat>>, start: nat, end: nat): Option<Range> {
    var end := if end < |positions| then end else |positions|;
    if start >= end then None
    else
      var kept := positions[start..end];
      match FirstKept(kept)
      case None => None
      case Some(first) =>
        match LastKept(kept)
        case None => Some(Range(first, first + 1))
        case Some(last) => Some(Range(first, last + 1))
  }

  lemma {:induction false} FirstKeptIndex(positions: seq<Option<nat>>)
    returns (i: nat)
    ensures FirstKept(positions).Some? ==>
      i < |positions| && positions[i] == FirstKept(positions) && forall j :: 0 <= j < i ==> positions[j].None?
    ensures FirstKept(positions).None? <==> forall j :: 0 <= j < |positions| ==> positions[j].None?
  {
    i := 0;
    if positions != [] && positions[0].None? {
      var k := FirstKeptIndex(positions[1..]);
      i := k + 1;
      assert forall j :: 1 <= j < |positions| ==> positions[j] == positions[1..][j - 1];
    }
  }

  lemma {:induction false} LastKeptIndex(positions: seq<Option<nat>>)
    returns (i: nat)
    ensures LastKept(positions).Some? ==>
      i < |positions| && positions[i] == LastKept(positions)
      && forall j :: i < j < |positions| ==> positions[j].None?
    ensures LastKept(positions).None? <==> forall j :: 0 <= j < |positions| ==> positions[j].None?
  {
    i := 0;
    if positions != [] {
      var n := |positions| - 1;
      if positions[n].Some? {
        i := n;
      } else {
        i := LastKeptIndex(positions[..n]);
      }
    }
  }

  lemma BlankWhereNoneKept(s: string, start: nat, end: nat, i: nat, j: nat)
    requires start <= i <= j <= end <= |s|
    requires forall k :: i - start <= k < j - start ==> Positions(s)[start..end][k].None?
    ensures Blank(s[i..j])
  {
    var slice := s[i..j];
    forall k | 0 <= k < |slice| ensures IsWhitespace(slice[k]) {
      assert Positions(s)[start..end][i - start + k] == Positions(s)[i + k];
    }
  }

  lemma RangeIsNoneWhenBlank(s: string, start: nat, end: nat)
    requires start <= end <= |s|
    ensures CollapsedRange(Positions(s), start, end).None? <==> Blank(s[start..end])
    ensures FirstKept(Positions(s)[start..end]).None? <==> Blank(s[start..end])
    ensures LastKept(Positions(s)[start..end]).None? <==> Blank(s[start..end])
  {
    var kept := Positions(s)[start..end];
    var a := FirstKeptIndex(kept);
    var b := LastKeptIndex(kept);
    NoneKeptMeansBlank(s, start, end, kept);
    if start == end {
      assert Blank(s[start..end]);
    }
  }

  lemma NoneKeptMeansBlank(s: string, start: nat, end: nat, kept: seq<Option<nat>>)
    requires start <= end <= |s| && kept == Positions(s)[start..end]
    ensures (forall k :: 0 <= k < |kept| ==> kept[k].None?) <==> Blank(s[start..end])
  {
    if forall k :: 0 <= k < |kept| ==> kept[k].None? {
      BlankWhereNoneKept(s, start, end, start, end);
    }
    if Blank(s[start..end]) {
      forall k | 0 <= k < |kept| ensures kept[k].None? {
        assert IsWhitespace(s[start..end][k]) && kept[k] == Positions(s)[start + k];
      }
    }
  }

  /** The first and last characters of a raw range that survive collapsing. */
  lemma RangeEnds(s: string, start: nat, end: nat) returns (i: nat, j: nat)
    requires start <= end <= |s| && !Blank(s[start..end])
    ensures start <= i <= j < end && !IsWhitespace(s[i]) && !IsWhitespace(s[j])
    ensures Blank(s[start..i]) && Blank(s[j + 1..end])
    ensures CollapsedRange(Positions(s), start, end) == Some(Range(Landing(s, i), Landing(s, j) + 1))
  {
    var kept := Positions(s)[start..end];
    RangeIsNoneWhenBlank(s, start, end);
    var a := FirstKeptIndex(kept);
    var b := LastKeptIndex(kept);
    i, j := start + a, start + b;
    assert kept[a] == Positions(s)[i] && kept[b] == Positions(s)[j];
    BlankWhereNoneKept(s, start, end, start, i);
    BlankWhereNoneKept(s, start, end, j + 1, end);
  }

  /** Trimming blank ends off a slice does not change its collapse. */
  lemma CollapsedTrim(s: string, start: nat, i: nat, j: nat, end: nat)
    requires start <= i <= j <= end <= |s| && Blank(s[start..i]) && Blank(s[j..end])
    ensures Collapsed(s[start..end]) == Collapsed(s[i..j])
  {
    assert s[start..end] == s[start..i] + s[i..end];
    assert s[i..end] == s[i..j] + s[j..end];
    CollapsedConcat(s[start..i], s[i..end]);
    CollapsedConcat(s[i..j], s[j..end]);
    BlankScan(s[j..end]);
  }

  /** From a kept character on, the collapse is the collapse of the rest. */
  lemma SliceFromKept(s: string, i: nat)
    requires i < |s| && !IsWhitespace(s[i])
    ensures Landing(s, i) <= |Collapsed(s)| && Collapsed(s)[Landing(s, i)..] == Collapsed(s[i..])
  {
    var a, b := s[..i], s[i..];
    assert s == a + b && b[0] == s[i] && !Blank(b);
    CollapsedConcat(a, b);
    LandingAt(s, i);
    LandingKeepsCharacter(s, i);
    BlankScan(a);
  }

  lemma SliceBetweenKept(s: string, i: nat, j: nat)
    requires i <= j < |s| && !IsWhitespace(s[i]) && !IsWhitespace(s[j])
    ensures Landing(s, i) <= Landing(s, j) < |Collapsed(s)|
    ensures Collapsed(s)[Landing(s, i)..Landing(s, j) + 1] == Collapsed(s[i..j + 1])
  {
    var whole := s[..j + 1];
    if i < j { LandingIncreasing(s, i, j); }
    LandingKeepsCharacter(s, j);
    CollapsedPrefix(s, j + 1);
    LandingAt(s, j);
    SliceFromKept(whole, i);
    assert whole[..i] == s[..i];
    assert whole[i..] == s[i..j + 1];
    assert Collapsed(whole) == Collapsed(s)[..Landing(s, j) + 1];
  }

  /** The law of ranges: the collapsed text sliced at a translated range is the
      collapse of the raw slice, and a range has no translation exactly when
      there was nothing but whitespace in it. */
  lemma RangeSlicesCollapse(s: string, start: nat, end: nat)
    requires start <= end <= |s|
    ensures CollapsedRange(Positions(s), start, end).None? <==> Blank(s[start..end])
    ensures CollapsedRange(Positions(s), start, end).Some? ==>
      var r := CollapsedRange(Positions(s), start, end).value;
      r.start < r.end <= |Collapsed(s)| && Collapsed(s)[r.start..r.end] == Collapsed(s[start..end])
  {
    RangeIsNoneWhenBlank(s, start, end);
    if !Blank(s[start..end]) {
      var i, j := RangeEnds(s, start, end);
      SliceOfEnds(s, start, i, j, end);
    }
  }

  lemma SliceOfEnds(s: string, start: nat, i: nat, j: nat, end: nat)
    requires start <= i <= j < end <= |s| && !IsWhitespace(s[i]) && !IsWhitespace(s[j])
    requires Blank(s[start..i]) && Blank(s[j + 1..end])
    ensures Landing(s, i) < Landing(s, j) + 1 <= |Collapsed(s)|
    ensures Collapsed(s)[Landing(s, i)..Landing(s, j) + 1] == Collapsed(s[start..end])
  {
    CollapsedTrim(s, start, i, j + 1, end);
    SliceBetweenKept(s, i, j);
  }

  lemma BlankAt(s: string, a: nat, b: nat, k: nat)
    requires a <= k < b <= |s| && Blank(s[a..b])
    ensures IsWhitespace(s[k])
  {
    assert s[a..b][k - a] == s[k];
  }

  /** Nested raw ranges stay nested and disjoint ones stay disjoint. */
  lemma RangesKeepTheirOrder(s: string, a: nat, b: nat, c: nat, d: nat)
    requires a <= b <= |s| && c <= d <= |s|
    requires !Blank(s[a..b]) && !Blank(s[c..d])
    ensures var p := CollapsedRange(Positions(s), a, b);
            var q := CollapsedRange(Positions(s), c, d);
            && p.Some? && q.Some?
            && (a <= c && d <= b ==> p.value.start <= q.value.start && q.value.end <= p.value.end)
            && (b <= c ==> p.value.end <= q.value.start)
  {
    var i, j := RangeEnds(s, a, b);
    var k, l := RangeEnds(s, c, d);
    if a <= c && d <= b {
      if k < i { BlankAt(s, a, i, k); }
      if j < l { BlankAt(s, j + 1, b, l); }
      if i < k { LandingIncreasing(s, i, k); }
      if l < j { LandingIncreasing(s, l, j); }
    }
    if b <= c {
      LandingIncreasing(s, j, k);
    }
  }
}
