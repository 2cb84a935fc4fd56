/** What the repair filter computes, stated on the whole input: as a list of
    edits found by looking one byte ahead, and as a rewrite that searches for
    the ends of CDATA sections and comments. */
module RepairMeaning {
  import opened Basics
  import opened Repair

  // ------------------------------------------------------------------ edit scripts

  datatype Edit = Keep | Drop | Escape

  /** The edit of each byte of s, given the state reached before it: a forbidden
      control is dropped, and a `<` that is checked is escaped unless the very
      next byte can start markup. */
  function Script(st: State, s: seq<Byte>): (script: seq<Edit>)
    ensures |script| == |s|
    decreases |s|
  {
    if s == [] then []
    else
      [if IsForbiddenControl(s[0]) then Drop
       else if st.Next(s[0]) == Lt && !(|s| > 1 && StartsMarkup(s[1])) then Escape
       else Keep]
      + Script(st.Next(s[0]), s[1..])
  }

  /** What an edit leaves of its byte. */
  function Result(edit: Edit, b: Byte): seq<Byte> {
    match edit
    case Keep => [b]
    case Drop => []
    case Escape => ESCAPED
  }

  function Apply(script: seq<Edit>, s: seq<Byte>): seq<Byte>
    requires |script| == |s|
  {
    if s == [] then [] else Result(script[0], s[0]) + Apply(script[1..], s[1..])
  }

  function Changes(script: seq<Edit>): nat {
    if script == [] then 0 else (if script[0].Keep? then 0 else 1) + Changes(script[1..])
  }

  /** What a held `<` still owes before the rest of the input. */
  function Owed(st: State, s: seq<Byte>): seq<Byte> {
    if !st.Lt? then [] else if s != [] && StartsMarkup(s[0]) then [LT] else ESCAPED
  }

  /** Holding one byte back and looking one byte ahead come to the same. */
  lemma {:induction false} ScanAppliesScript(st: State, s: seq<Byte>)
    ensures var f := Scan(Filter(st, [], 0), s).Finish();
      && f.out == Owed(st, s) + Apply(Script(st, s), s)
      && f.repairs == (if Owed(st, s) == ESCAPED then 1 else 0) + Changes(Script(st, s))
    decreases |s|
  {
    if s == [] {
      assert Owed(st, s) + [] == Owed(st, s);
    } else {
      var f, st' := Filter(st, [], 0), st.Next(s[0]);
      var rest := Scan(Filter(st', [], 0), s[1..]);
      ScanBase(f.Feed(s[0]), s[1..]);
      ScanAppliesScript(st', s[1..]);
      assert f.Feed(s[0]).out == st.Emits(s[0]);
      assert Scan(f, s).Finish().out == st.Emits(s[0]) + rest.Finish().out by {
        Assoc(st.Emits(s[0]), rest.out, ESCAPED);
      }
      ScriptStep(st, s);
      Assoc(st.Emits(s[0]), Owed(st', s[1..]), Apply(Script(st', s[1..]), s[1..]));
      ScriptStepCount(st, s);
    }
  }

  lemma ScriptStepCount(st: State, s: seq<Byte>)
    requires s != []
    ensures (if Owed(st, s) == ESCAPED then 1 else 0) + Changes(Script(st, s))
         == st.Repairs(s[0]) + (if Owed(st.Next(s[0]), s[1..]) == ESCAPED then 1 else 0)
            + Changes(Script(st.Next(s[0]), s[1..]))
  {
    assert Script(st, s)[1..] == Script(st.Next(s[0]), s[1..]);
    assert [LT] != ESCAPED;
  }

  lemma Nothing(a: seq<Byte>)
    ensures a + [] == a && [] + a == a
  {
  }

  /** A byte passes at once or is owed as a `<`, and either way comes to what its
      edit leaves of it. */
  lemma ScriptStep(st: State, s: seq<Byte>)
    requires s != []
    ensures var rest := Apply(Script(st.Next(s[0]), s[1..]), s[1..]);
      Owed(st, s) + Apply(Script(st, s), s) == st.Emits(s[0]) + Owed(st.Next(s[0]), s[1..]) + rest
  {
    var script, b, owed := Script(st, s), s[0], Owed(st.Next(s[0]), s[1..]);
    assert script[1..] == Script(st.Next(b), s[1..]);
    var rest := Apply(script[1..], s[1..]);
    var own := Result(script[0], b);
    assert own == st.Passes(b) + owed by {
      Nothing(own);
      assert |s| > 1 ==> s[1] == s[1..][0];
      assert st.Next(b) == Lt ==> b == LT && !IsForbiddenControl(b);
    }
    assert st.Releases(b) == Owed(st, s);
    Assoc(st.Releases(b), st.Passes(b), owed);
    Assoc(st.Releases(b), own, rest);
  }

  /** The output is the input with the script applied, nothing else; the tally
      counts exactly the bytes the script does not keep. */
  lemma RepairedIsScript(s: seq<Byte>)
    ensures Repaired(s).out == Apply(Script(Text, s), s)
    ensures Repaired(s).repairs == Changes(Script(Text, s))
  {
    ScanAppliesScript(Text, s);
    assert [] + Apply(Script(Text, s), s) == Apply(Script(Text, s), s);
  }

  /** Which bytes are edited: a byte is dropped exactly when it is a forbidden
      control, and an escaped byte is a `<` that no markup-starting byte
      follows. */
  lemma {:induction false} ScriptAt(st: State, s: seq<Byte>, i: nat)
    requires i < |s|
    ensures Script(st, s)[i] == Drop <==> IsForbiddenControl(s[i])
    ensures Script(st, s)[i] == Escape ==> s[i] == LT && (i + 1 == |s| || !StartsMarkup(s[i + 1]))
    decreases |s|
  {
    if i > 0 {
      ScriptAt(st.Next(s[0]), s[1..], i - 1);
    }
  }

  lemma {:induction false} ApplyBounds(script: seq<Edit>, s: seq<Byte>)
    requires |script| == |s|
    ensures |Apply(script, s)| <= |s| + 3 * Changes(script)
    ensures Changes(script) <= |s|
    ensures Changes(script) == 0 ==> Apply(script, s) == s
  {
    if s != [] {
      ApplyBounds(script[1..], s[1..]);
      if Changes(script) == 0 {
        assert s == [s[0]] + s[1..];
      }
    }
  }

  /** Forbidden controls in a byte string; no repair writes one. */
  function Controls(s: seq<Byte>): nat {
    if s == [] then 0 else (if IsForbiddenControl(s[0]) then 1 else 0) + Controls(s[1..])
  }

  lemma {:induction false} ControlsConcat(a: seq<Byte>, b: seq<Byte>)
    ensures Controls(a + b) == Controls(a) + Controls(b)
  {
    if a == [] {
      assert a + b == b;
    } else {
      assert (a + b)[1..] == a[1..] + b;
      ControlsConcat(a[1..], b);
    }
  }

  /** A script that changes anything removes a control or lengthens the text by
      three for every `<` it escapes, so it never leaves the input as it was. */
  lemma {:induction false} ChangeShows(st: State, s: seq<Byte>)
    ensures Controls(Apply(Script(st, s), s)) == 0
    ensures Controls(s) == 0 ==> |Apply(Script(st, s), s)| == |s| + 3 * Changes(Script(st, s))
    decreases |s|
  {
    if s != [] {
      ChangeShows(st.Next(s[0]), s[1..]);
      var script := Script(st, s);
      assert script[1..] == Script(st.Next(s[0]), s[1..]);
      var own := Result(script[0], s[0]);
      assert Apply(script, s) == own + Apply(script[1..], s[1..]);
      ControlsConcat(own, Apply(script[1..], s[1..]));
      ControlsConcat([s[0]], s[1..]);
      assert s == [s[0]] + s[1..];
      NoControlsInEscape();
      assert Controls([s[0]]) == if IsForbiddenControl(s[0]) then 1 else 0 by { assert [s[0]][1..] == []; }
    }
  }

  lemma NoControlsInEscape()
    ensures Controls(ESCAPED) == 0
  {
    assert ESCAPED[1..][1..][1..][1..] == [];
  }

  /** The trailer's count is honest: it is zero exactly when the parser reads the
      input as the caller sent it, and the output is at most four times as long. */
  lemma RepairIsAccountedFor(s: seq<Byte>)
    ensures Repaired(s).repairs == 0 <==> Repaired(s).out == s
    ensures |Repaired(s).out| <= 4 * |s|
    ensures Repaired(s).repairs <= |s|
    ensures Controls(Repaired(s).out) == 0
  {
    RepairedIsScript(s);
    ApplyBounds(Script(Text, s), s);
    ChangeShows(Text, s);
  }

  // -------------------------------------------------------------------- idempotence

  /** Reading back what the filter has written repairs nothing and reaches the
      same state; a `<` still held back has not been written. */
  ghost predicate Clean(f: Filter) {
    var again := Scan(START, f.out);
    && again.out == f.out && again.repairs == 0
    && (if f.state.Lt? then again.state.Text? || again.state.Bang? else again.state == f.state)
  }

  lemma CleanAfter(f: Filter, more: seq<Byte>, st: State)
    requires Clean(f)
    requires var g := Scan(Filter(Scan(START, f.out).state, [], 0), more);
      g.out == more && g.repairs == 0 && g.state == st
    ensures Scan(START, f.out + more) == Filter(st, f.out + more, 0)
  {
    ScanConcat(START, f.out, more);
    ScanBase(Scan(START, f.out), more);
  }

  /** Scanning one or two literal bytes. */
  lemma ScanOne(f: Filter, a: Byte)
    ensures Scan(f, [a]) == f.Feed(a)
  {
    assert Scan(f, [a]) == Scan(f.Feed(a), [a][1..]);
  }

  lemma FeedOther(f: Filter, b: Byte)
    requires f.state.Text? || f.state.Bang?
    requires !IsForbiddenControl(b) && b != LT && !f.state.Continues(b)
    ensures f.Feed(b) == Filter(Text, f.out + [b], f.repairs)
  {
    assert [] + [b] == [b];
  }

  lemma {:induction false} ScanOther(f: Filter, s: seq<Byte>)
    requires f.state.Text?
    requires forall i :: 0 <= i < |s| ==> !IsForbiddenControl(s[i]) && s[i] != LT
    ensures Scan(f, s) == Filter(Text, f.out + s, f.repairs)
    decreases |s|
  {
    if s == [] {
      Nothing(f.out);
    } else {
      FeedOther(f, s[0]);
      ScanOther(Filter(Text, f.out + [s[0]], f.repairs), s[1..]);
      Assoc(f.out, [s[0]], s[1..]);
      assert [s[0]] + s[1..] == s;
    }
  }

  lemma ScanEscape(st: State)
    requires st.Text? || st.Bang?
    ensures Scan(Filter(st, [], 0), ESCAPED) == Filter(Text, ESCAPED, 0)
  {
    var amp := ESCAPED[0];
    if st.Continues(amp) {
      OpenersAreOther(st.Choice(amp), st.matched);
    }
    FeedOther(Filter(st, [], 0), amp);
    ScanOther(Filter(Text, [amp], 0), ESCAPED[1..]);
    assert [amp] + ESCAPED[1..] == ESCAPED && [] + [amp] == [amp];
  }

  lemma CleanFeed(f: Filter, b: Byte)
    requires Clean(f)
    ensures Clean(f.Feed(b))
  {
    if f.state.Lt? && StartsMarkup(b) {
      CleanMarkup(f, b);
    } else if f.state.Lt? {
      CleanEscape(f, b);
    } else {
      var st := Scan(START, f.out).state;
      var more := f.state.Emits(b);
      Nothing(f.state.Passes(b));
      if more == [] {
        Nothing(f.out);
      } else {
        ScanOne(Filter(st, [], 0), b);
        Nothing(more);
        CleanAfter(f, more, f.state.Next(b));
      }
    }
  }

  lemma OpenersAreOther(section: Opener, m: nat)
    requires m < |section.Bytes()|
    ensures section.Bytes()[m] != LT && section.Bytes()[m] != ESCAPED[0]
  {
    if section == CommentSection {
      assert m == 0 || m == 1;
    } else {
      assert m == 0 || m == 1 || m == 2 || m == 3 || m == 4 || m == 5 || m == 6;
    }
  }

  lemma FeedLt(f: Filter)
    requires f.state.Text? || f.state.Bang?
    ensures f.Feed(LT) == Filter(Lt, f.out, f.repairs)
  {
    if f.state.Continues(LT) {
      OpenersAreOther(f.state.Choice(LT), f.state.matched);
    }
    Nothing(f.out);
  }

  lemma MarkupEmits(b: Byte)
    requires StartsMarkup(b)
    ensures Lt.Emits(b) == [LT] + [b] && Lt.Repairs(b) == 0 && !Lt.Next(b).Lt?
  {
  }

  lemma ScanMarkup(f: Filter, b: Byte)
    requires StartsMarkup(b) && (f.state.Text? || f.state.Bang?) && f.out == [] && f.repairs == 0
    ensures Scan(f, [LT] + [b]) == Filter(Lt.Next(b), [LT] + [b], 0)
  {
    FeedLt(f);
    ScanConcat(f, [LT], [b]);
    ScanOne(f, LT);
    ScanOne(f.Feed(LT), b);
    MarkupEmits(b);
    Nothing([LT] + [b]);
  }

  /** The same when a held `<` is let go as markup, */
  lemma CleanMarkup(f: Filter, b: Byte)
    requires Clean(f) && f.state.Lt? && StartsMarkup(b)
    ensures Clean(f.Feed(b))
  {
    MarkupEmits(b);
    ScanMarkup(Filter(Scan(START, f.out).state, [], 0), b);
    CleanAfter(f, [LT] + [b], Lt.Next(b));
    assert f.Feed(b).out == f.out + ([LT] + [b]);
    assert f.Feed(b).state == Lt.Next(b);
  }

  /** and when it is let go as text. */
  lemma CleanEscape(f: Filter, b: Byte)
    requires Clean(f) && f.state.Lt? && !StartsMarkup(b)
    ensures Clean(f.Feed(b))
  {
    ScanEscape(Scan(START, f.out).state);
    CleanAfter(f, ESCAPED, Text);
    Assoc(f.out, ESCAPED, f.state.Passes(b));
    if IsForbiddenControl(b) || b == LT {
      Nothing(ESCAPED);
    } else {
      var g := Filter(Text, f.out + ESCAPED, 0);
      ScanConcat(START, f.out + ESCAPED, [b]);
      ScanOne(g, b);
      FeedOther(g, b);
    }
  }

  lemma {:induction false} CleanScan(f: Filter, s: seq<Byte>)
    requires Clean(f)
    ensures Clean(Scan(f, s))
    decreases |s|
  {
    if s != [] {
      CleanFeed(f, s[0]);
      CleanScan(f.Feed(s[0]), s[1..]);
    }
  }

  /** Repairing a repaired input changes nothing more. */
  lemma RepairedTwice(s: seq<Byte>)
    ensures Repaired(Repaired(s).out).out == Repaired(s).out
    ensures Repaired(Repaired(s).out).repairs == 0
  {
    CleanScan(START, s);
    var f := Scan(START, s);
    if f.state.Lt? {
      ScanEscape(Scan(START, f.out).state);
      CleanAfter(f, ESCAPED, Text);
    }
  }

  // ----------------------------------------------------- sections, found by searching

  /** `]]>` or `-->`. */
  function Terminator(section: Opener): seq<Byte> {
    [section.Closer(), section.Closer(), GT]
  }

  /** Length of s up to and including the first occurrence of the terminator, or
      all of s when there is none. */
  function UpToTerminator(section: Opener, s: seq<Byte>): (n: nat)
    ensures n <= |s|
  {
    if |s| < 3 then |s|
    else if s[..3] == Terminator(section) then 3
    else 1 + UpToTerminator(section, s[1..])
  }

  /** `<![CDATA[` or `<!--`. */
  function Opening(section: Opener): seq<Byte> {
    [LT, BANG] + section.Bytes()
  }

  /** The repair of a control-free text by search and replace. */
  function Rewrite(s: seq<Byte>): seq<Byte>
    decreases |s|
  {
    if s == [] then []
    else if Opening(CdataSection) <= s then RewriteSection(CdataSection, s)
    else if Opening(CommentSection) <= s then RewriteSection(CommentSection, s)
    else if s[0] == LT && !(|s| > 1 && StartsMarkup(s[1])) then ESCAPED + Rewrite(s[1..])
    else [s[0]] + Rewrite(s[1..])
  }

  /** A section passes unchanged up to its terminator, wholly after the opener. */
  function RewriteSection(section: Opener, s: seq<Byte>): seq<Byte>
    requires Opening(section) <= s
    decreases |s|, 0
  {
    var open := |Opening(section)|;
    var end := open + UpToTerminator(section, s[open..]);
    s[..end] + Rewrite(s[end..])
  }

  /** Applied(st, s) is the edited text of s read from state st. */
  function Applied(st: State, s: seq<Byte>): seq<Byte> {
    Apply(Script(st, s), s)
  }

  lemma AppliedHead(st: State, s: seq<Byte>)
    requires s != [] && !IsForbiddenControl(s[0])
    ensures Applied(st, s) ==
      (if st.Next(s[0]) == Lt && !(|s| > 1 && StartsMarkup(s[1])) then ESCAPED else [s[0]])
      + Applied(st.Next(s[0]), s[1..])
  {
    assert Script(st, s)[1..] == Script(st.Next(s[0]), s[1..]);
  }

  /** How far a section state runs: to the `>` that closes it. */
  function RunLength(section: Opener, run: nat, s: seq<Byte>): (n: nat)
    ensures n <= |s|
    decreases |s|
  {
    if s == [] then 0
    else if s[0] == GT && run >= 2 then 1
    else 1 + RunLength(section, if s[0] == section.Closer() then (if run >= 1 then 2 else 1) else 0, s[1..])
  }

  /** The closers a run stands for. */
  function Seen(section: Opener, run: nat): seq<Byte> {
    if run == 0 then [] else if run == 1 then [section.Closer()] else [section.Closer(), section.Closer()]
  }

  /** Counting closers finds the first terminator: the closers already seen count
      as if they stood in front of what is left. */
  lemma {:induction false} RunLengthIsSearch(section: Opener, run: nat, s: seq<Byte>)
    requires run <= 2
    ensures run + RunLength(section, run, s) == UpToTerminator(section, Seen(section, run) + s)
    decreases |s|
  {
    if s != [] && !(s[0] == GT && run >= 2) {
      if s[0] == section.Closer() {
        RunLengthIsSearch(section, if run >= 1 then 2 else 1, s[1..]);
        CountCloser(section, run, s);
      } else {
        RunLengthIsSearch(section, 0, s[1..]);
        SkipSeen(section, run, s);
        assert Seen(section, 0) + s[1..] == s[1..];
      }
    } else if s != [] {
      assert (Seen(section, run) + s)[..3] == Terminator(section);
    }
  }

  lemma CountCloser(section: Opener, run: nat, s: seq<Byte>)
    requires run <= 2 && s != [] && s[0] == section.Closer()
    ensures run < 2 ==> Seen(section, run) + s == Seen(section, run + 1) + s[1..]
    ensures run == 2 ==>
      UpToTerminator(section, Seen(section, run) + s) == 1 + UpToTerminator(section, Seen(section, 2) + s[1..])
  {
    var t := Seen(section, run) + s;
    assert s == [s[0]] + s[1..];
    if run == 2 {
      NoMatchAt(section, t, 2);
      assert t[1..] == Seen(section, 2) + s[1..];
    }
  }

  lemma SkipSeen(section: Opener, run: nat, s: seq<Byte>)
    requires run <= 2 && s != [] && s[0] != section.Closer() && !(s[0] == GT && run == 2)
    ensures UpToTerminator(section, Seen(section, run) + s) == run + 1 + UpToTerminator(section, s[1..])
    decreases run
  {
    var t := Seen(section, run) + s;
    if run == 0 {
      assert t == s;
      NoMatchAt(section, s, 0);
    } else {
      assert t[run] == s[0] && t[1..] == Seen(section, run - 1) + s;
      NoMatchAt(section, t, run);
      SkipSeen(section, run - 1, s);
    }
  }

  lemma NoMatchAt(section: Opener, t: seq<Byte>, k: nat)
    requires k <= 2 && k < |t| && t[k] != Terminator(section)[k]
    ensures UpToTerminator(section, t) == 1 + UpToTerminator(section, t[1..])
  {
    if |t| >= 3 {
      assert t[..3][k] == t[k];
    }
  }

  lemma ControlsTail(s: seq<Byte>, n: nat)
    requires n <= |s| && Controls(s) == 0
    ensures Controls(s[..n]) == 0 && Controls(s[n..]) == 0
  {
    assert s == s[..n] + s[n..];
    ControlsConcat(s[..n], s[n..]);
  }

  /** Inside a section every byte is kept until its terminator. */
  lemma {:induction false} InsideKeeps(section: Opener, run: nat, s: seq<Byte>)
    requires Controls(s) == 0
    ensures var n := RunLength(section, run, s);
      Applied(Inside(section, run), s) == s[..n] + Applied(Text, s[n..])
    decreases |s|
  {
    var st := Inside(section, run);
    if s == [] {
    } else {
      ControlsTail(s, 1);
      AppliedHead(st, s);
      var n := RunLength(section, run, s);
      if s[0] == GT && run >= 2 {
        assert s[0] != section.Closer() && s[..1] == [s[0]];
      } else {
        var next := if s[0] == section.Closer() then (if run >= 1 then 2 else 1) else 0;
        InsideKeeps(section, next, s[1..]);
        assert st.Next(s[0]) == Inside(section, next);
        SliceAssoc(s, 1, n - 1, Applied(Text, s[n..]));
        assert s[..1] == [s[0]];
      }
    }
  }

  /** One byte of an opener that goes on is kept. */
  lemma OpenerStep(section: Opener, m: nat, s: seq<Byte>)
    requires Controls(s) == 0 && m < |section.Bytes()| && section.Bytes()[m..] <= s
    ensures Controls(s[1..]) == 0
    ensures Applied(Bang(if m == 0 then CdataSection else section, m), s) ==
      s[..1] + Applied(if m + 1 < |section.Bytes()| then Bang(section, m + 1) else Inside(section, 0), s[1..])
  {
    var bytes, st := section.Bytes(), Bang(if m == 0 then CdataSection else section, m);
    assert s[0] == bytes[m..][0] == bytes[m];
    ControlsTail(s, 1);
    AppliedHead(st, s);
    assert st.Choice(s[0]) == section;
    assert s[..1] == [s[0]];
  }

  /** After `<!`, an opener that is completed enters its section with every byte
      of it kept. */
  lemma {:induction false} OpenerCompletes(section: Opener, m: nat, s: seq<Byte>)
    requires Controls(s) == 0 && m < |section.Bytes()| && section.Bytes()[m..] <= s
    ensures var n := |section.Bytes()| - m;
      Applied(Bang(if m == 0 then CdataSection else section, m), s) == s[..n] + Applied(Inside(section, 0), s[n..])
    decreases |s|
  {
    var bytes := section.Bytes();
    var n := |bytes| - m;
    OpenerStep(section, m, s);
    if n > 1 {
      assert bytes[m + 1..] == bytes[m..][1..] && bytes[m + 1..] <= s[1..];
      OpenerCompletes(section, m + 1, s[1..]);
      SliceAssoc(s, 1, n - 1, Applied(Inside(section, 0), s[n..]));
    }
  }

  /** After `<!`, an opener that fails to complete has cost nothing: the bytes
      read as the text they are, the one it failed on included. */
  lemma {:induction false} OpenerFails(st: State, s: seq<Byte>)
    requires Controls(s) == 0 && st.Bang? && st.Valid()
    requires st.matched == 0 ==> !(CdataSection.Bytes() <= s) && !(CommentSection.Bytes() <= s)
    requires st.matched > 0 ==> !(st.opener.Bytes()[st.matched..] <= s)
    ensures Applied(st, s) == Applied(Text, s)
    decreases |s|
  {
    if s != [] {
      var m := st.matched;
      ControlsTail(s, 1);
      AppliedHead(st, s);
      AppliedHead(Text, s);
      if st.Continues(s[0]) {
        var bytes := st.Choice(s[0]).Bytes();
        NotPrefixTail(bytes[m..], s);
        assert m == 0 ==> bytes[m..] == bytes;
        assert bytes[m..][1..] == bytes[m + 1..];
        if m + 1 < |bytes| {
          OpenerFails(st.Next(s[0]), s[1..]);
        }
      }
    }
  }

  lemma NotPrefixTail(p: seq<Byte>, s: seq<Byte>)
    requires p != [] && s != [] && p[0] == s[0] && !(p <= s)
    ensures !(p[1..] <= s[1..])
  {
    assert p == [p[0]] + p[1..] && s == [s[0]] + s[1..];
  }

  /** The two bytes `<!` are kept whatever they open. */
  lemma BangIsKept(s: seq<Byte>)
    requires Controls(s) == 0 && s != [] && s[0] == BANG
    ensures Applied(Lt, s) == [BANG] + Applied(Bang(CdataSection, 0), s[1..])
    ensures Applied(Text, s) == [BANG] + Applied(Text, s[1..])
  {
    AppliedHead(Lt, s);
    AppliedHead(Text, s);
  }

  lemma BangHead(s: seq<Byte>)
    requires Controls(s) == 0 && |s| > 1 && s[0] == LT && s[1] == BANG
    ensures Applied(Text, s) == s[..2] + Applied(Bang(CdataSection, 0), s[2..])
    ensures Applied(Text, s[1..]) == [BANG] + Applied(Text, s[2..])
  {
    ControlsTail(s, 1);
    BangIsKept(s[1..]);
    assert s[1..][1..] == s[2..];
    AppliedHead(Text, s);
    Assoc([LT], [BANG], Applied(Bang(CdataSection, 0), s[2..]));
    assert s[..2] == [LT] + [BANG];
  }

  lemma SliceAssoc(s: seq<Byte>, i: nat, n: nat, tail: seq<Byte>)
    requires i + n <= |s|
    ensures s[..i] + (s[i..][..n] + tail) == s[..i + n] + tail
    ensures s[i..][n..] == s[i + n..]
  {
    assert s[..i] + s[i..][..n] == s[..i + n];
    Assoc(s[..i], s[i..][..n], tail);
  }

  lemma SectionOpens(section: Opener, s: seq<Byte>)
    requires Controls(s) == 0 && Opening(section) <= s
    ensures var open := |Opening(section)|;
      Applied(Text, s) == s[..open] + Applied(Inside(section, 0), s[open..])
  {
    var bytes := section.Bytes();
    assert s[0] == Opening(section)[0] && s[1] == Opening(section)[1];
    assert bytes == Opening(section)[2..] && bytes[0..] == bytes;
    ControlsTail(s, 2);
    BangHead(s);
    OpenerCompletes(section, 0, s[2..]);
    SliceAssoc(s, 2, |bytes|, Applied(Inside(section, 0), s[2 + |bytes|..]));
  }

  /** From the opener on, the section ends where the search says it does. */
  lemma InsideRewrites(section: Opener, rest: seq<Byte>)
    requires Controls(rest) == 0
    ensures var n := UpToTerminator(section, rest);
      Applied(Inside(section, 0), rest) == rest[..n] + Applied(Text, rest[n..])
  {
    InsideKeeps(section, 0, rest);
    RunLengthIsSearch(section, 0, rest);
    Nothing(rest);
  }

  lemma SectionRewrites(section: Opener, s: seq<Byte>, open: nat)
    requires Controls(s) == 0 && open <= |s|
    requires Applied(Text, s) == s[..open] + Applied(Inside(section, 0), s[open..])
    ensures var end := open + UpToTerminator(section, s[open..]);
      Applied(Text, s) == s[..end] + Applied(Text, s[end..])
  {
    ControlsTail(s, open);
    InsideRewrites(section, s[open..]);
    var n := UpToTerminator(section, s[open..]);
    SliceAssoc(s, open, n, Applied(Text, s[open..][n..]));
  }

  /** A `<!` that opens neither construct. */
  lemma DeclarationRewrites(s: seq<Byte>)
    requires Controls(s) == 0 && |s| > 1 && s[0] == LT && s[1] == BANG
    requires !(Opening(CdataSection) <= s) && !(Opening(CommentSection) <= s)
    ensures Applied(Text, s) == [LT] + Applied(Text, s[1..])
  {
    ControlsTail(s, 2);
    BangHead(s);
    NotOpening(CdataSection, s);
    NotOpening(CommentSection, s);
    OpenerFails(Bang(CdataSection, 0), s[2..]);
    Assoc([LT], [BANG], Applied(Text, s[2..]));
    assert s[..2] == [LT] + [BANG];
  }

  lemma NotOpening(section: Opener, s: seq<Byte>)
    requires |s| > 1 && s[0] == LT && s[1] == BANG && !(Opening(section) <= s)
    ensures !(section.Bytes() <= s[2..])
  {
    assert s == [LT, BANG] + s[2..];
  }

  /** The streaming filter is the whole-text search and replace: sections found
      by searching for their terminators are untouched, and outside them a `<`
      survives exactly when a markup-starting byte follows it. */
  lemma {:induction false} RepairedIsRewrite(s: seq<Byte>)
    requires Controls(s) == 0
    ensures Applied(Text, s) == Rewrite(s)
    ensures Repaired(s).out == Rewrite(s)
    decreases |s|
  {
    RepairedIsScript(s);
    if s == [] {
    } else if Opening(CdataSection) <= s {
      RewriteStep(CdataSection, s);
    } else if Opening(CommentSection) <= s {
      RewriteStep(CommentSection, s);
    } else {
      ControlsTail(s, 1);
      RepairedIsRewrite(s[1..]);
      if s[0] == LT && |s| > 1 && s[1] == BANG {
        DeclarationRewrites(s);
      } else {
        AppliedHead(Text, s);
        if s[0] == LT && |s| > 1 && StartsMarkup(s[1]) {
          ControlsTail(s[1..], 1);
          AppliedHead(Lt, s[1..]);
          AppliedHead(Text, s[1..]);
        } else if s[0] == LT {
          LoneLt(s);
        }
      }
    }
  }

  lemma LoneLt(s: seq<Byte>)
    requires Controls(s) == 0 && s != [] && !(|s| > 1 && StartsMarkup(s[1]))
    ensures Applied(Lt, s[1..]) == Applied(Text, s[1..])
  {
    if |s| > 1 {
      ControlsTail(s, 1);
      ControlsTail(s[1..], 1);
      AppliedHead(Lt, s[1..]);
      AppliedHead(Text, s[1..]);
    }
  }

  lemma RewriteStep(section: Opener, s: seq<Byte>)
    requires Controls(s) == 0 && Opening(section) <= s
    ensures Applied(Text, s) == RewriteSection(section, s)
    decreases |s|, 0
  {
    hide Rewrite, Applied, Controls;
    var open := |Opening(section)|;
    var end := open + UpToTerminator(section, s[open..]);
    SectionOpens(section, s);
    SectionRewrites(section, s, open);
    ControlsTail(s, end);
    RepairedIsRewrite(s[end..]);
  }

  // --------------------------------------------------------------- the bytes, as text

  /** The bytes of ASCII text. */
  function Ascii(text: string): seq<Byte>
    requires forall i :: 0 <= i < |text| ==> text[i] < 128 as char
  {
    seq(|text|, i requires 0 <= i < |text| => text[i] as int)
  }

  /** The sections left alone are those between the brackets of CDATA and of comments; a
      lone opener is written as the reference to it; forbidden are the controls but tab and
      the two line ends; and what a `<` may start is a name, an end tag, a declaration or
      an instruction. */
  lemma BytesAreText(b: Byte)
    ensures Opening(CdataSection) == Ascii("<![CDATA[") && Terminator(CdataSection) == Ascii("]]>")
    ensures Opening(CommentSection) == Ascii("<!--") && Terminator(CommentSection) == Ascii("-->")
    ensures ESCAPED == Ascii("&lt;")
    ensures IsForbiddenControl(b) <==> b < 32 && b as char !in {'\t', '\n', '\r'}
    ensures StartsMarkup(b) <==>
      b >= 128 || 'a' <= b as char <= 'z' || 'A' <= b as char <= 'Z' || b as char in {'_', ':', '/', '!', '?'}
  {
    assert Ascii("<![CDATA[") == [LT, BANG] + CdataSection.Bytes();
    assert Ascii("<!--") == [LT, BANG] + CommentSection.Bytes();
  }
}
