/** The opt-in repair of unescaped text: a byte filter in front of the XML
    reader that writes a `<` which cannot start markup as `&lt;` and drops the
    control characters XML 1.0 forbids, outside and inside CDATA and comments. */
module Repair {
  import opened Wrappers

  type Byte = b: int | 0 <= b < 256

  const LT: Byte := 0x3C
  const BANG: Byte := 0x21
  const DASH: Byte := 0x2D
  const GT: Byte := 0x3E
  const BRACKET: Byte := 0x5D

  /** `&lt;` */
  const ESCAPED: seq<Byte> := [0x26, 0x6C, 0x74, 0x3B]

  /** A control character XML 1.0 allows nowhere in a document. */
  predicate IsForbiddenControl(b: Byte) {
    b <= 0x08 || b == 0x0B || b == 0x0C || 0x0E <= b <= 0x1F
  }

  /** The bytes after which a held `<` is left alone: ASCII name starts, `/`, `!`, `?` and
      every byte past 0x7F. */
  predicate StartsMarkup(b: Byte) {
    || 0x41 <= b <= 0x5A || 0x61 <= b <= 0x7A
    || b == 0x5F || b == 0x3A || b == 0x2F || b == BANG || b == 0x3F
    || b >= 0x80
  }

  /** The sections no byte of which is changed, by their opener: CDATA and comment. */
  datatype Opener = CdataSection | CommentSection {
    /** What follows `<!` to open the construct: `[CDATA[` or `--`. */
    function Bytes(): seq<Byte> {
      match this
      case CdataSection => [0x5B, 0x43, 0x44, 0x41, 0x54, 0x41, 0x5B]
      case CommentSection => [DASH, DASH]
    }

    /** The byte that, doubled and followed by `>`, closes the construct. */
    function Closer(): Byte {
      match this
      case CdataSection => BRACKET
      case CommentSection => DASH
    }
  }

  datatype State =
    | Text
    | Lt
    | Bang(opener: Opener, matched: nat)
    | Inside(section: Opener, run: nat)
  {
    predicate Valid() {
      Bang? ==> matched < |opener.Bytes()|
    }

    /** The opener `<!` can still be once b has been read. */
    function Choice(b: Byte): Opener
      requires Bang?
    {
      if matched == 0 then (if b == DASH then CommentSection else CdataSection) else opener
    }

    predicate Continues(b: Byte) {
      Bang? && matched < |Choice(b).Bytes()| && Choice(b).Bytes()[matched] == b
    }

    function AfterText(b: Byte): State {
      if b == LT then Lt else Text
    }

    function Next(b: Byte): State {
      if IsForbiddenControl(b) then (if Lt? then Text else this)
      else match this
        case Text => AfterText(b)
        case Lt => if b == BANG then Bang(CdataSection, 0) else AfterText(b)
        case Bang(_, m) =>
          if !Continues(b) then AfterText(b)
          else if m + 1 == |Choice(b).Bytes()| then Inside(Choice(b), 0)
          else Bang(Choice(b), m + 1)
        case Inside(section, run) =>
          if b == section.Closer() then Inside(section, if run >= 1 then 2 else 1)
          else if b == GT && run >= 2 then Text
          else Inside(section, 0)
    }

    /** What becomes of a held `<` when b is read. */
    function Releases(b: Byte): seq<Byte> {
      if !Lt? then [] else if StartsMarkup(b) then [LT] else ESCAPED
    }

    /** b itself, unless it is dropped or is a `<` to hold. */
    function Passes(b: Byte): seq<Byte> {
      if IsForbiddenControl(b) || Next(b) == Lt then [] else [b]
    }

    /** What the filter writes on reading b. */
    function Emits(b: Byte): seq<Byte> {
      Releases(b) + Passes(b)
    }

    function Repairs(b: Byte): nat {
      (if Lt? && !StartsMarkup(b) then 1 else 0) + (if IsForbiddenControl(b) then 1 else 0)
    }
  }

  // ------------------------------------------------------------ the filter, in full

  datatype Filter = Filter(state: State, out: seq<Byte>, repairs: nat) {
    function Feed(b: Byte): Filter {
      Filter(state.Next(b), out + state.Emits(b), repairs + state.Repairs(b))
    }

    /** At the end of the input a held `<` cannot start markup either. */
    function Finish(): Filter {
      if state.Lt? then Filter(Text, out + ESCAPED, repairs + 1) else this
    }
  }

  const START := Filter(Text, [], 0)

  function Scan(f: Filter, s: seq<Byte>): Filter
    decreases |s|
  {
    if s == [] then f else Scan(f.Feed(s[0]), s[1..])
  }

  /** The repair of a whole input, with its count of repairs. */
  function Repaired(s: seq<Byte>): Filter {
    Scan(START, s).Finish()
  }

  lemma {:induction false} ScanConcat(f: Filter, a: seq<Byte>, b: seq<Byte>)
    ensures Scan(f, a + b) == Scan(Scan(f, a), b)
    decreases |a|
  {
    if a == [] {
      assert a + b == b;
    } else {
      assert (a + b)[1..] == a[1..] + b;
      ScanConcat(f.Feed(a[0]), a[1..], b);
    }
  }

  /** Output already written and repairs already counted do not matter. */
  lemma {:induction false} ScanBase(f: Filter, s: seq<Byte>)
    ensures var g := Scan(Filter(f.state, [], 0), s);
      Scan(f, s) == Filter(g.state, f.out + g.out, f.repairs + g.repairs)
    decreases |s|
  {
    if s == [] {
      assert f.out + [] == f.out;
    } else {
      var e, h := Filter(f.state, [], 0), f.Feed(s[0]);
      ScanBase(h, s[1..]);
      ScanBase(e.Feed(s[0]), s[1..]);
      var g := Scan(Filter(h.state, [], 0), s[1..]);
      assert f.out + f.state.Emits(s[0]) + g.out == f.out + (f.state.Emits(s[0]) + g.out);
      assert [] + f.state.Emits(s[0]) == f.state.Emits(s[0]);
    }
  }

  lemma WrittenIsPrefix(a: seq<Byte>, b: seq<Byte>)
    ensures Scan(START, a).out <= Repaired(a + b).out
  {
    ScanConcat(START, a, b);
    ScanBase(Scan(START, a), b);
  }

  /** Reading one more chunk from where the filter stands. */
  lemma ScanChunk(f: Filter, fed: seq<Byte>, chunk: seq<Byte>)
    requires f == Scan(START, fed)
    ensures var g := Scan(Filter(f.state, [], 0), chunk);
      Filter(g.state, f.out + g.out, f.repairs + g.repairs) == Scan(START, fed + chunk)
  {
    ScanConcat(START, fed, chunk);
    ScanBase(f, chunk);
  }

  lemma ConcatHead(fed: seq<Byte>, inner: seq<seq<Byte>>)
    requires inner != []
    ensures fed + inner[0] + Concat(inner[1..]) == fed + Concat(inner)
  {
  }

  function Concat(chunks: seq<seq<Byte>>): seq<Byte> {
    if chunks == [] then [] else chunks[0] + Concat(chunks[1..])
  }

  // ---------------------------------------------------------------- the reader

  /** The filter as a buffered reader over an input that arrives in chunks. */
  class RepairReader {
    /** Chunks the inner reader has not handed over yet. */
    var inner: seq<seq<Byte>>
    var state: State
    var out: seq<Byte>
    var pos: nat
    var tally: nat
    var eof: bool

    /** Everything read from the inner reader, and everything consumed here. */
    ghost var fed: seq<Byte>
    ghost var delivered: seq<Byte>

    /** Whatever the chunks were, the filter has done exactly what reading the
        same bytes at once does, and nothing is lost between out and pos. */
    ghost predicate Valid()
      reads this
    {
      && pos <= |out| && state.Valid()
      && (forall c :: c in inner ==> c != [])
      && (eof ==> inner == [] && state != Lt)
      && Filter(state, delivered + out[pos..], tally) == (if eof then Repaired(fed) else Scan(START, fed))
    }

    /** The whole input, read or not. */
    ghost function Input(): seq<Byte>
      reads this
    {
      fed + Concat(inner)
    }

    constructor (chunks: seq<seq<Byte>>)
      requires forall c :: c in chunks ==> c != []
      ensures Valid() && Input() == Concat(chunks) && delivered == []
    {
      inner, state, out, pos, tally, eof := chunks, Text, [], 0, 0, false;
      fed, delivered := [], [];
    }

    /** The step outside sections, where only `<` is not written at once. */
    method TextByte(b: Byte)
      modifies this`state, this`out
      ensures state == if b == LT then Lt else old(state)
      ensures out == if b == LT then old(out) else old(out) + [b]
    {
      if b == LT {
        state := Lt;
      } else {
        out := out + [b];
      }
    }

    /** One byte read: position, output and tally move as Filter.Feed says. */
    method Step(b: Byte) returns (repairs: nat)
      requires state.Valid()
      modifies this`state, this`out
      ensures state.Valid() && Filter(state, out, repairs) == Filter(old(state), old(out), 0).Feed(b)
    {
      repairs := 0;
      if IsForbiddenControl(b) {
        if state == Lt {
          out := out + ESCAPED;
          state := Text;
          repairs := 1;
        }
        repairs := repairs + 1;
        return;
      }
      match state {
        case Text =>
          TextByte(b);
        case Lt =>
          state := Text;
          if b == BANG {
            out := out + [LT, BANG];
            state := Bang(CdataSection, 0);
          } else if StartsMarkup(b) {
            out := out + [LT];
            out := out + [b];
          } else {
            out := out + ESCAPED;
            repairs := 1;
            TextByte(b);
          }
        case Bang(opener, matched) =>
          var opener := if matched == 0 && b == DASH then CommentSection
                        else if matched == 0 then CdataSection
                        else opener;
          var expected := opener.Bytes();
          if expected[matched] == b {
            out := out + [b];
            state := if matched + 1 == |expected| then Inside(opener, 0) else Bang(opener, matched + 1);
          } else {
            state := Text;
            TextByte(b);
          }
        case Inside(section, run) =>
          out := out + [b];
          if b == section.Closer() {
            state := Inside(section, if run + 1 < 2 then run + 1 else 2);
          } else if b == GT && run >= 2 {
            state := Text;
          } else {
            state := Inside(section, 0);
          }
      }
    }

    /** Run a whole chunk through the state machine. */
    method StepAll(chunk: seq<Byte>) returns (repairs: nat)
      requires state.Valid()
      modifies this`state, this`out
      ensures state.Valid() && Filter(state, out, repairs) == Scan(Filter(old(state), old(out), 0), chunk)
    {
      repairs := 0;
      for i := 0 to |chunk|
        invariant state.Valid()
        invariant Scan(Filter(old(state), old(out), 0), chunk) == Scan(Filter(state, out, repairs), chunk[i..])
      {
        var more := Step(chunk[i]);
        repairs := repairs + more;
      }
    }

    /** The input has ended: an angle bracket that was held back is text. */
    method ReadEnd()
      requires Valid() && pos == |out| && !eof && inner == []
      modifies this`state, this`out, this`pos, this`tally, this`eof
      ensures Valid() && eof
    {
      assert delivered + out[pos..] == delivered;
      out := [];
      pos := 0;
      eof := true;
      if state == Lt {
        out := ESCAPED;
        state := Text;
        tally := tally + 1;
      }
      assert delivered + out[pos..] == Scan(START, fed).Finish().out;
    }

    /** One more chunk is repaired. */
    method ReadChunk()
      requires Valid() && pos == |out| && !eof && inner != []
      modifies this`inner, this`state, this`out, this`pos, this`tally, this`fed
      ensures Valid() && Input() == old(Input()) && |inner| < old(|inner|)
    {
      assert delivered + out[pos..] == delivered;
      out := [];
      pos := 0;
      var chunk := inner[0];
      ScanChunk(Filter(state, delivered, tally), fed, chunk);
      ConcatHead(fed, inner);
      var repairs := StepAll(chunk);
      assert forall c :: c in inner[1..] ==> c in inner;
      inner := inner[1..];
      fed := fed + chunk;
      tally := tally + repairs;
      assert out[0..] == out;
    }

    /** The bytes ready to be consumed. Empty only when the whole input has been
        read and all of its repair consumed. */
    method FillBuf() returns (ready: seq<Byte>)
      requires Valid()
      modifies this`inner, this`state, this`out, this`pos, this`tally, this`eof, this`fed
      ensures Valid() && Input() == old(Input())
      ensures ready == out[pos..]
      ensures delivered + ready <= Repaired(Input()).out
      ensures ready == [] ==> delivered == Repaired(Input()).out && tally == Repaired(Input()).repairs
    {
      while pos == |out| && !eof
        invariant Valid() && Input() == old(Input())
        decreases |inner|, !eof
      {
        if inner == [] {
          ReadEnd();
        } else {
          ReadChunk();
        }
      }
      ready := out[pos..];
      WrittenIsPrefix(fed, Concat(inner));
      assert delivered + ready == if eof then Repaired(fed).out else Scan(START, fed).out;
      if eof {
        assert fed + Concat(inner) == fed;
      }
    }

    /** Take some of the ready bytes; asking for too many takes them all. */
    method Consume(amount: nat)
      requires Valid()
      modifies this`pos, this`delivered
      ensures Valid() && Input() == old(Input())
      ensures pos == if old(pos) + amount <= |out| then old(pos) + amount else |out|
      ensures delivered == old(delivered) + out[old(pos)..pos]
    {
      var next := if pos + amount <= |out| then pos + amount else |out|;
      delivered := delivered + out[pos..next];
      assert old(delivered) + out[pos..] == delivered + out[next..];
      pos := next;
    }

    /** Copy at most `room` ready bytes out. */
    method Read(room: nat) returns (bytes: seq<Byte>)
      requires Valid()
      modifies this
      ensures Valid() && Input() == old(Input())
      ensures |bytes| <= room && delivered == old(delivered) + bytes
      ensures delivered <= Repaired(Input()).out
      ensures bytes == [] && room > 0 ==>
        delivered == Repaired(Input()).out && tally == Repaired(Input()).repairs
    {
      var available := FillBuf();
      var n := if |available| < room then |available| else room;
      bytes := available[..n];
      Consume(n);
    }
  }

  /** Chunk-blind: whatever the chunks and however much each read asks for, the
      bytes read and the count are those of repairing the input in one piece. */
  method ReadToEnd(chunks: seq<seq<Byte>>, room: nat -> nat) returns (output: seq<Byte>, repairs: nat)
    requires forall c :: c in chunks ==> c != []
    requires forall n :: room(n) > 0
    ensures output == Repaired(Concat(chunks)).out
    ensures repairs == Repaired(Concat(chunks)).repairs
  {
    var reader := new RepairReader(chunks);
    output := [];
    while true
      invariant reader.Valid() && reader.Input() == Concat(chunks) && output == reader.delivered
      invariant |output| <= |Repaired(Concat(chunks)).out|
      decreases |Repaired(Concat(chunks)).out| - |output|
    {
      var bytes := reader.Read(room(|output|));
      output := output + bytes;
      if bytes == [] {
        break;
      }
    }
    repairs := reader.tally;
  }
}
