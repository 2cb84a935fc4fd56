/** An XBRL instance's fact table, column by column: what stands under each heading is
    what the fact, its context and its unit state. */
module FactRows {
  import opened Wrappers
  import opened Collapse
  import opened Xml
  import opened Records
  import opened Document
  import opened Fold
  import FoldFacts
  import Pipeline
  import Stream

  // ------------------------------------------------------------------ what a fact states

  /** The concept under the prefix it was written with, if any. */
  predicate ShowsConcept(text: string, e: Element) {
    && (':' !in e.qname ==> text == e.local)
    && (forall i :: 0 <= i < |e.qname| && e.qname[i] == ':' && ':' !in e.qname[..i] ==>
          text == if i == 0 then e.local else e.qname[..i] + ":" + e.local)
  }

  /** An instant; else the start and the end with a slash between, or the one there is;
      else forever, or nothing. */
  predicate ShowsPeriod(text: string, context: Option<Context>) {
    if context.None? then text == ""
    else
      var p := context.value.period;
      if p.instant !in {None, Some("")} then text == p.instant.value
      else if p.startDate != None && p.endDate != None then text == p.startDate.value + "/" + p.endDate.value
      else if p.startDate != None || p.endDate != None then Some(text) in {p.startDate, p.endDate}
      else text == if p.forever then "forever" else ""
  }

  /** The measures; else those of the numerator, a slash and those of the denominator;
      else the unit's own name; for a unit never declared, the name the fact gives. */
  predicate ShowsUnit(text: string, unit: Option<Unit>, name: Option<string>) {
    if unit.None? then text == if name == None then "" else name.value
    else
      var u := unit.value;
      if |u.measures| > 0 then text == Join(u.measures)
      else if |u.numerator| + |u.denominator| == 0 then text == u.id
      else text == Join(u.numerator) + "/" + Join(u.denominator)
  }

  /** A value that may be stated, or nothing. */
  predicate ShowsStated(text: string, value: Option<string>) {
    text == if value == None then "" else value.value
  }

  datatype Heading =
    | Concept | EntityScheme | Entity | ContextName | PeriodOfValue | UnitOfValue
    | Value | Decimals | Precision | Sign | Nil

  /** The headings in the order of the table. */
  function Headings(): (r: seq<Heading>)
    ensures |r| == 11
  {
    [Concept, EntityScheme, Entity, ContextName, PeriodOfValue, UnitOfValue, Value, Decimals, Precision, Sign, Nil]
  }

  /** A heading as it is written. */
  function Written(heading: Heading): string {
    match heading
    case Concept => "concept"
    case EntityScheme => "entity_scheme"
    case Entity => "entity"
    case ContextName => "context"
    case PeriodOfValue => "period"
    case UnitOfValue => "unit"
    case Value => "value"
    case Decimals => "decimals"
    case Precision => "precision"
    case Sign => "sign"
    case Nil => "nil"
  }

  /** What stands under a heading. */
  predicate Shows(heading: Heading, text: string, fact: Stream.Event)
    requires fact.Fact?
  {
    var e, c := fact.element, fact.context;
    match heading
    case Concept => ShowsConcept(text, e)
    case EntityScheme => ShowsStated(text, if c == None then None else c.value.scheme)
    case Entity => ShowsStated(text, if c == None then None else c.value.entity)
    case ContextName => ShowsStated(text, e.Get("contextRef"))
    case PeriodOfValue => ShowsPeriod(text, c)
    case UnitOfValue => ShowsUnit(text, fact.unit, e.Get("unitRef"))
    case Value => text == fact.value
    case Decimals => ShowsStated(text, e.Get("decimals"))
    case Precision => ShowsStated(text, e.Get("precision"))
    case Sign => ShowsStated(text, e.Get("sign"))
    case Nil => text == if e.Get("nil") in {Some("true"), Some("1")} then "true" else "false"
  }

  /** An axis of the context beside its member, or its typed value when it has none. */
  predicate Pairs(pair: (string, string), d: Dimension) {
    && pair.0 == d.axis
    && pair.1 == if d.member != None then d.member.value else if d.typedValue != None then d.typedValue.value else ""
  }

  /** An item with all the axes of the context, in order. */
  predicate Holds(pairs: seq<(string, string)>, context: Context) {
    |pairs| == |context.dimensions| && forall k :: 0 <= k < |pairs| ==> Pairs(pairs[k], context.dimensions[k])
  }

  /** A row shows the fact under the headings; the cell with its context points at the
      item with its axes, when there are any, and no other cell points anywhere. */
  predicate RowShows(d: Document, row: seq<Cell>, fact: Stream.Event)
    requires fact.Fact?
  {
    |row| == 11 && forall j :: 0 <= j < 11 ==> CellShows(d, Headings()[j], row[j], fact)
  }

  predicate CellShows(d: Document, heading: Heading, cell: Cell, fact: Stream.Event)
    requires fact.Fact?
  {
    && Shows(heading, cell.text, fact) && !cell.header
    && if !heading.ContextName? || fact.context == None || fact.context.value.dimensions == [] then cell.ref == None
       else PointsAt(d, cell.ref, fact.context.value)
  }

  predicate PointsAt(d: Document, ref: Option<Ref>, context: Context) {
    && ref.Some? && ref.value.KeyValues? && ref.value.n < |d.keyValues|
    && Holds(d.keyValues[ref.value.n].pairs, context)
  }

  /** The facts a stream sent, in order. */
  function FactsIn(out: seq<Stream.Event>): (r: seq<Stream.Event>)
    ensures forall i :: 0 <= i < |r| ==> r[i].Fact?
  {
    if out == [] then []
    else if out[0].Fact? then [out[0]] + FactsIn(out[1..])
    else FactsIn(out[1..])
  }

  // --------------------------------------------------------------------------- the proof

  lemma {:induction false} BeforeColonIs(name: string, i: nat)
    requires i < |name| && name[i] == ':' && ':' !in name[..i]
    ensures Pipeline.BeforeColon(name) == name[..i]
    decreases i
  {
    if i > 0 {
      assert name[0] == name[..i][0] && name[1..][..i - 1] == name[..i][1..];
      BeforeColonIs(name[1..], i - 1);
      assert name[..i] == [name[0]] + name[1..][..i - 1];
    } else {
      assert name[..0] == "";
    }
  }

  lemma ConceptIsShown(e: Element)
    ensures ShowsConcept(Pipeline.ConceptName(e), e)
  {
    forall i | 0 <= i < |e.qname| && e.qname[i] == ':' && ':' !in e.qname[..i]
      ensures Pipeline.ConceptName(e) == if i == 0 then e.local else e.qname[..i] + ":" + e.local
    {
      BeforeColonIs(e.qname, i);
    }
  }

  lemma PeriodIsShown(context: Option<Context>)
    ensures ShowsPeriod(Pipeline.PeriodText(context), context)
  {
  }

  lemma {:induction false} JoinedIsJoin(parts: seq<string>)
    ensures Pipeline.Joined(parts, " ") == Join(parts)
    decreases |parts|
  {
    if |parts| > 1 {
      JoinedIsJoin(parts[1..]);
    }
  }

  lemma UnitIsShown(unit: Option<Unit>, name: Option<string>)
    ensures ShowsUnit(Pipeline.UnitText(unit, name), unit, name)
  {
    if unit.Some? {
      JoinedIsJoin(unit.value.measures);
      JoinedIsJoin(unit.value.numerator);
      JoinedIsJoin(unit.value.denominator);
    }
  }

  lemma ColumnsAreShown(fact: Stream.Event, j: nat)
    requires fact.Fact? && j < 11
    ensures Shows(Headings()[j], Pipeline.ColumnsOf(fact.element, fact.context, fact.unit, fact.value)[j], fact)
  {
    hide ShowsConcept, ShowsPeriod, ShowsUnit, Pipeline.ConceptName, Pipeline.PeriodText, Pipeline.UnitText;
    hide Lookup, LookupLocal;
    ConceptIsShown(fact.element);
    PeriodIsShown(fact.context);
    UnitIsShown(fact.unit, fact.element.Get("unitRef"));
  }

  lemma PairsAreHeld(context: Context)
    ensures Holds(Pipeline.Pairs(Some(context)), context)
  {
  }

  function SentAs(fact: Stream.Event): FoldFacts.FactSent
    requires fact.Fact?
  {
    FoldFacts.FactSent(
      Pipeline.ColumnsOf(fact.element, fact.context, fact.unit, fact.value), Pipeline.Pairs(fact.context))
  }

  function AllSentAs(facts: seq<Stream.Event>): (r: seq<FoldFacts.FactSent>)
    requires forall i :: 0 <= i < |facts| ==> facts[i].Fact?
    ensures |r| == |facts|
  {
    seq(|facts|, i requires 0 <= i < |facts| => SentAs(facts[i]))
  }

  lemma {:induction false} FactsInSnoc(out: seq<Stream.Event>, e: Stream.Event)
    ensures FactsIn(out + [e]) == FactsIn(out) + if e.Fact? then [e] else []
    decreases |out|
  {
    if out == [] {
      assert [] + [e] == [e] && [e][1..] == [];
    } else {
      assert (out + [e])[1..] == out[1..] + [e];
      FactsInSnoc(out[1..], e);
    }
  }

  lemma {:induction false} FactsSentAre(out: seq<Stream.Event>)
    ensures Pipeline.FactsSent(out) == AllSentAs(FactsIn(out))
    decreases |out|
  {
    if out != [] {
      var front, last := out[..|out| - 1], out[|out| - 1];
      FactsSentAre(front);
      assert out == front + [last];
      FactsInSnoc(front, last);
    }
  }

  lemma FactIsShown(d: Document, at: nat, facts: seq<FoldFacts.FactSent>, i: nat, fact: Stream.Event)
    requires i < |facts| && fact.Fact? && facts[i] == SentAs(fact) && FoldFacts.FactStated(d, at, facts, i)
    ensures RowShows(d, d.tables[at].grid[i + 1], fact)
  {
    hide Shows, Pipeline.ColumnsOf;
    var row := d.tables[at].grid[i + 1];
    if fact.context.Some? {
      PairsAreHeld(fact.context.value);
    }
    forall j | 0 <= j < 11 ensures CellShows(d, Headings()[j], row[j], fact) {
      ColumnsAreShown(fact, j);
    }
  }

  /** The row of headings. */
  predicate HeadedBy(row: seq<Cell>, headings: seq<Heading>) {
    && |row| == |headings|
    && (forall j :: 0 <= j < |row| ==> row[j].text == Written(headings[j]) && row[j].header)
  }

  lemma HeadingsAreWritten(row: seq<Cell>)
    requires FoldFacts.Heads(row)
    ensures HeadedBy(row, Headings())
  {
    forall j | 0 <= j < 11 ensures FACT_HEADINGS[j] == Written(Headings()[j]) {
    }
  }

  /** The fact table of any stream: under its eleven headings one row a fact the stream
      sent, in order, that shows under each heading what the fact states, its context's
      cell pointing at the fact's own axes. */
  lemma FactsAreShown(out: seq<Stream.Event>) returns (at: nat)
    ensures var d, facts := Taken(FoldAll(Pipeline.CarriedAll(out))), FactsIn(out);
      facts != [] ==>
        && at < |d.tables| && |d.tables[at].grid| == 1 + |facts| && HeadedBy(d.tables[at].grid[0], Headings())
        && (forall i :: 0 <= i < |facts| ==> RowShows(d, d.tables[at].grid[i + 1], facts[i]))
  {
    hide FoldFacts.FactStated, FoldFacts.Heads, HeadedBy, RowShows, Taken;
    var d, facts := Taken(FoldAll(Pipeline.CarriedAll(out))), FactsIn(out);
    Pipeline.CarriedFacts(out);
    at := FoldFacts.FactsAreStated(Pipeline.CarriedAll(out));
    FactsSentAre(out);
    if facts != [] {
      HeadingsAreWritten(d.tables[at].grid[0]);
      forall i | 0 <= i < |facts| ensures RowShows(d, d.tables[at].grid[i + 1], facts[i]) {
        FactIsShown(d, at, AllSentAs(facts), i, facts[i]);
      }
    }
  }
}
