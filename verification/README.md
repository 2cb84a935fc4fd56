# Verification of the parse-to-Document pipeline

This project models, in Dafny, the logic by which an XML document becomes a stream
of events and the stream becomes one Document, and proves what that logic promises
over every input. It covers the repair filter in front of the XML reader, the
streaming driver, the queue between parse and client, and the Document fold with
its own integrity checker.

`dafny verify dfyconfig.toml` checks the whole project.

## How it is laid out

Code that works by changing things step by step is a class or a method with loops,
proved against a specification given as functions of its state; what the program
promises is then proved about those functions.

- **The Document fold.** `Document` holds the arenas and links, `Grid` the table
  layout, `Fold` the specification of every event, `DocumentFold` the class that
  updates arenas, stacks, slots and anchors in place, `Integrity` the checker as the
  program runs it. `FoldLinks`, `FoldTree`, `FoldHeadings`, `FoldContent`,
  `FoldLists`, `FoldNesting`, `FoldAnchors`, `FoldTables`, `FoldSpans`, `FoldSays`,
  `FoldStates` and `FoldFacts` prove one promise each, over every event sequence. `Calendar` is the date arithmetic; `RefNames` and
  `WrittenTargets` are references and cross-references as the document writes them.
- **The driver.** `Xml` is what the parser hands over, `Flatten` the text and runs
  that captures and cells share, `Records` the subtrees that are read whole, `Stream`
  the specification of every step, `Driver` the class, `Prolog` what comes before the
  root and after it. `StreamModes`, `StreamOrder`, `StreamCaptions`, `StreamBalance` and
  `StreamText` prove what every run keeps, `StreamFaults` which documents are refused and
  for what, `CaptionTexts` which captions a tree has. `TreeReading` proves the whole run,
  for any dialect, equal to a recursive reading of the tree; `RecordReading` does so for
  contexts, units, note links and metadata records, and `RecordClaims` says where they
  are not what their contracts describe. `Attributes`, `CellSpans` and `TableSpans` tell
  what tables send from the attributes of their elements, `ListPlaces` where list items
  sit, `InstanceReading` the facts of an XBRL instance. `Generic` spells out the dialect of no known
  vocabulary. A dialect's rules are arbitrary functions throughout, except in `Generic`.
- **Transducers.** `Collapse` is whitespace collapse with and without positions,
  `OcrLine` the words of an OCR line, `Repair` the chunked byte filter and
  `RepairMeaning` what it computes on the whole input.
- **The queue.** `EventQueue` is a state machine over the atomic steps of producer,
  failure senders and client, and the class whose poll refines one of them; `QueueBytes`
  says in encoded sizes what it holds and when.
- **End to end.** `Pipeline` carries the driver's events into the fold, `Conveyed` and
  `FactRows` tell the document from what the driver sent, and `Emit` hands the events on
  with the document among them.

`Wrappers` and `Basics` are shared by all.

## Assumptions

- The XML reader hands over balanced steps wherever a statement is about a tree;
  statements about steps hold of any steps at all, end of input included.
- A dialect never maps a header section (`thead`) as a table (`StreamModes.Sane`);
  every dialect of the repository maps only elements called `table`. Without this
  the end tag of such a table would be taken for that of a header section.
- Counts held in 32 or 64 bits do not wrap; where the code saturates or clamps, the
  model does.
- A bounded wait for queue bytes ends in a grant, a timeout or a closed semaphore,
  as a parameter; the batch timer may fire at any poll.

## Findings

Each is stated at a concrete input and with the exact condition under which it occurs.

- `days_from_civil` accepts day 31 in every month (`Calendar.LastOfFebruaryIsMarch`).
  It answers exactly for months 1 to 12 with days 1 to 31
  (`Calendar.DaysFromCivilIsCounting`), and on a day past the end of its month it
  answers for the day of the next month that many days further on
  (`Calendar.ImpossibleDayIsAccepted`).
- The item that carries the attributes of an element without text of its own may be
  marked as CDATA, although attributes never are: `<r a="1"><![CDATA[ ]]></r>` does it
  (`Generic.AttributeMarkedAsCdata`). It is marked if and only if a CDATA section
  follows the element's last child element (`Generic.AttributeItemMark`).
- In a subtree that is dropped, a declaration or DOCTYPE in the wrong place is ignored
  rather than refused (`StreamFaults.SkippedDeclarationIsIgnored`), while one in a subtree
  that is read whole, an XBRL context, unit or note link or a metadata record, refuses
  the document (`StreamFaults.ContextRefusesDeclaration`): the same document closes or is
  refused according to whether the caller asked for its metadata
  (`StreamFaults.MetadataDecidesDeclaration`). A balanced document within the nesting
  bound is refused as malformed if and only if such a declaration lies outside every
  element whose content is dropped (`StreamFaults.MalformedExactlyWhenExposed`), and of
  several faults the first in document order decides (`StreamFaults.FirstFaultDecides`).
- `proto/ai/pipestream/xml/v1/xml.proto:808-810` promises the content of a typed
  dimension. A context keeps of an element only what follows its last child element
  (`src/parse/xbrl.rs:165-217`), and a typed dimension writes its value in a child
  element, so that value is lost (`RecordClaims.TypedMemberLosesValue`). An element is kept
  with all it says if and only if what it says up to the end of its last child element is
  blank (`RecordClaims.ValueIsContent`).
- `proto/ai/pipestream/xml/v1/xml.proto:950-954` promises a note the targets of every
  locator an arc joins to it. Of several locators of one name only the first is followed
  (`RecordClaims.SecondLocatorIsLost`); nothing is lost if and only if every arc into the
  note comes from a name that at most one locator has (`RecordClaims.TargetsAreAll`).
- The text of a metadata record is collapsed piece by piece, and a reference directly in
  the record is dropped (`src/parse/meta.rs:136-150`), so an entry that writes AT&T with a
  reference to the ampersand is kept as AT T (`RecordClaims.ReferencePartsWords`). A
  record without child elements keeps the collapse of what it says if and only if no
  reference in it says anything and whitespace parts every piece of text from the text
  before it (`RecordClaims.RecordTextIsContent`).
- `src/parse/meta.rs:36-38` describes one leaf for every element that had text, but empty
  elements are leaves too (`src/parse/meta.rs:128-134`), so an empty `sequence` hides the
  number in the next one (`RecordClaims.EmptySequenceHidesNumber`). Looking a name up
  differs if and only if the first leaf of that name is empty
  (`RecordClaims.LeafWithText`).
- `src/document_fold/mod.rs:512-517` says that an unresolved reference, written `#` and
  its name, never collides with the reference of an item, because no XML name begins
  with a slash. The names come from attributes that are only split at whitespace
  (`src/dialect.rs:212-222`), and a single paragraph that refers to `/texts/0` is
  written as referring to itself (`WrittenTargets.MisledAtOneParagraph`,
  `WrittenTargets.CollidesAtTextThree`). The two forms coincide for exactly one name of
  each item (`WrittenTargets.KeyReadsAsItem`), and a run of a finished document reads as
  a reference to an item if and only if its name is carried by one or itself looks like
  one (`WrittenTargets.TargetsAreWritten`, `WrittenTargets.BareNameReadsAsItem`).

## Model

| member | source | states |
|---|---|---|
| `DocumentFold.FoldStream` | src/document_fold/mod.rs:226-283 | for every event sequence, a fresh fold that consumes it and is taken yields the specified document, with every parent and child link reciprocated exactly once and the merge contract satisfied |
| `DocumentFold.FoldAndCheck` | src/document_fold/integrity.rs:13-40 | the program's own checker, run on the document of any event sequence, reports no error |
| `Integrity.IntegrityErrors` | src/document_fold/integrity.rs:21-40 | the checker reports nothing if and only if references are dense and unique, every child and parent resolves and reciprocates, and every caption, cell reference and attachment resolves |
| `Integrity.Walk.Arenas` | src/document_fold/integrity.rs:57-126 | the walk over the five arenas reports nothing exactly when every item's reference is its position, and has then gathered exactly the references, children and parents of the document |
| `Integrity.Walk.CheckChildren` | src/document_fold/integrity.rs:159-167 | adds an error exactly when some listed child is no known reference |
| `Integrity.Walk.CheckParents` | src/document_fold/integrity.rs:168-182 | adds an error exactly when some item's parent is unknown or does not list it |
| `Integrity.Walk.CheckTargets` | src/document_fold/integrity.rs:183-233 | adds an error exactly when a cell reference, an attachment or a caption of a table or picture does not resolve |
| `FoldLinks.ConsumeInv` | src/document_fold/mod.rs:226-254 | every event, in whatever state it arrives, keeps the links reciprocal, the pointers resolved and everything the fold remembers inside the document |
| `FoldLinks.TakenIsLinked` | src/document_fold/mod.rs:256-283 | the finished document lists every item exactly once, by the one parent it names, and points at nothing it does not hold, with a table left open, facts inside a table, islands and header level zero included |
| `FoldTree.WalkIsTheStream` | src/document_fold/mod.rs:1423-1464 | the preorder walk of the finished document is exactly what each event of the stream made under the body, event after event and in a fixed order within each: a list before its item, an earlier table before the caption of the next, the fact table before a fact's dimensions, a placeholder before its text |
| `FoldTree.WalkFollowsTheStream` | src/document_fold/mod.rs:1423-1464 | the finished document is one tree under the body whose preorder walk visits each body item once; all that existed after any part of the stream is visited before all that came later, tables set aside, or included when only rows come between a table's start and end; the tree is the only one its child lists spell |
| `FoldTree.ConsumeGrows` | src/document_fold/mod.rs:678-740 | each event appends exactly what it makes to the end of the walk and changes nothing before it |
| `FoldTree.MirrorsUnique` | src/document_fold/mod.rs:1439-1464 | the child lists of a document spell out at most one tree under a root |
| `FoldHeadings.LadderHeader` | src/document_fold/mod.rs:1433-1437 | popping headers of the same or a deeper level and pushing the new one keeps the ladder strictly increasing and answering every level as a search back over all headers would |
| `FoldHeadings.TextsHangByLatestHeader` | src/document_fold/mod.rs:678-718 | in the finished document a section header hangs off the latest earlier header of strictly smaller level, page chrome (and only it) off the furniture, a list item off a group of its kind, the text of an island alone in its placeholder, and every other text off the latest header before it; no text but an island's hangs off a placeholder |
| `FoldContent.ContentHangsOffLatestHeader` | src/document_fold/mod.rs:1006-1040 | in the finished document every picture, dimension list, island and table, in arena order, hangs off the header that was the latest of the stream when the event came that made it: for a table its start, though it is appended later, for the fact table the first fact; a placeholder lists its own text and nothing else |
| `FoldContent.OpenHeadersIncrease` | src/document_fold/mod.rs:1433-1437 | over any stream the open headers strictly increase in level |
| `FoldLists.ListItemsShareGroup` | src/document_fold/mod.rs:820-867 | two list items share a group if and only if they have the same depth and kind and between them comes no interrupting content and no list item that is shallower or as deep and of the other kind; in what the items state, this is FoldNesting.ListsAreGrouped |
| `FoldNesting.ListsAreGrouped` | src/document_fold/mod.rs:820-867 | in the finished document two list items hang off one group if and only if they state the same depth, none, zero and one being alike, both or neither are enumerated or have an ordinal, and nothing between them ends the list of the first |
| `FoldNesting.ListsAreNested` | src/document_fold/mod.rs:842-863 | the group of any list item is a list, ordered exactly when the item is enumerated or has an ordinal, and hangs off the group of the latest item before it that states less depth, or off the latest header when content between lists comes first |
| `FoldNesting.DeeperItemNests` | src/document_fold/mod.rs:842-863 | a deeper item right after a list item has a group of its own inside that item's group |
| `FoldNesting.ItemInPlace` | src/document_fold/mod.rs:678-804 | the text these speak of is the item's own |
| `FoldLists.GroupIsFinal` | src/document_fold/mod.rs:820-840 | the group a list item was put in is its parent in the finished document |
| `FoldLists.FoldAllNested` | src/document_fold/mod.rs:842-863 | over any stream the open lists have strictly increasing depths and distinct groups |
| `FoldLists.ListsForExactly` | src/document_fold/mod.rs:820-840 | an item's group is the innermost open list, of exactly its depth and kind, and exactly the deeper lists and the equally deep ones of the other kind are closed for it |
| `FoldLists.NoListIsEmpty` | src/document_fold/mod.rs:842-863 | no list group of a finished document is empty |
| `FoldLists.ConsumeKeeps` | src/document_fold/mod.rs:226-254 | no event changes anything of an earlier text or group but the children it lists |
| `FoldAnchors.AnchorsAreTheCarriers` | src/document_fold/mod.rs:523-531 | the anchors of a finished document are exactly the identifiers its texts, pictures and tables carry, and each names an item that carries it |
| `FoldAnchors.FirstCarrierAnswers` | src/document_fold/mod.rs:553-563 | an identifier answers for good with the item that was the first of the stream to carry it; which items carry which is FoldStates.AnchorsAreStated |
| `FoldStates.ItemsStateTheirEvents` | src/document_fold/mod.rs:226-283 | in the finished document of any stream every text states its own event's label, layer, level, number, characters and identifier, every picture and table its own identifier, a table exactly the one caption its start states, as the text made of it, and every attachment the placeholder of its own island |
| `FoldStates.AnchorsAreStated` | src/document_fold/mod.rs:553-563 | a name has an anchor if and only if some event states it for the item it makes, a text, picture, table start, non-empty citation or non-empty footnote, and the anchor is the first such item to enter its arena |
| `FoldAnchors.OnePassEqualsTwo` | src/document_fold/mod.rs:523-551 | every run of the finished document, in texts and in both copies of every cell, points at the item that carries the name it states wherever in the stream that item came, and at the bare name when none does; how the two are written is WrittenTargets |
| `FoldAnchors.CopiesAgree` | src/document_fold/mod.rs:537-550 | patching the flat cells and the grid separately leaves them the same cells |
| `FoldAnchors.InlineSpansUnanswered` | src/document_fold/mod.rs:1668-1711 | the runs of an item state exactly the names its wire spans state, in order, one run a name over the characters the name was stated over, and each starts out pointing at the name it states |
| `WrittenTargets.KeyReadsAsItem` | src/document_fold/mod.rs:512-517 | a bare name and an item are written alike for exactly one name of each item |
| `WrittenTargets.CollidesAtTextThree` | src/document_fold/mod.rs:1704 | the name /texts/3 is written like the fourth text |
| `WrittenTargets.BareNameReadsAsItem` | src/document_fold/mod.rs:512-517 | a bare name reads as some item exactly when it is /body, /furniture, or an arena's path and a number without leading zeros |
| `WrittenTargets.RewriteIsResolve` | src/document_fold/mod.rs:1718-1730 | resolving the text of an unresolved run by what follows its # is resolving the name it denotes |
| `WrittenTargets.TargetsAreWritten` | src/document_fold/mod.rs:523-551 | in the finished document of any stream a run is written as the item that carries its name or as # and the name, and reads as an item if and only if its name is carried or looks like one; in texts and in both copies of every cell |
| `WrittenTargets.MisledAtOneParagraph` | src/document_fold/mod.rs:1700-1706 | one paragraph that refers to /texts/0, a name nothing carries, is written as referring to itself |
| `FoldTables.SpanBudgetIsConserved` | src/document_fold/mod.rs:1119-1127 | over any stream the slots all tables claim beyond one per cell and the budget left add up to 2^22, so all slots number at most the cells plus 2^22 |
| `FoldTables.EveryTableIsLaid` | src/document_fold/mod.rs:1176-1206 | every table of a finished document is laid as the table model asks, states as many rows and columns as it has, and its flat cells are its rows one after another; the fact table is eleven plain cells a row |
| `FoldTables.AddFactRowSized` | src/document_fold/mod.rs:1263-1300 | a fact row is eleven plain cells that claim no span slot, and every table stays laid and paid for |
| `FoldSays.TextsSayTheStream` | src/document_fold/mod.rs:678-804 | the texts of a finished document are exactly what the events of the stream say, label, characters and resolved runs, in the order they say it, captions, citations, footnotes and islands included |
| `FoldSays.TablesHoldTheirRows` | src/document_fold/mod.rs:1103-1206 | every table of a finished document holds exactly the rows sent for it between its start and its end, cell for cell in order with resolved runs, and the fact table its headings and one row a fact; rows for any other table are dropped |
| `FoldFacts.FactsAreStated` | src/document_fold/mod.rs:1218-1344 | every fact of a stream has one row, in order below the headings of the one fact table, showing its values; its context cell points at the key-value item that holds exactly its own dimensions, or nowhere if it has none, no other cell of it points anywhere, and no other key-value item exists |
| `Grid.PruningIsInvisible` | src/document_fold/mod.rs:1110-1118 | forgetting the slots of rows already laid gives the grid, cells, width and budget of remembering every slot |
| `Grid.TablesAreWellLaid` | src/document_fold/mod.rs:1103-1159 | each cell starts at the least column from its predecessor's end on that no earlier cell covers, so none starts inside another |
| `Grid.NoGaps` | src/document_fold/mod.rs:1115-1118 | every column left of a row's last end is covered in that row |
| `Grid.PlaceRowBounded` | src/document_fold/mod.rs:1128-1134 | no slot is ever taken at the last representable column, so the search for a free one ends |
| `Grid.SpanBudget` | src/document_fold/mod.rs:1119-1127 | the spans honoured are at least one, never overspend the budget, and their product stays far inside 64 bits |
| `FoldSpans.SpansAreHonoured` | src/document_fold/mod.rs:1119-1127 | in the finished document of any stream a cell has the spans its wire cell claims if and only if what all cells before it left of the budget covers them, and is one slot otherwise |
| `FoldTables.TakingKeepsTheBudget` | src/document_fold/mod.rs:256-283 | after a document was taken the fold starts afresh but for the span budget, which is what that document's tables left |
| `Grid.LayRowSpends` | src/document_fold/mod.rs:1119-1127 | what a row claims beyond one slot per cell is exactly what the budget loses, and no cell is dropped |
| `Grid.SlotsAreBounded` | src/document_fold/mod.rs:1128-1134 | all slots a table ever takes number at most its cells plus the budget, and no cell ends past that column |
| `Grid.TablesSayTheirRows` | src/document_fold/mod.rs:1135-1158 | row i of the grid is wire row i cell for cell: same text, header mark, runs, and spans as claimed or one |
| `DocumentFold.DocumentFold.constructor` | src/document_fold/mod.rs:189-200 | a new fold is the empty fold with the whole span budget |
| `DocumentFold.DocumentFold.Consume` | src/document_fold/mod.rs:226-254 | one event takes the fold to the specified next state and keeps its invariant |
| `DocumentFold.DocumentFold.Take` | src/document_fold/mod.rs:256-283 | returns the specified finished document and leaves an empty fold that keeps only the span budget |
| `DocumentFold.DocumentFold.PushTextItem` | src/document_fold/mod.rs:678-804 | the state after a text item: headers and lists closed, placed under its parent, anchor claimed, header opened |
| `DocumentFold.DocumentFold.ListParent` | src/document_fold/mod.rs:820-840 | closes the lists the item ends, opens one when needed, returns the group it belongs to |
| `DocumentFold.DocumentFold.OpenGroup` | src/document_fold/mod.rs:842-863 | a new list group, linked under the innermost list or header, is the innermost open list |
| `DocumentFold.DocumentFold.CloseOpenHeadings` | src/document_fold/mod.rs:1433-1437 | the header stack after a header of this level closes what it ends |
| `DocumentFold.DocumentFold.LinkChild` | src/document_fold/mod.rs:1445-1473 | the child is appended to its parent's list, when the parent is the body, the furniture, a group or a section header |
| `DocumentFold.DocumentFold.Claim` | src/document_fold/mod.rs:556-563 | a non-empty identifier nobody holds is claimed |
| `DocumentFold.DocumentFold.TakeIsland` | src/document_fold/mod.rs:903-950 | a placeholder group under the current header with its text inside, and an attachment that names it |
| `DocumentFold.DocumentFold.PushPictureItem` | src/document_fold/mod.rs:1006-1040 | a picture under the current header, its identifier claimed, lists ended |
| `DocumentFold.DocumentFold.TakeTableStart` | src/document_fold/mod.rs:1044-1099 | an open table is finished, the caption becomes an item, and an empty table opens under the current header |
| `DocumentFold.DocumentFold.TakeTableRow` | src/document_fold/mod.rs:1103-1159 | a row of the open table, by reference, is laid; any other row changes nothing |
| `DocumentFold.DocumentFold.TakeTableEnd` | src/document_fold/mod.rs:1161-1174 | the open table is appended when its reference matches |
| `DocumentFold.DocumentFold.AppendOpenTable` | src/document_fold/mod.rs:1177-1206 | the open table joins its arena, claims its identifier and is linked |
| `DocumentFold.DocumentFold.TakeFact` | src/document_fold/mod.rs:1218-1300 | a fact adds one row to the fact table, opened on the first fact, and its dimensions as a key-value item the row refers to |
| `DocumentFold.DocumentFold.PublishAnchors` | src/document_fold/mod.rs:523-551 | every run of every text and of both copies of every cell is resolved |
| `DocumentFold.LayWireCell` | src/document_fold/mod.rs:1115-1156 | one cell placed as the layout specification places it, with its slots, budget and width |
| `DocumentFold.ResolveTargets` | src/document_fold/mod.rs:1718-1729 | every run of a list that states a carried name points at the carrier afterwards, and all others are as they were |
| `Calendar.DaysFromCivilIsCounting` | src/document_fold/mod.rs:1616-1626 | the computation accepts exactly months 1 to 12 with days 1 to 31, and equals counting years, months and days one at a time from 1970-01-01 |
| `Calendar.DaysFromCivilOrdersDates` | src/document_fold/mod.rs:1616-1626 | over real dates the result orders days as the calendar does, is injective, and is one more for the next calendar day, across month, leap and century ends and below year zero |
| `Calendar.ImpossibleDayIsAccepted` | src/document_fold/mod.rs:1616-1618 | a day past the end of its month up to 31 is accepted and read as the day of the next month it runs into, for every year and month |
| `Calendar.LastOfFebruaryIsMarch` | src/document_fold/mod.rs:1616-1618 | 31 February 2023, which is no date, is read as 3 March |
| `RefNames.ReadParentOfShow` | src/document_fold/mod.rs:1445-1473 | linking reads a written reference back as the item it was written for, and never takes a table, picture or key-value item for a parent |
| `RefNames.ShowIsInjective` | src/document_fold/integrity.rs:57-126 | no two items write the same reference |
| `Collapse.CollapseText` | src/parse/mod.rs:678-696 | the whitespace-separated words joined with one space |
| `Collapse.CollapsePositions` | src/parse/mod.rs:702-727 | the same text, with a strictly increasing map from each kept character onto an equal one, None exactly for whitespace |
| `Collapse.CollapsedIsJoinedWords` | src/parse/mod.rs:678-696 | one pass over the text is the join of its words, empty exactly when it is all whitespace |
| `Collapse.CollapsedIdempotent` | src/parse/mod.rs:678-696 | a collapsed text is its own collapse |
| `Collapse.RangeSlicesCollapse` | src/parse/mod.rs:731-747 | the collapsed text sliced at a translated range is the collapse of the raw slice, and there is no range exactly when the slice is blank |
| `Collapse.RangesKeepTheirOrder` | src/parse/mod.rs:731-747 | nested raw ranges stay nested and disjoint ones stay disjoint |
| `OcrLine.CaptureLine` | src/archive/mets.rs:919-1084 | a line's text is its character data collapsed; its word boxes are disjoint, in reading order, and each covers the collapse of the text its own word held |
| `OcrLine.FinishWordsCovers` | src/archive/mets.rs:619-636 | finished boxes cover exactly the collapses of the raw words that left text |
| `OcrLine.OcrCapture.OpenSpan` | src/archive/mets.rs:921-943 | a boxed word opens only directly in the line, with no word open and room left |
| `OcrLine.OcrCapture.CloseSpan` | src/archive/mets.rs:1058-1069 | the open word ends with its own end tag at the length of the text so far |
| `Repair.RepairReader.Step` | src/parse/repair.rs:134-215 | one byte moves the automaton, writes and counts as specified |
| `Repair.RepairReader.FillBuf` | src/parse/repair.rs:227-253 | the bytes ready continue the repair of the whole input, and are empty only when all of it was read and consumed |
| `Repair.RepairReader.Consume` | src/parse/repair.rs:255-258 | consumes at most what is ready and loses nothing |
| `Repair.RepairReader.Read` | src/parse/repair.rs:261-275 | copies a prefix of what is left; empty into room only at the end |
| `Repair.ReadToEnd` | src/parse/repair.rs:227-275 | whatever the chunks and however much each read asks for, output and tally are those of repairing the input in one piece |
| `RepairMeaning.RepairedIsScript` | src/parse/repair.rs:134-223 | the output is the input with one edit per byte applied, and the tally counts the edits that change something |
| `RepairMeaning.BytesAreText` | src/parse/repair.rs:41-115 | the bytes of openers, terminators and the escape as text, the forbidden controls as all but tab and line ends, and what may follow a < that is left alone |
| `RepairMeaning.ScriptAt` | src/parse/repair.rs:134-223 | a byte is dropped exactly when it is a forbidden control, and escaped only when it is a < that no markup byte follows |
| `RepairMeaning.RepairIsAccountedFor` | src/parse/repair.rs:97-118 | the tally is zero exactly when nothing changed; output is at most four times the input and holds no forbidden control |
| `RepairMeaning.RepairedTwice` | src/parse/repair.rs:134-223 | repairing a repaired input changes and counts nothing |
| `RepairMeaning.RepairedIsRewrite` | src/parse/repair.rs:146-223 | on control-free input the automaton is a search and replace: sections run from their opener to the first terminator wholly after it and pass unchanged, and outside them exactly the < that no markup byte follows is escaped |
| `RepairMeaning.OpenerFails` | src/parse/repair.rs:165-190 | an opener that fails to complete costs no byte: the rest is read as text |
| `EventQueue.ClientSeesPrefix` | src/service.rs:702-754 | in every interleaving the client has been handed a prefix of what was sent, or all of it and an internal error when every sender went away, nothing after a trailer or an error, and an end of stream only after one of these; free, queued, batched and held bytes add up to the capacity |
| `EventQueue.EveryRunIsSafe` | src/service.rs:610-639 | every step of every party conserves permits and keeps order |
| `EventQueue.ReadingDrains` | src/service.rs:702-754 | as many polls as there is backlog either hand over the terminal item or empty the queue, and then any event is admissible; with no sender left the terminal item is always handed over |
| `EventQueue.PendingMeansEmpty` | src/service.rs:726-736 | after the timer a poll is pending only when there is nothing to hand over and someone may still send |
| `EventQueue.Pipe.Deliver` | src/service.rs:618-639 | a granted wait takes the event's encoded size, at least one byte and at most the whole queue, and queues the event; anything else changes nothing |
| `QueueBytes.SizesAreConserved` | src/service.rs:610-639 | at every moment of every run the free queue bytes and those that the encoded sizes of all waiting events hold make up the capacity |
| `QueueBytes.QueuedBytesAreBounded` | src/service.rs:610-639 | the encoded bytes waiting never exceed the capacity, except by one event larger than the whole queue, which then has it to itself |
| `QueueBytes.GrantedExactlyWhenItFits` | src/service.rs:618-625 | a wait for queue bytes can be granted exactly when the event's size fits what is free |
| `QueueBytes.SmallBatchesWait` | src/service.rs:726-736 | before the timer fires a new batch goes out exactly when it is the stream's last or the sizes in it hold at least 256 bytes |
| `QueueBytes.BatchGoesOutWhole` | src/service.rs:729-751 | a batch that began to go out goes out whole, without another wait |
| `QueueBytes.ErrorGetsThrough` | src/service.rs:582-754 | an error sent while the stream is open reaches a client that keeps reading, right after everything sent before it, and ends the stream, without waiting for queue bytes |
| `QueueBytes.TrailerGetsThrough` | src/service.rs:618-754 | so does a trailer once it has its queue bytes |
| `QueueBytes.SilenceIsAnError` | src/service.rs:717-722 | when the last sender goes away without either, the client is handed everything sent and then an internal error |
| `QueueBytes.DroppedUnfinishedIsCancelled` | src/service.rs:756-763 | the parse is told to stop if and only if the stream is dropped before it had finished |
| `EventQueue.Pipe.GatherBatch` | src/service.rs:707-725 | moves what waits in the channel, up to a terminal item, or the stream's own error when every sender is gone |
| `EventQueue.Pipe.Release` | src/service.rs:737-751 | hands over the first item, returns its bytes without underflow, and finishes with the last of a final batch |
| `EventQueue.Pipe.PollNext` | src/service.rs:702-754 | one poll is the protocol's poll step, and answers that the stream is over only after a terminal item |
| `EventQueue.Pipe.Drop` | src/service.rs:757-763 | closes the semaphore and cancels an unfinished parse |
| `Flatten.FeedIsPoured` | src/parse/driver.rs:345-364 | closing the innermost run open at an end tag's depth, found by search, is closing the run the element itself opened |
| `Flatten.PouredText` | src/parse/driver.rs:644-661 | from any point on, the captured text collapses like the character data with one space wherever an end tag is followed by a start tag with no text between |
| `Flatten.PouredRuns` | src/parse/driver.rs:665-708 | the recorded runs are the first 512 recognized elements in opening order, each over exactly its own content, any two nested or disjoint |
| `Flatten.FinishSpansShow` | src/parse/driver.rs:710-746 | the finished runs are those that left text, in order, each slicing the text to the collapse of its own element, a link from text being the scheme and that slice |
| `Flatten.CaptureLaw` | src/parse/driver.rs:644-746 | text, runs, their slices and their nesting, all as functions of the captured content; no run is left unclosed, so the fallback end is never used |
| `Flatten.CaptureLawWithoutRuns` | src/parse/driver.rs:237-244 | with runs not asked for the text is the same and there are none |
| `StreamText.CaptureSends` | src/parse/driver.rs:748-810 | an element the dialect captures sends nothing when its content is blank and otherwise one item that obeys the law of captures, with the level its rule states or, for a header whose rule states none, the number of sections it is in |
| `StreamText.CaptionWaits` | src/parse/driver.rs:748-787 | after an element mapped as a caption the caption that waits says what the law of captures says of its content, with the element's parent as its wrapper, and the one that waited before has gone out as an item; blank content leaves the waiting one alone |
| `StreamText.AttributeIsSent` | src/parse/driver.rs:310-327 | an element read for an attribute sends the collapse of that attribute when it opens, unless that is blank, and in DocLang a picture sends the waiting caption first |
| `StreamText.UnresolvedReferenceIsKept` | src/parse/driver.rs:434-480 | an element whose content is a reference that resolves to nothing is captured as the reference was written |
| `StreamText.CellJoinsRow` | src/parse/table.rs:93-276 | a cell element adds one cell at its row's next column, with the spans its attributes state, and the next column is the one after it; its text and runs obey the law of captures |
| `CellSpans.SpansAreStated` | src/parse/table.rs:132-151 | a cell whose colspan states a number n within 32 bits spans min(max(n, 1), 1000) columns and one without such a number one; rowspan likewise up to 65534 rows, and without one it spans a row more than morerows states |
| `TableSpans.RowIsSent` | src/parse/table.rs:93-308 | a row of a table is sent exactly when it has a cell, with one cell for each cell element in it, side by side from column 0, each with the spans its element states; it is a header in a header section and when all its cells are |
| `TableSpans.TableEndStates` | src/parse/table.rs:110-320 | a table's end states the column its widest row reaches and the first 4096 of the columns declared in it |
| `TableSpans.ColumnsAreStated` | src/parse/table.rs:110-127 | a column element declares as many columns as its span states, one by default and 4096 at most, all under its name and with its colwidth or else its width |
| `Attributes.GetIs` | src/dialect.rs:39-52 | the attribute that answers to a name is the first of that very name, or, when none is, the first of that name under a prefix |
| `Attributes.AttributesAreShown` | src/dialect.rs:497-519 | the attributes of an element as one text: all but namespace declarations, each as name="value", in order, a space apart |
| `Decimal.ParseIsReading` | src/parse/table.rs:132-151 | a fixed-width parse reads exactly the texts that state a number within the width, zeros before it and one plus sign allowed, and reads that number |
| `ListPlaces.ListItemsArePlaced` | src/parse/driver.rs:986-1004 | the items a run sends with a place in a list are exactly the captured list items of its tree that hold text inside some list container, in document order, each with the number of containers around it and the kind of the innermost |
| `StreamModes.OnStepModes` | src/parse/driver.rs:217-386 | every step keeps at most one of island, capture, fact and table open, each within the open elements, and nothing open once the root has closed |
| `StreamOrder.FinishedRunsAreOrderly` | src/parse/driver.rs:31-36 | every finished run is Info, then content, then one trailer; the k-th indexed event carries k; between a table's start and end come only its rows, numbered from zero, and the end states how many and how wide; the trailer counts what was sent, metadata records and notes included |
| `StreamCaptions.CaptionsAreConserved` | src/parse/driver.rs:757-843 | over any steps, every non-blank caption captured on a finished run is delivered exactly once, in order, as a table's caption or on its own |
| `CaptionTexts.DeliveredAreTheCaptions` | src/parse/driver.rs:757-843 | over a tree, the captions delivered are exactly the elements the rules map as captions where the rules decide, in document order, each once, with the collapse of its own content; none from inside skipped or claimed elements |
| `StreamCaptions.WaitingCaptionsStayInside` | src/parse/driver.rs:377-381 | a waiting caption's wrapper is still open, so it leaves no later than with the wrapper's end tag; at most one special thing is open |
| `StreamBalance.WellFormedCloses` | src/parse/driver.rs:890-906 | well-formed content closes under any rules unless it nests past 1024 levels, and is refused exactly then |
| `StreamBalance.ContentLevel` | src/parse/driver.rs:865-888 | well-formed content, skipped or read, leaves as many elements open as it found |
| `StreamFaults.FirstFaultDecides` | src/parse/driver.rs:166-215 | a balanced document closes exactly when it has no fault, and is otherwise refused for its first in document order: a declaration or DOCTYPE outside what is dropped, or an element past the nesting bound anywhere |
| `StreamFaults.MalformedExactlyWhenExposed` | src/parse/driver.rs:185-195 | within the nesting bound a balanced document is refused as malformed if and only if a declaration or DOCTYPE lies outside every element whose content is dropped; nothing inside an island, capture, table, fact, XBRL context, unit, note link or metadata record that is read counts as dropped |
| `StreamFaults.SkippedDeclarationIsIgnored` | src/parse/driver.rs:865-888 | the same declaration is ignored inside a skipped child and refuses the document beside it |
| `StreamFaults.DeclarationInChild` | src/parse/driver.rs:217-328 | a lone declaration in a child of the root is passed over exactly when the child's content is dropped |
| `StreamFaults.ContextRefusesDeclaration` | src/parse/xbrl.rs:228-232 | the declaration a dropped subtree hides refuses the document inside an XBRL context |
| `StreamFaults.MetadataDecidesDeclaration` | src/parse/meta.rs:154-158 | the same document with a declaration in a metadata record closes or is refused according to whether metadata was asked for |
| `RecordReading.ContextIsReading` | src/parse/xbrl.rs:153-240 | a context says what its tree states: its scheme, entity, period and dimensions, each value the text after the last child element of its own element, each dimension from its scenario or not, and none for a member element with another inside it |
| `RecordReading.UnitIsReading` | src/parse/xbrl.rs:243-297 | a unit holds the measures of its tree in order, as numerator, denominator or neither by the elements around each |
| `RecordReading.NotesAreReading` | src/parse/xbrl.rs:330-441 | the notes of a link are those of its tree, each with all its content as text, and the locators and arcs outside notes, up to 4096 elements; markup past the bound declares nothing but still belongs to the note it is in |
| `RecordReading.MetaIsReading` | src/parse/meta.rs:104-165 | up to its bound on elements a metadata record is its tree: the leaves from the inside out with their own text, and the words of leaves and of the text directly in it, in the order they end |
| `RecordClaims.ValueIsContent` | src/parse/xbrl.rs:165-217 | the value of a context element is the collapse of all it says exactly when what it says up to the end of its last child element is blank |
| `RecordClaims.TypedMemberLosesValue` | src/parse/xbrl.rs:210-215 | a typed dimension whose value stands in a child element is kept with the empty value |
| `RecordClaims.TargetsAreAll` | src/parse/xbrl.rs:326-344 | a note's targets are those of every locator joined to it exactly when no name its arcs come from is shared by two locators |
| `RecordClaims.SecondLocatorIsLost` | src/parse/xbrl.rs:338-342 | of two locators of one name joined to a note the second is lost |
| `RecordClaims.RecordTextIsContent` | src/parse/meta.rs:136-150 | a record without child elements keeps the collapse of what it says exactly when no reference in it says anything and whitespace parts every piece of its text from the text before |
| `RecordClaims.ReferencePartsWords` | src/parse/meta.rs:136-150 | an entry that writes AT&T with a reference to the ampersand is kept as AT T |
| `RecordClaims.LeafWithText` | src/parse/meta.rs:36-69 | looking a name up among all leaves and among those with text differs exactly when the first leaf of that name is empty |
| `RecordClaims.NumIsNumber` | src/dialect.rs:54-60 | a cited reference whose num attribute is a number with anything but digits around it has that number |
| `RecordClaims.SequenceIsNumber` | src/parse/meta.rs:304-314 | without a digit there it has exactly the number its first sequence element states, if any |
| `RecordClaims.EmptySequenceHidesNumber` | src/parse/meta.rs:304-314 | an empty sequence element hides the number of the cited reference in the one after it |
| `TreeReading.RunIsReading` | src/parse/driver.rs:166-386 | for any dialect, the whole run over a balanced document without a fault is a recursive reading of its tree: every item, table start, row, table end, island, fact, record and note in order, with every count and number, which caption rides with which table included |
| `TreeReading.NextTableTakesCaption` | src/parse/driver.rs:811-843 | an element mapped as a caption rides with the next table beside it, however much text lies between the two |
| `Prolog.Run` | src/parse/driver.rs:31-147 | a whole run over any steps, prolog, content and trailer, sends and ends as specified |
| `Prolog.FirstOtherDecides` | src/parse/driver.rs:42-147 | whatever declarations, allowed DOCTYPEs, blank text, comments and instructions come first, the first step that is none of these decides alone, and the dialect sees only the last DOCTYPE's public identifier |
| `Prolog.SourceIsItsRoot` | src/parse/driver.rs:31-36 | a source is read as its root element: what comes before only settles the dialect, and what comes after it, another element even, is never looked at |
| `Generic.GenericRunIsReading` | src/parse/driver.rs:482-595 | for the generic dialect with islands off, the one-pass driver's whole stream is a recursive reading of the tree between Info and the trailer |
| `Generic.NothingIsLost` | src/dialect.rs:521-545 | the items of an element, read one after another, spell out its character data: no character but whitespace is lost, doubled or moved |
| `Generic.WalkIsMixed` | src/parse/driver.rs:535-595 | the runs and the closing attribute item of an element are its own text parted by its children, and its attributes exactly when all its own text is blank |
| `Generic.ItemsAreLabelled` | src/dialect.rs:521-545 | every item has its element's name as its role and is a paragraph, but for own text of elements named title, and two levels below the root there are only paragraphs |
| `Generic.TitleIsUnderTheRoot` | src/dialect.rs:537-541 | the own text of an element without child elements is a title if and only if it is named title, in any case, and stands right under the root |
| `Generic.AttributesToShow` | src/dialect.rs:498-519 | an element has attribute text exactly when it has an attribute that is no namespace declaration |
| `Generic.AttributeItemMark` | src/parse/driver.rs:535-595 | an element without text of its own sends its attributes as its last item, and that item is marked as CDATA if and only if a CDATA section follows the last child element |
| `Generic.AttributeMarkedAsCdata` | src/parse/driver.rs:543-556 | an element with one attribute and a blank CDATA section sends the attribute marked as CDATA |
| `Driver.ParseDocument` | src/parse/driver.rs:31-36 | the driver run over any steps after the root's start tag sends exactly the specified stream and ends as specified |
| `Driver.Driver.constructor` | src/parse/driver.rs:107-147 | the state once the root's start tag was read and announced |
| `Driver.Driver.ContentLoop` | src/parse/driver.rs:166-215 | reads steps to the root's end or to the first fault, as the step specification folded over them |
| `Driver.Driver.Claim` | src/parse/driver.rs:217-328 | a start tag goes to the island, capture, fact or table that is open, and only then to the dialect, which keeps the element open, drops its subtree or reads it as a record |
| `Driver.Driver.End` | src/parse/driver.rs:333-386 | an end tag closes what it ends and pops one element |
| `Driver.Driver.TextIn` | src/parse/driver.rs:388-427 | character data goes to what is open, or to the element's own text |
| `Driver.Driver.FlushOwnText` | src/parse/driver.rs:535-595 | a run of own text goes out unless blank; an element closing without any sends its attributes |
| `Driver.Driver.StartCapture` | src/parse/driver.rs:599-641 | a capture opens at the current depth with its level and list placement read off the open elements |
| `Driver.Driver.EndCapture` | src/parse/driver.rs:748-810 | a blank capture is dropped, a caption replaces the waiting one after it went out, anything else is sent |
| `Driver.Driver.FlushPendingCaption` | src/parse/driver.rs:811-843 | the waiting caption goes out as an item |
| `Driver.Driver.OpenTable` | src/parse/table.rs:68-91 | a table starts under the next number and takes the waiting caption |
| `Driver.Driver.StartInTable` | src/parse/table.rs:93-183 | a start tag in a table: markup in a cell, column geometry, header section, row or cell |
| `Driver.Driver.EndInTable` | src/parse/table.rs:237-320 | an end tag in a table closes a run, a cell, a header section, a row or the table |
| `Driver.Driver.SendRow` | src/parse/table.rs:288-308 | a row with cells is sent under the next row number and widens the table; an empty one is dropped |
| `Driver.CloseRun` | src/parse/table.rs:220-235 | the innermost open run at this depth, if any, gets its end; no other run changes |
| `Driver.FinishRuns` | src/parse/driver.rs:710-746 | the loop over recorded runs computes the specified finished runs |
| `Driver.EnterFlow` | src/parse/driver.rs:644-708 | a child's start tag adds the implied word boundary and opens its run while there is room |
| `Driver.MeasureRow` | src/parse/table.rs:291-300 | the widest column end of a row and whether all its cells are headers |
| `Driver.DeclareColumns` | src/parse/table.rs:110-127 | declared columns are kept in order up to 4096 |
| `Driver.ReadOpenList` | src/parse/driver.rs:990-1004 | how many list containers are open, and the kind of the innermost |
| `Driver.Driver.ConsumeSubtree` | src/parse/driver.rs:865-888 | a skipped subtree is read through its own end tag, only its tags counted |
| `Driver.Driver.ReadContext` | src/parse/xbrl.rs:153-240 | a context is read through its own end tag, refusing a declaration in it, its elements not counted, and is kept under its name |
| `Driver.Driver.ReadUnit` | src/parse/xbrl.rs:243-297 | a unit is read through its own end tag, refusing a declaration in it, its elements not counted, and is kept under its name |
| `Driver.Driver.ReadNoteLink` | src/parse/xbrl.rs:330-441 | a note link is read through its own end tag, its elements counted, before any of its notes goes out |
| `Driver.Driver.ReadMeta` | src/parse/meta.rs:89-165 | a metadata record is read through its own end tag, its elements counted, and goes out |
| `Driver.FindTargets` | src/parse/xbrl.rs:333-343 | the two nested searches find what the first locator of each arc into a note points at |
| `Driver.Driver.OpenFact` | src/parse/xbrl.rs:106-140 | a fact opens under the next number with the context and unit declared under the names it states so far |
| `Driver.Driver.NextStep` | src/parse/driver.rs:890-906 | reading refuses an element past the nesting bound and keeps the number of open ones |
| `Driver.Driver.EndIsland` | src/parse/island.rs:86-102 | an island ends with one event that carries its text collapsed |
| `Driver.Driver.EndFact` | src/parse/xbrl.rs:142-149 | a fact ends with one event that carries its value collapsed, under the index it took when it opened |
| `Pipeline.DocumentFollowsTheSource` | src/service.rs:372-402 | the stream of any run read to its end folds into a document with no table left open, all links held, and one walk from the body that visits every body item once in the order the stream made them, citations and footnotes included, tables in their place; its texts are what the stream said, in order, and its tables hold the rows sent for them |
| `Pipeline.InstanceIsStated` | src/document_fold/mod.rs:1218-1344 | every fact a run sends has its own row below the headings of the one fact table, in order, with its own values, and its context cell points at the item that pairs its own axes with its members; what the values say is FactRows.FactsAreShown |
| `FactRows.FactsAreShown` | src/document_fold/mod.rs:1218-2016 | under each of the eleven headings of the fact table a fact's row shows what the fact states: its concept, the scheme and entity of its context, the context's name, its period, its unit's measures, its value and its attributes; and its context cell alone points at the item with exactly its own axes |
| `InstanceReading.FactsAreThoseStated` | src/parse/xbrl.rs:29-149 | the facts a run over an instance sends are those of its tree in document order, each with its content and with the context and unit declared last before it under the names it gives, or none; and its notes are those its links state |
| `Conveyed.DocumentSaysTheStream` | src/document_fold/mod.rs:226-283 | the document of any stream says what the stream sent: texts, pictures and tables in order, with labels, levels, numbers, identifiers, captions and runs, and every cell of every row with its text, its runs and its spans as far as the budget goes |
| `Conveyed.SentListsAreGrouped` | src/document_fold/mod.rs:820-867 | two list items of a stream share a group if and only if they were sent equally deep, both or neither numbered, and nothing sent between them ends the first one's list |
| `Conveyed.SentListsNest` | src/document_fold/mod.rs:842-863 | a list item sent deeper right after another has a group of its own inside that one's, ordered exactly when it is numbered |
| `Pipeline.GenericDocumentSpellsItsTree` | src/service.rs:372-402 | the document of a source of no known vocabulary has one text for each item of the recursive reading of its tree, in order, and those from character data spell out all of it but whitespace |
| `Pipeline.StreamInStep` | src/document_fold/mod.rs:1103-1174 | over any stream in order the fold has a table open exactly when the stream does, under its name, with every row sent for it laid |
| `Emit.HandOn` | src/service.rs:372-402 | the loop hands on the specified stream to a consumer that takes any number of events and then refuses: a prefix, and nothing after the refusal |
| `Emit.DocumentBeforeTrailer` | src/service.rs:372-402 | with the document asked for, the stream of a run read to its end is the same stream with exactly one document in it, right before the trailer: the fold of every event before it |
| `Emit.FailedHasNoDocument` | src/service.rs:404-437 | a run that failed hands on what it had sent, asked for the document or not, and no document |

## Left out

- Network service, timers, metrics, health, command line and build: plumbing around the parts modelled.
- XML tokenizing, character encodings, archives and compression: libraries; the driver starts from parsed steps.
- Element tables of the JATS, USPTO, DocLang and XBRL dialects: the rules are arbitrary functions, so what is proved holds whatever they answer.
- Decoders of metadata records into dates, identifiers, classifications, licences and funding: looked up among the leaves that are modelled; only cited references are decoded, for the fold takes them.
- Typed numbers and booleans beside the texts of a fact row, and warnings about undeclared contexts and units: copied or counted, never decided upon.
- Paths, byte ranges, attribution, custom fields, styles beyond being present, alignment, column geometry in the Document, and warnings: copied or counted, never decided upon.
- Island markup: re-serialized by a library; the island's text and event are modelled.
- The page, outline, document name and source metadata parts of the fold: they touch no link, anchor, heading, list or table.
- Header levels are stored saturated at 2^31 - 1 while the heading ladder compares them as sent; the model does the same, and levels past that bound are not otherwise related.
- Row numbers of the fact table past 2^31 - 1, where the program's addition would overflow, are modelled as unbounded.
- Integrity.IntegrityErrors: the checks for an absent variant, an empty own reference and a missing parent cannot fail on the model's items and are left out.
- FoldSays.TextsSayTheStream: the text of a picture, which the program keeps as a custom field, is no text of the document.
- Driver.ParseDocument: takes every event as accepted; what reaches a consumer that refuses one is Emit.HandOn, a prefix.
- Prolog.Run: the version and encoding a declaration states are copied into Info and not modelled.
- RecordReading.MetaIsReading: is about records within the bound of 256 elements; past it an end tag may close an element further out than its own, which the step specification has and no reading of the tree states.
- StreamText.CaptureSends: is about content without stray declarations, which end the run (StreamFaults.FirstFaultDecides); so are StreamText.CaptionWaits, StreamText.CellJoinsRow, StreamBalance.WellFormedCloses and Generic.GenericRunIsReading.
- TableSpans.RowIsSent: is about rows with no further row or header section inside them; what any other content of a table sends is TreeReading.RunIsReading.
- ListPlaces.ListItemsArePlaced: is about documents without a fault, which are those StreamFaults.FirstFaultDecides lets close; so is InstanceReading.FactsAreThoseStated.
- QueueBytes.QueuedBytesAreBounded: is about capacities that fit 32 bits; past them an event larger than that holds only as much.
- EventQueue.Pipe.PollNext: one poll is one atomic step; senders that push while a poll gathers are ordered before or after it.
- EventQueue.ClientSeesPrefix: speaks of streams the client has not dropped.
- EventQueue.ReadingDrains: the polls are those after the batch timer has fired.
- OcrLine.CaptureLine: takes balanced spans only; the line's own box, identifier and confidence are copied data, and a line without a box or text is dropped by its caller.
- StreamCaptions.CaptionsAreConserved: items that went out because their caption waited in vain carry a mark in the model that the events themselves do not, to tell them from items a dialect labels as captions.
- Generic.GenericRunIsReading: element attributes reported on an element's first item are not modelled.
- RepairMeaning.RepairedIsRewrite: is about input without forbidden controls; dropping one may join the bytes around it into a markup opener, which only the per-byte script describes.
- Grid.NoGaps: speaks of rows before row 2^31 - 1, where row numbers stop being distinct.
