/** What a table's cell claims is what its element states. */
module CellSpans {
  import opened Basics
  import opened Wrappers
  import opened Xml
  import opened Stream
  import opened Attributes

  predicate IsCell(e: Element) {
    e.local in {"td", "th", "entry", "cell"}
  }

  /** Where the column after a cell is; column numbers stop at 32 bits. */
  function EndOf(cell: TableCell): nat {
    Min(cell.columnIndex + cell.columnSpan, 0xFFFF_FFFF)
  }

  /** A cell claims the columns and rows its element states: colspan columns, rowspan
      rows, or one more than morerows when no rowspan can be read, one of each by
      default, and no more than HTML allows. */
  ghost predicate StatesSpans(cell: TableCell, e: Element) {
    && (forall n: nat :: Numbers(e, "colspan", n, 0xFFFF_FFFF) ==> cell.columnSpan == Min(Max(n, 1), 1000))
    && (Numberless(e, "colspan", 0xFFFF_FFFF) ==> cell.columnSpan == 1)
    && (forall n: nat :: Numbers(e, "rowspan", n, 0xFFFF_FFFF) ==> cell.rowSpan == Min(Max(n, 1), 65534))
    && (Numberless(e, "rowspan", 0xFFFF_FFFF) ==>
          && (forall m: nat :: Numbers(e, "morerows", m, 0xFFFF_FFFF) ==> cell.rowSpan == Min(m + 1, 65534))
          && (Numberless(e, "morerows", 0xFFFF_FFFF) ==> cell.rowSpan == 1))
  }

  lemma ColumnSpanIsStated(e: Element)
    ensures forall n: nat :: Numbers(e, "colspan", n, 0xFFFF_FFFF) ==> ColumnSpan(e) == Min(Max(n, 1), 1000)
    ensures Numberless(e, "colspan", 0xFFFF_FFFF) ==> ColumnSpan(e) == 1
  {
    forall n: nat | Numbers(e, "colspan", n, 0xFFFF_FFFF) ensures ColumnSpan(e) == Min(Max(n, 1), 1000) {
      NumberIs(e, "colspan", n, 0xFFFF_FFFF);
    }
    NumberIs(e, "colspan", 0, 0xFFFF_FFFF);
  }

  lemma RowSpanIsStated(e: Element)
    ensures forall n: nat :: Numbers(e, "rowspan", n, 0xFFFF_FFFF) ==> RowSpan(e) == Min(Max(n, 1), 65534)
    ensures Numberless(e, "rowspan", 0xFFFF_FFFF) ==>
      && (forall m: nat :: Numbers(e, "morerows", m, 0xFFFF_FFFF) ==> RowSpan(e) == Min(m + 1, 65534))
      && (Numberless(e, "morerows", 0xFFFF_FFFF) ==> RowSpan(e) == 1)
  {
    forall n: nat | Numbers(e, "rowspan", n, 0xFFFF_FFFF) ensures RowSpan(e) == Min(Max(n, 1), 65534) {
      NumberIs(e, "rowspan", n, 0xFFFF_FFFF);
    }
    NumberIs(e, "rowspan", 0, 0xFFFF_FFFF);
    NumberIs(e, "morerows", 0, 0xFFFF_FFFF);
    if Numberless(e, "rowspan", 0xFFFF_FFFF) {
      forall m: nat | Numbers(e, "morerows", m, 0xFFFF_FFFF) ensures RowSpan(e) == Min(m + 1, 65534) {
        NumberIs(e, "morerows", m, 0xFFFF_FFFF);
      }
    }
  }

  lemma SpansAreStated(cell: TableCell, e: Element)
    requires cell.columnSpan == ColumnSpan(e) && cell.rowSpan == RowSpan(e)
    ensures StatesSpans(cell, e)
  {
    ColumnSpanIsStated(e);
    RowSpanIsStated(e);
  }
}
