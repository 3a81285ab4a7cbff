/**
 * Sources/MarkdownUI/Blocks/Table/TableConfiguration+Cell.swift: a table cell with
 * its preferred column alignment.
 */
module MarkdownUITableCell {
  import opened Common
  import opened Markdown
  import opened SwiftUI
  import T = TableCommon

  /** `TableConfiguration.Cell`: the wrapped `Markdown.Table.Cell` and `columnAlignment`. */
  datatype Cell = Cell(wrappedValue: Node, columnAlignment: Option<ColumnAlignment>)

  /** `init(_:alignment:)`: a missing alignment becomes `.center`. */
  function MakeCell(wrappedValue: Node, alignment: Option<ColumnAlignment>): (c: Cell)
    ensures c.wrappedValue == wrappedValue
    ensures c.columnAlignment.Some?
    ensures alignment.Some? ==> c.columnAlignment == alignment
    ensures alignment.None? ==> c.columnAlignment == Some(ColumnAlignment.Center)
  {
    Cell(wrappedValue, Some(alignment.GetOr(ColumnAlignment.Center)))
  }

  /** `horizontalAlignment`: left, right and center map to leading, trailing and center; nil to nil. */
  function HorizontalAlignmentOf(c: Cell): (h: Option<HorizontalAlignment>)
    ensures h.None? <==> c.columnAlignment.None?
    ensures c.columnAlignment == Some(Left) ==> h == Some(HorizontalAlignment.Leading)
    ensures c.columnAlignment == Some(ColumnAlignment.Center) ==> h == Some(HorizontalAlignment.Center)
    ensures c.columnAlignment == Some(Right) ==> h == Some(HorizontalAlignment.Trailing)
  {
    T.ToHorizontal(c.columnAlignment)
  }

  /** `alignment`: the same mapping into `Alignment`. */
  function AlignmentOf(c: Cell): (a: Option<Alignment>)
    ensures a.None? <==> c.columnAlignment.None?
    ensures c.columnAlignment == Some(Left) ==> a == Some(Alignment(HorizontalAlignment.Leading))
    ensures c.columnAlignment == Some(ColumnAlignment.Center) ==> a == Some(Alignment(HorizontalAlignment.Center))
    ensures c.columnAlignment == Some(Right) ==> a == Some(Alignment(HorizontalAlignment.Trailing))
  {
    match c.columnAlignment
    case Some(Left) => Some(Alignment(HorizontalAlignment.Leading))
    case Some(Center) => Some(Alignment(HorizontalAlignment.Center))
    case Some(Right) => Some(Alignment(HorizontalAlignment.Trailing))
    case None => None
  }

  /**
   * Every constructed cell has both alignments, so their `default: nil` arms are never
   * taken; the two agree, and an unaligned column is centred.
   */
  lemma ConstructedCellAligned(wrappedValue: Node, alignment: Option<ColumnAlignment>)
    ensures var c := MakeCell(wrappedValue, alignment);
            HorizontalAlignmentOf(c).Some? && AlignmentOf(c) == Some(Alignment(HorizontalAlignmentOf(c).value))
    ensures alignment.None? ==>
              HorizontalAlignmentOf(MakeCell(wrappedValue, alignment)) == Some(HorizontalAlignment.Center)
  {
  }
}
