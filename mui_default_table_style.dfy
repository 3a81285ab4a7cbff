/**
 * Sources/MarkdownUI/Blocks/Table/Styles/DefaultTableStyle.swift: the grid the
 * default table style lays out, as the sequence of its rows and rules
 * (`TableCommon.Grid`).
 */
module MarkdownUIDefaultTableStyle {
  import opened Common
  import opened SwiftUI
  import opened TableCommon
  import opened MarkdownUITableCell
  import TC = MarkdownUITableConfiguration

  /** `.gridColumnAlignment(cell.horizontalAlignment ?? .leading)` */
  function ColumnAlignmentOf(c: Cell): (h: HorizontalAlignment)
    ensures HorizontalAlignmentOf(c).Some? ==> h == HorizontalAlignmentOf(c).value
    ensures HorizontalAlignmentOf(c).None? ==> h == HorizontalAlignment.Leading
  {
    HorizontalAlignmentOf(c).GetOr(HorizontalAlignment.Leading)
  }

  /** The cells of each body row. */
  function RowsCells(rows: seq<TC.Row>): (cells: seq<seq<Cell>>)
    ensures |cells| == |rows|
    ensures forall j :: 0 <= j < |rows| ==> cells[j] == rows[j].cells
  {
    seq(|rows|, j requires 0 <= j < |rows| => rows[j].cells)
  }

  /**
   * `makeBody(configuration:)`: the header row, the 1-point rule, then every body row
   * with its 0.5 rule; separators between the cells of each row.
   */
  function MakeBody(c: TC.Configuration): (blocks: seq<Block<Cell>>)
    ensures |blocks| == 2 + 2 * |c.body|
    ensures blocks[0] == GridRow(RowItems(c.head, true, ColumnAlignmentOf))
    ensures blocks[1] == Rule(1.0)
    ensures forall j :: 0 <= j < |c.body| ==>
              blocks[2 + 2 * j] == GridRow(RowItems(c.body[j].cells, false, ColumnAlignmentOf))
              && blocks[3 + 2 * j] == Rule(0.5)
  {
    Grid(c.head, RowsCells(c.body), ColumnAlignmentOf)
  }

  /**
   * For a configuration built from a table the `?? .leading` fallback is never taken:
   * each column is laid out in the alignment of its delimiter, centred when it has none.
   */
  lemma NoLeadingFallback(table: Markdown.Node, i: nat)
    requires table.Table? && TC.AlignmentsCover(table) && i < |TC.FromTable(table).head|
    ensures ColumnAlignmentOf(TC.FromTable(table).head[i])
            == ToHorizontal(Some(table.columnAlignments[i].GetOr(Markdown.ColumnAlignment.Center))).value
  {
  }
}
