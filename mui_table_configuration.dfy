/**
 * Sources/MarkdownUI/Blocks/Table/TableConfiguration.swift: the head cells and body
 * rows of a table, each cell carrying the alignment of its column.
 */
module MarkdownUITableConfiguration {
  import opened Common
  import opened Markdown
  import opened MarkdownUITableCell
  import T = TableCommon

  /** `TableConfiguration.Row` (Sources/MarkdownUI/Blocks/Table/TableConfiguration+Row.swift). */
  datatype Row = Row(cells: seq<Cell>)

  datatype Configuration = Configuration(head: seq<Cell>, body: seq<Row>)

  /** The cells of body row `row`: its `Table.Cell` children, in order. */
  function RowCells(row: Node): seq<Node> {
    CellsOf(Children(row))
  }

  /**
   * What `init(from:)` needs to avoid trapping on `columnAlignments[index]`: no row,
   * head or body, has more cells than the table has columns.
   */
  predicate AlignmentsCover(table: Node)
    requires table.Table?
  {
    |CellsOf(table.head)| <= |table.columnAlignments|
    && forall j :: 0 <= j < |table.body| ==> |RowCells(table.body[j])| <= |table.columnAlignments|
  }

  function MakeRow(row: Node, alignments: seq<Option<ColumnAlignment>>): (r: Row)
    requires |RowCells(row)| <= |alignments|
    ensures |r.cells| == |RowCells(row)|
    ensures forall i :: 0 <= i < |r.cells| ==> r.cells[i] == MakeCell(RowCells(row)[i], alignments[i])
  {
    Row(T.FanOut(RowCells(row), alignments, MakeCell))
  }

  /**
   * `init(from:)`: the head holds the head's cells with the alignment of their column;
   * the body has a row per body child, each holding exactly its own cells, aligned
   * the same way and not padded to the width of the head.
   */
  function FromTable(table: Node): (c: Configuration)
    requires table.Table? && AlignmentsCover(table)
    ensures |c.head| == |CellsOf(table.head)|
    ensures forall i :: 0 <= i < |c.head| ==>
              c.head[i] == MakeCell(CellsOf(table.head)[i], table.columnAlignments[i])
    ensures |c.body| == |table.body|
    ensures forall j :: 0 <= j < |c.body| ==> c.body[j] == MakeRow(table.body[j], table.columnAlignments)
  {
    var head := T.FanOut(CellsOf(table.head), table.columnAlignments, MakeCell);
    var body := seq(|table.body|, j requires 0 <= j < |table.body| => MakeRow(table.body[j], table.columnAlignments));
    Configuration(head, body)
  }

  /** `count`: the number of columns is the number of head cells. */
  function Count(c: Configuration): (n: nat)
    ensures n == |c.head|
  {
    |c.head|
  }

  /**
   * Cells in the same column agree: the head cell and the cell of every body row at
   * position `i` have the same alignment, the column's own or `.center`.
   */
  lemma ColumnsAgree(table: Node, j: nat, i: nat)
    requires table.Table? && AlignmentsCover(table)
    requires j < |table.body| && i < |CellsOf(table.head)| && i < |RowCells(table.body[j])|
    ensures FromTable(table).head[i].columnAlignment == FromTable(table).body[j].cells[i].columnAlignment
    ensures FromTable(table).head[i].columnAlignment == Some(table.columnAlignments[i].GetOr(ColumnAlignment.Center))
  {
    var c := FromTable(table);
    assert c.body[j] == MakeRow(table.body[j], table.columnAlignments);
  }

  /** Non-cell children of the head are dropped before positions are counted. */
  lemma HeadIgnoresNonCells(table: Node, extra: Node)
    requires table.Table? && AlignmentsCover(table) && !extra.TableCell?
    ensures var t2 := table.(head := [extra] + table.head);
            AlignmentsCover(t2) && FromTable(t2).head == FromTable(table).head
  {
    var t2 := table.(head := [extra] + table.head);
    assert CellsOf(t2.head) == CellsOf(table.head) by {
      assert t2.head[1..] == table.head;
    }
  }
}
