/**
 * Sources/MarkdownView/Model/Table.swift: the oldest table model. Alignments are
 * mapped to `HorizontalAlignment` and fanned out by position; cells and rows are
 * identified by their text. `plainText` is swift-markdown's and is a parameter.
 */
module MarkdownViewTable {
  import opened Common
  import opened Markdown
  import opened SwiftUI
  import opened TableCommon

  /** `Table.Cell` */
  datatype Cell = Cell(wrappedValue: Node, alignment: HorizontalAlignment)

  /** `Table.Row` */
  datatype Row = Row(cells: seq<Cell>)

  /** `Table` */
  datatype Table = Table(head: seq<Cell>, body: seq<Row>)

  /** `Cell.init(_:alignment:)`: a nil alignment becomes `.center`. */
  function MakeCell(wrappedValue: Node, alignment: Option<HorizontalAlignment>): (c: Cell)
    ensures c.wrappedValue == wrappedValue
    ensures alignment.Some? ==> c.alignment == alignment.value
    ensures alignment.None? ==> c.alignment == HorizontalAlignment.Center
  {
    Cell(wrappedValue, alignment.GetOr(HorizontalAlignment.Center))
  }

  /** `Cell.id`: the cell's plain text. */
  function CellId(c: Cell, plainText: Node -> string): string {
    plainText(c.wrappedValue)
  }

  /** `Row.id`: the ids of the cells joined in order, by a left fold. */
  function RowId(cells: seq<Cell>, plainText: Node -> string): (id: string)
    ensures |cells| == 1 ==> id == CellId(cells[0], plainText)
    decreases |cells|
  {
    if cells == [] then []
    else RowId(cells[..|cells| - 1], plainText) + CellId(cells[|cells| - 1], plainText)
  }

  /** Joining is associative: the id of two runs of cells is the two ids concatenated. */
  lemma {:induction false} RowIdConcatenates(a: seq<Cell>, b: seq<Cell>, plainText: Node -> string)
    ensures RowId(a + b, plainText) == RowId(a, plainText) + RowId(b, plainText)
    decreases |b|
  {
    if b != [] {
      RowIdConcatenates(a, b[..|b| - 1], plainText);
      assert (a + b)[..|a + b| - 1] == a + b[..|b| - 1];
    } else {
      assert a + b == a;
    }
  }

  /** The id of a row with more than one cell starts with the first cell's id. */
  lemma FirstCellPrefix(cells: seq<Cell>, plainText: Node -> string)
    requires cells != []
    ensures RowId(cells, plainText) == CellId(cells[0], plainText) + RowId(cells[1..], plainText)
  {
    RowIdConcatenates([cells[0]], cells[1..], plainText);
    assert [cells[0]] + cells[1..] == cells;
  }

  function RowCells(row: Node): seq<Node> {
    CellsOf(Children(row))
  }

  /** No row has more cells than the table has columns, or `columnAlignments[index]` traps. */
  predicate AlignmentsCover(table: Node)
    requires table.Table?
  {
    |CellsOf(table.head)| <= |table.columnAlignments|
    && forall j :: 0 <= j < |table.body| ==> |RowCells(table.body[j])| <= |table.columnAlignments|
  }

  function MappedAlignments(table: Node): (m: seq<Option<HorizontalAlignment>>)
    requires table.Table?
    ensures |m| == |table.columnAlignments|
    ensures forall i :: 0 <= i < |m| ==> m[i] == ToHorizontal(table.columnAlignments[i])
  {
    seq(|table.columnAlignments|, i requires 0 <= i < |table.columnAlignments| =>
      ToHorizontal(table.columnAlignments[i]))
  }

  /** Each body row on its own: short rows stay short. */
  function MakeRow(row: Node, alignments: seq<Option<HorizontalAlignment>>): (r: Row)
    requires |RowCells(row)| <= |alignments|
    ensures |r.cells| == |RowCells(row)|
    ensures forall i :: 0 <= i < |r.cells| ==> r.cells[i] == MakeCell(RowCells(row)[i], alignments[i])
  {
    Row(FanOut(RowCells(row), alignments, MakeCell))
  }

  /** `init(from:)` */
  function FromTable(table: Node): (t: Table)
    requires table.Table? && AlignmentsCover(table)
    ensures |t.head| == |CellsOf(table.head)|
    ensures forall i :: 0 <= i < |t.head| ==>
              t.head[i] == MakeCell(CellsOf(table.head)[i], ToHorizontal(table.columnAlignments[i]))
    ensures |t.body| == |table.body|
    ensures forall j :: 0 <= j < |t.body| ==> t.body[j] == MakeRow(table.body[j], MappedAlignments(table))
  {
    var alignments := MappedAlignments(table);
    var head := FanOut(CellsOf(table.head), alignments, MakeCell);
    var body := seq(|table.body|, j requires 0 <= j < |table.body| => MakeRow(table.body[j], alignments));
    Table.Table(head, body)
  }

  /**
   * Column `i` of the head and of every body row gets the mapped alignment of
   * delimiter `i`, and `.center` when the delimiter has none.
   */
  lemma ColumnsAgree(table: Node, j: nat, i: nat)
    requires table.Table? && AlignmentsCover(table)
    requires j < |table.body| && i < |CellsOf(table.head)| && i < |RowCells(table.body[j])|
    ensures FromTable(table).head[i].alignment == FromTable(table).body[j].cells[i].alignment
    ensures table.columnAlignments[i].None? ==> FromTable(table).head[i].alignment == HorizontalAlignment.Center
  {
    var t := FromTable(table);
    assert t.body[j] == MakeRow(table.body[j], MappedAlignments(table));
  }
}
