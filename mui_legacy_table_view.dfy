/**
 * Sources/MarkdownUI/Blocks/TableView.swift: the older table configuration, whose
 * cells carry an already mapped `HorizontalAlignment` and are identified by their
 * text, and its default style. `plainText` is swift-markdown's and is a parameter.
 */
module MarkdownUILegacyTableView {
  import opened Common
  import opened Markdown
  import opened SwiftUI
  import opened TableCommon

  /** `TableConfiguration.Cell` */
  datatype Cell = Cell(wrappedValue: Node, alignment: HorizontalAlignment)

  /** `TableConfiguration.Row` */
  datatype Row = Row(cells: seq<Cell>)

  datatype Configuration = Configuration(head: seq<Cell>, body: seq<Row>)

  /** `Cell.init(_:alignment:)`: a nil alignment becomes `.center`. */
  function MakeCell(wrappedValue: Node, alignment: Option<HorizontalAlignment>): (c: Cell)
    ensures c.wrappedValue == wrappedValue
    ensures alignment.Some? ==> c.alignment == alignment.value
    ensures alignment.None? ==> c.alignment == HorizontalAlignment.Center
  {
    Cell(wrappedValue, alignment.GetOr(HorizontalAlignment.Center))
  }

  /** `Cell.id`: the cell's plain text. */
  function CellId(c: Cell, plainText: Node -> string): string {
    plainText(c.wrappedValue)
  }

  /** `Row.id`: `cells.map(\.id).joined()`. */
  function RowId(r: Row, plainText: Node -> string): (id: string)
    ensures r.cells == [] ==> id == []
    ensures |r.cells| == 1 ==> id == CellId(r.cells[0], plainText)
    decreases |r.cells|
  {
    if r.cells == [] then []
    else RowId(Row(r.cells[..|r.cells| - 1]), plainText) + CellId(r.cells[|r.cells| - 1], plainText)
  }

  /** The id of a row is the ids of its cells in order: every cell's id is a part of it, at its offset. */
  lemma {:induction false} RowIdConcatenates(r: Row, s: Row, plainText: Node -> string)
    ensures RowId(Row(r.cells + s.cells), plainText) == RowId(r, plainText) + RowId(s, plainText)
    decreases |s.cells|
  {
    if s.cells != [] {
      var init := Row(s.cells[..|s.cells| - 1]);
      RowIdConcatenates(r, init, plainText);
      assert (r.cells + s.cells)[..|r.cells + s.cells| - 1] == r.cells + init.cells;
    } else {
      assert r.cells + s.cells == r.cells;
    }
  }

  /**
   * Row ids need not be unique: a row with the cell "ab" and a row with the cells "a"
   * and "b" get the same id.
   */
  lemma RowIdsCollide(ab: Node, a: Node, b: Node, plainText: Node -> string)
    requires plainText(ab) == "ab" && plainText(a) == "a" && plainText(b) == "b"
    ensures var one := Row([MakeCell(ab, None)]);
            var two := Row([MakeCell(a, None), MakeCell(b, None)]);
            one != two && RowId(one, plainText) == RowId(two, plainText) == "ab"
  {
    var one := Row([MakeCell(ab, None)]);
    var two := Row([MakeCell(a, None), MakeCell(b, None)]);
    assert one.cells[..0] == [];
    assert two.cells[..1] == [MakeCell(a, None)];
    assert Row(two.cells[..1]).cells[..0] == [];
  }

  /** The cells of the body row `row`: its `Table.Cell` children, in order. */
  function RowCells(row: Node): seq<Node> {
    CellsOf(Children(row))
  }

  /** No row has more cells than the table has columns, or `columnAlignments[index]` traps. */
  predicate AlignmentsCover(table: Node)
    requires table.Table?
  {
    |CellsOf(table.head)| <= |table.columnAlignments|
    && forall j :: 0 <= j < |table.body| ==> |RowCells(table.body[j])| <= |table.columnAlignments|
  }

  /** `table.columnAlignments.map { ... }`: the alignments mapped before they are fanned out. */
  function MappedAlignments(table: Node): (m: seq<Option<HorizontalAlignment>>)
    requires table.Table?
    ensures |m| == |table.columnAlignments|
    ensures forall i :: 0 <= i < |m| ==> m[i] == ToHorizontal(table.columnAlignments[i])
  {
    seq(|table.columnAlignments|, i requires 0 <= i < |table.columnAlignments| =>
      ToHorizontal(table.columnAlignments[i]))
  }

  function MakeRow(row: Node, alignments: seq<Option<HorizontalAlignment>>): (r: Row)
    requires |RowCells(row)| <= |alignments|
    ensures |r.cells| == |RowCells(row)|
    ensures forall i :: 0 <= i < |r.cells| ==> r.cells[i] == MakeCell(RowCells(row)[i], alignments[i])
  {
    Row(FanOut(RowCells(row), alignments, MakeCell))
  }

  /** `init(from:)`: the mapped alignments fanned out by position to the head and to each body row. */
  function FromTable(table: Node): (c: Configuration)
    requires table.Table? && AlignmentsCover(table)
    ensures |c.head| == |CellsOf(table.head)|
    ensures forall i :: 0 <= i < |c.head| ==>
              c.head[i] == MakeCell(CellsOf(table.head)[i], ToHorizontal(table.columnAlignments[i]))
    ensures |c.body| == |table.body|
    ensures forall j :: 0 <= j < |c.body| ==> c.body[j] == MakeRow(table.body[j], MappedAlignments(table))
  {
    var alignments := MappedAlignments(table);
    var head := FanOut(CellsOf(table.head), alignments, MakeCell);
    var body := seq(|table.body|, j requires 0 <= j < |table.body| => MakeRow(table.body[j], alignments));
    Configuration(head, body)
  }

  /** `count` */
  function Count(c: Configuration): (n: nat)
    ensures n == |c.head|
  {
    |c.head|
  }

  /**
   * Column `i` of the head and of every body row gets the mapped alignment of
   * delimiter `i`, and `.center` when the delimiter has none.
   */
  lemma ColumnsAgree(table: Node, j: nat, i: nat)
    requires table.Table? && AlignmentsCover(table)
    requires j < |table.body| && i < |CellsOf(table.head)| && i < |RowCells(table.body[j])|
    ensures FromTable(table).head[i].alignment == FromTable(table).body[j].cells[i].alignment
    ensures table.columnAlignments[i].None? ==> FromTable(table).head[i].alignment == HorizontalAlignment.Center
    ensures table.columnAlignments[i] == Some(Left) ==> FromTable(table).head[i].alignment == HorizontalAlignment.Leading
    ensures table.columnAlignments[i] == Some(Right) ==> FromTable(table).head[i].alignment == HorizontalAlignment.Trailing
  {
    var c := FromTable(table);
    assert c.body[j] == MakeRow(table.body[j], MappedAlignments(table));
  }

  function CellAlignment(c: Cell): HorizontalAlignment {
    c.alignment
  }

  function RowsCells(rows: seq<Row>): (cells: seq<seq<Cell>>)
    ensures |cells| == |rows|
    ensures forall j :: 0 <= j < |rows| ==> cells[j] == rows[j].cells
  {
    seq(|rows|, j requires 0 <= j < |rows| => rows[j].cells)
  }

  /**
   * `DefaultTableStyle.makeBody(configuration:)`: the same grid as the later default
   * style, laid out in the cell's own alignment.
   */
  function MakeBody(c: Configuration): (blocks: seq<Block<Cell>>)
    ensures |blocks| == 2 + 2 * |c.body|
    ensures blocks[0] == GridRow(RowItems(c.head, true, CellAlignment))
    ensures blocks[1] == Rule(1.0)
    ensures forall j :: 0 <= j < |c.body| ==>
              blocks[2 + 2 * j] == GridRow(RowItems(c.body[j].cells, false, CellAlignment))
              && blocks[3 + 2 * j] == Rule(0.5)
  {
    Grid(c.head, RowsCells(c.body), CellAlignment)
  }
}
