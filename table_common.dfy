/**
 * What the three table models of the repository share: the mapping of a GFM column
 * alignment (section 4.10 of the GitHub Flavored Markdown spec) to a SwiftUI
 * alignment, the fan-out of the per-column alignments to the cells of a row by
 * position, and the grid rows of the default table styles, in which a vertical
 * rule separates neighbouring cells.
 */
module TableCommon {
  import opened Common
  import opened Markdown
  import opened SwiftUI

  /**
   * `switch alignment { case .left: .leading; case .right: .trailing; case .center: .center; default: nil }`
   * over an optional column alignment.
   */
  function ToHorizontal(a: Option<ColumnAlignment>): (h: Option<HorizontalAlignment>)
    ensures h.None? <==> a.None?
    ensures a == Some(Left) ==> h == Some(HorizontalAlignment.Leading)
    ensures a == Some(ColumnAlignment.Center) ==> h == Some(HorizontalAlignment.Center)
    ensures a == Some(Right) ==> h == Some(HorizontalAlignment.Trailing)
  {
    match a
    case Some(Left) => Some(HorizontalAlignment.Leading)
    case Some(Center) => Some(HorizontalAlignment.Center)
    case Some(Right) => Some(HorizontalAlignment.Trailing)
    case None => None
  }

  /** The mapping loses nothing: distinct alignments stay distinct. */
  lemma ToHorizontalInjective(a: Option<ColumnAlignment>, b: Option<ColumnAlignment>)
    requires ToHorizontal(a) == ToHorizontal(b)
    ensures a == b
  {
  }

  /**
   * `cells.enumerated().map { index, cell in make(cell, alignments[index]) }`: the cell
   * at position `i` is built with the alignment of column `i`. The subscript traps when
   * a row has more cells than there are columns, which the caller must rule out.
   */
  function FanOut<A, C>(cells: seq<Node>, alignments: seq<A>, make: (Node, A) -> C): (out: seq<C>)
    requires |cells| <= |alignments|
    ensures |out| == |cells|
    ensures forall i :: 0 <= i < |cells| ==> out[i] == make(cells[i], alignments[i])
  {
    seq(|cells|, i requires 0 <= i < |cells| => make(cells[i], alignments[i]))
  }

  /** One element of a `GridRow`: a cell's content, or a vertical rule of width 0.5. */
  datatype GridItem<C> =
    | CellItem(cell: C, bold: bool, columnAlignment: HorizontalAlignment)
    | Separator

  /** One element of the table's `Grid`: a row of items, or a horizontal rule of the given height. */
  datatype Block<C> = GridRow(items: seq<GridItem<C>>) | Rule(height: real)

  predicate IsCellItem<C>(g: GridItem<C>) { g.CellItem? }

  /**
   * `EnumeratedForEach(cells) { index, cell in item(cell); if index < (cells.count - 1) { separator } }`,
   * from position `from` on.
   */
  function SeparatedFrom<T>(xs: seq<T>, sep: T, from: nat): (r: seq<T>)
    requires from <= |xs|
    ensures from == |xs| ==> r == []
    ensures from < |xs| ==> |r| == 2 * (|xs| - from) - 1
    ensures forall k :: 0 <= k < |r| && k % 2 == 0 ==> r[k] == xs[from + k / 2]
    ensures forall k :: 0 <= k < |r| && k % 2 == 1 ==> r[k] == sep
    decreases |xs| - from
  {
    if from == |xs| then []
    else [xs[from]] + (if from < |xs| - 1 then [sep] else []) + SeparatedFrom(xs, sep, from + 1)
  }

  /** The items of a whole row: the elements in order with `sep` between neighbours and not after the last. */
  function Separated<T>(xs: seq<T>, sep: T): (r: seq<T>)
    ensures xs == [] ==> r == []
    ensures xs != [] ==> |r| == 2 * |xs| - 1
    ensures forall k :: 0 <= k < |r| && k % 2 == 0 ==> r[k] == xs[k / 2]
    ensures forall k :: 0 <= k < |r| && k % 2 == 1 ==> r[k] == sep
  {
    SeparatedFrom(xs, sep, 0)
  }

  /** A row of `n` cells holds `n - 1` separators, and none when it is empty. */
  lemma SeparatorCount<C>(xs: seq<GridItem<C>>)
    requires forall k :: 0 <= k < |xs| ==> xs[k].CellItem?
    ensures |set k | 0 <= k < |Separated(xs, Separator)| && Separated(xs, Separator)[k].Separator?|
            == if xs == [] then 0 else |xs| - 1
  {
    var r := Separated(xs, Separator);
    if xs != [] {
      var odd := set k | 0 <= k < |r| && r[k].Separator?;
      assert odd == set m | 0 <= m < |xs| - 1 :: 2 * m + 1 by {
        forall k | k in odd ensures k in set m | 0 <= m < |xs| - 1 :: 2 * m + 1 {
          assert k % 2 == 1;
          assert k == 2 * (k / 2) + 1;
        }
      }
      OddCard(|xs| - 1);
    }
  }

  lemma {:induction false} OddCard(n: nat)
    ensures |set m | 0 <= m < n :: 2 * m + 1| == n
  {
    if n > 0 {
      OddCard(n - 1);
      var small := set m | 0 <= m < n - 1 :: 2 * m + 1;
      assert (set m | 0 <= m < n :: 2 * m + 1) == small + {2 * (n - 1) + 1};
      assert 2 * (n - 1) + 1 !in small;
    }
  }

  /**
   * The items of one grid row of the default table styles: each cell, laid out in the
   * column alignment `align` gives it and bold in the header, then a separator unless
   * it is the last cell of the row.
   */
  function RowItems<C>(cells: seq<C>, header: bool, align: C -> HorizontalAlignment): (items: seq<GridItem<C>>)
    ensures cells == [] ==> items == []
    ensures cells != [] ==> |items| == 2 * |cells| - 1
    ensures forall k :: 0 <= k < |items| && k % 2 == 0 ==>
              items[k] == CellItem(cells[k / 2], header, align(cells[k / 2]))
    ensures forall k :: 0 <= k < |items| && k % 2 == 1 ==> items[k] == Separator
  {
    var cellItems := seq(|cells|, i requires 0 <= i < |cells| => CellItem(cells[i], header, align(cells[i])));
    Separated(cellItems, Separator)
  }

  /** `ForEach(configuration.body) { row in GridRow { ... }; Rectangle().frame(maxHeight: 0.5) }` */
  function BodyBlocks<C>(rows: seq<seq<C>>, align: C -> HorizontalAlignment): (blocks: seq<Block<C>>)
    ensures |blocks| == 2 * |rows|
    ensures forall j :: 0 <= j < |rows| ==> blocks[2 * j] == GridRow(RowItems(rows[j], false, align))
    ensures forall j :: 0 <= j < |rows| ==> blocks[2 * j + 1] == Rule(0.5)
  {
    seq(2 * |rows|, k requires 0 <= k < 2 * |rows| =>
      if k % 2 == 0 then GridRow(RowItems(rows[k / 2], false, align)) else Rule(0.5))
  }

  /**
   * The grid of the default table styles: the bold header row, one rule of height 1,
   * then every body row followed by a rule of height 0.5, the last one included.
   */
  function Grid<C>(head: seq<C>, rows: seq<seq<C>>, align: C -> HorizontalAlignment): (blocks: seq<Block<C>>)
    ensures |blocks| == 2 + 2 * |rows|
    ensures blocks[0] == GridRow(RowItems(head, true, align))
    ensures blocks[1] == Rule(1.0)
    ensures forall j :: 0 <= j < |rows| ==>
              blocks[2 + 2 * j] == GridRow(RowItems(rows[j], false, align)) && blocks[3 + 2 * j] == Rule(0.5)
  {
    [GridRow(RowItems(head, true, align)), Rule(1.0)] + BodyBlocks(rows, align)
  }

  /** A row's separators follow its own cell count, not the header's: `n` cells get `n - 1`. */
  lemma RowSeparators<C>(cells: seq<C>, header: bool, align: C -> HorizontalAlignment)
    ensures |set k | 0 <= k < |RowItems(cells, header, align)| && RowItems(cells, header, align)[k].Separator?|
            == if cells == [] then 0 else |cells| - 1
  {
    var cellItems := seq(|cells|, i requires 0 <= i < |cells| => CellItem(cells[i], header, align(cells[i])));
    assert RowItems(cells, header, align) == Separated(cellItems, Separator);
    SeparatorCount(cellItems);
  }

  /** Below the header rule, even positions hold body rows and odd positions 0.5 rules. */
  lemma GridBelowHeader<C>(head: seq<C>, rows: seq<seq<C>>, align: C -> HorizontalAlignment, b: nat)
    requires 2 <= b < |Grid(head, rows, align)|
    ensures b % 2 == 0 ==> Grid(head, rows, align)[b].GridRow?
    ensures b % 2 == 1 ==> Grid(head, rows, align)[b] == Rule(0.5)
  {
    var j := (b - 2) / 2;
    if b % 2 == 0 {
      assert b == 2 + 2 * j;
    } else {
      assert b == 3 + 2 * j;
    }
  }

  /** Exactly one block is the 1-point rule, the one under the header. */
  lemma OneHeaderRule<C>(head: seq<C>, rows: seq<seq<C>>, align: C -> HorizontalAlignment)
    ensures Grid(head, rows, align)[1] == Rule(1.0)
    ensures forall b :: 0 <= b < |Grid(head, rows, align)| && b != 1 ==> Grid(head, rows, align)[b] != Rule(1.0)
  {
    forall b | 2 <= b < |Grid(head, rows, align)|
      ensures Grid(head, rows, align)[b] != Rule(1.0)
    {
      GridBelowHeader(head, rows, align, b);
    }
  }

  /**
   * Below the header rule, body rows and 0.5 rules alternate, so a 0.5 rule follows
   * every body row, the last one included.
   */
  lemma RuleAfterEveryRow<C>(head: seq<C>, rows: seq<seq<C>>, align: C -> HorizontalAlignment)
    ensures forall b :: 2 <= b < |Grid(head, rows, align)| && b % 2 == 0 ==> Grid(head, rows, align)[b].GridRow?
    ensures forall b :: 2 <= b < |Grid(head, rows, align)| && b % 2 == 1 ==> Grid(head, rows, align)[b] == Rule(0.5)
    ensures rows != [] ==> Grid(head, rows, align)[|Grid(head, rows, align)| - 1] == Rule(0.5)
  {
    forall b | 2 <= b < |Grid(head, rows, align)|
      ensures b % 2 == 0 ==> Grid(head, rows, align)[b].GridRow?
      ensures b % 2 == 1 ==> Grid(head, rows, align)[b] == Rule(0.5)
    {
      GridBelowHeader(head, rows, align, b);
    }
  }

  /** Header cells are bold and body cells are not. */
  lemma BoldOnlyInHeader<C>(head: seq<C>, rows: seq<seq<C>>, align: C -> HorizontalAlignment)
    ensures forall k | 0 <= k < |RowItems(head, true, align)| ::
              RowItems(head, true, align)[k].CellItem? ==> RowItems(head, true, align)[k].bold
    ensures forall j, k | 0 <= j < |rows| && 0 <= k < |RowItems(rows[j], false, align)| ::
              RowItems(rows[j], false, align)[k].CellItem? ==> !RowItems(rows[j], false, align)[k].bold
  {
  }
}
