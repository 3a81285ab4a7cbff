/**
 * Sources/MarkdownView/Markdown/UnorderedListView.swift: the oldest unordered list,
 * which iterates its children itself and draws the bullet and the checkbox symbol.
 */
module MarkdownViewLegacyUnorderedListView {
  import opened Common
  import opened Markdown
  import opened ListIndicator
  import L = MarkdownViewListLevel
  import It = MarkdownViewMarkupIterator
  import S = MarkdownViewUnorderedListView

  datatype Row = Row(indicator: IndicatorView, content: ItemContent)

  datatype View = View(rows: seq<Row>, verticalPadding: int, nestedLevel: L.ListLevel)

  /**
   * `bullet`: the same switch on the level as the later default indicator style,
   * over `.root` and `.one`.
   */
  function Bullet(level: L.ListLevel): string {
    S.MakeBody(level)
  }

  /** The row for a non-nil child: the bullet, the checkbox symbol, the content. */
  function MakeRow(level: L.ListLevel, child: Node): (r: Row)
    ensures r.indicator.text == Bullet(level)
    ensures r.indicator.symbol == CheckboxSymbol(CheckboxOf(child))
    ensures r.content == ContentOf(child)
  {
    Row(IndicatorView(Bullet(level), CheckboxSymbol(CheckboxOf(child))), ContentOf(child))
  }

  /**
   * `body`: `ForEach(0..<childCount)` with `if let listItem = markup.child(at: index)`.
   * The rows are those of the non-nil slots, in index order.
   */
  function Body(markup: Node, slots: seq<Option<Node>>, level: L.ListLevel): (v: View)
    requires markup.UnorderedList?
    ensures |v.rows| == |It.FilledIndices(slots)|
    ensures forall k :: 0 <= k < |v.rows| ==>
              v.rows[k] == MakeRow(level, slots[It.FilledIndices(slots)[k]].value)
    ensures v.verticalPadding == (if L.IsRoot(level) then 10 else 0)
    ensures v.nestedLevel == L.Next(level)
    ensures L.RawValue(v.nestedLevel) == L.RawValue(level) + 1
  {
    var rows := It.Iterate(slots, (index: nat, child: Node) => MakeRow(level, child));
    View(rows, if L.IsRoot(level) then 10 else 0, L.Next(level))
  }

  /** A parsed list fills every slot, so it gets one row per child, in order. */
  lemma RowPerChild(markup: Node, level: L.ListLevel, i: nat)
    requires markup.UnorderedList? && i < |markup.children|
    ensures |Body(markup, ChildSlots(markup), level).rows| == |markup.children|
    ensures Body(markup, ChildSlots(markup), level).rows[i] == MakeRow(level, markup.children[i])
  {
    var slots := ChildSlots(markup);
    assert Children(markup) == markup.children;
    It.IterateAllFilled(slots, (index: nat, child: Node) => MakeRow(level, child));
    assert It.FilledIndices(slots)[i] == i;
  }

  /** Every row of a list `d` lists deep shows "•" at the top, "◦" one level down, "▪" below. */
  lemma BulletByDepth(d: nat)
    ensures d == 0 ==> Bullet(L.NextIterated(L.Root, d)) == "•"
    ensures d == 1 ==> Bullet(L.NextIterated(L.Root, d)) == "◦"
    ensures d >= 2 ==> Bullet(L.NextIterated(L.Root, d)) == "▪"
  {
    L.NextIteratedFromRoot(d);
  }
}
