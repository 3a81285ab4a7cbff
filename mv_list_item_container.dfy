/**
 * Sources/MarkdownView/Blocks/List/ListItemContainerView.swift: the earlier list
 * container. The ordered style is given the item's position, the list's
 * `startIndex` and the level, the unordered style only the level; the checkbox
 * symbol is drawn by the container itself, after the indicator.
 */
module MarkdownViewListItemContainer {
  import opened Common
  import opened Markdown
  import opened ListIndicator
  import L = MarkdownViewListLevel
  import It = MarkdownViewMarkupIterator

  /** `OrderedListIndicatorConfiguration` and `UnorderedListIndicatorConfiguration`. */
  datatype Indicator =
    | Ordered(index: int, startIndex: nat, level: L.ListLevel)
    | Unordered(level: L.ListLevel)

  datatype Row = Row(indicator: Indicator, symbol: Option<string>, content: ItemContent)

  datatype Container = Container(rows: seq<Row>, verticalPadding: int, nestedLevel: L.ListLevel)

  /** The row for the child at `index`. */
  function MakeRow(list: Node, level: L.ListLevel, index: nat, child: Node): (r: Row)
    requires IsListItemContainer(list)
    ensures list.OrderedList? ==> r.indicator == Ordered(index, list.startIndex, level)
    ensures list.UnorderedList? ==> r.indicator == Unordered(level)
    ensures r.symbol == CheckboxSymbol(CheckboxOf(child))
    ensures r.content == ContentOf(child)
  {
    var indicator := if list.OrderedList? then Ordered(index, list.startIndex, level) else Unordered(level);
    Row(indicator, CheckboxSymbol(CheckboxOf(child)), ContentOf(child))
  }

  /** `body`: one row per child, in order; padding only at the root; nested content one level down. */
  function Body(list: Node, level: L.ListLevel): (c: Container)
    requires IsListItemContainer(list)
    ensures |c.rows| == |list.children|
    ensures forall i :: 0 <= i < |c.rows| ==> c.rows[i] == MakeRow(list, level, i, list.children[i])
    ensures c.verticalPadding == (if L.IsRoot(level) then 10 else 0)
    ensures c.nestedLevel == L.Next(level)
    ensures L.RawValue(c.nestedLevel) == L.RawValue(level) + 1
  {
    var slots := ChildSlots(list);
    assert Children(list) == list.children;
    var content := (index: nat, child: Node) requires IsListItemContainer(list) => MakeRow(list, level, index, child);
    It.IterateAllFilled(slots, content);
    Container(It.Iterate(slots, content), if L.IsRoot(level) then 10 else 0, L.Next(level))
  }

  /**
   * A list entered `d` lists below the top is padded only when `d` is 0, and what it
   * contains sees the canonical level of raw value `d + 1`.
   */
  lemma NestingDepth(list: Node, d: nat)
    requires IsListItemContainer(list)
    ensures Body(list, L.NextIterated(L.Root, d)).verticalPadding == (if d == 0 then 10 else 0)
    ensures Body(list, L.NextIterated(L.Root, d)).nestedLevel == L.NextIterated(L.Root, d + 1)
  {
    L.NextIteratedFromRoot(d);
    L.NextIteratedFromRoot(d + 1);
  }
}
