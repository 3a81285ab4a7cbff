/**
 * Sources/MarkdownUI/Blocks/List/ListItemContainerView.swift: one grid row per
 * child of an ordered or unordered list, whose indicator is drawn by the ambient
 * indicator style from a `ListIndicatorConfiguration`.
 */
module MarkdownUIListItemContainer {
  import opened Common
  import opened Markdown
  import opened ListIndicator
  import L = MarkdownUIListLevel
  import It = MarkdownViewMarkupIterator

  /** `ListIndicatorConfiguration` */
  datatype Configuration = Configuration(index: int, startIndex: nat, level: L.ListLevel, checked: Option<Checkbox>)

  /** `displayIndex`: the number an ordered list shows for this item. */
  function DisplayIndex(c: Configuration): int {
    c.startIndex + c.index
  }

  /** Which ambient style's `makeBody` receives the configuration. */
  datatype Indicator = Ordered(configuration: Configuration) | Unordered(configuration: Configuration)

  datatype Row = Row(indicator: Indicator, content: ItemContent)

  /**
   * The view: its rows, its vertical padding, and the `listLevel` it places in the
   * environment of its content.
   */
  datatype Container = Container(rows: seq<Row>, verticalPadding: int, nestedLevel: L.ListLevel)

  /**
   * The row for the child at `index`: the ordered style gets the list's `startIndex`,
   * the unordered style 0; both get the ambient level and the child's checkbox.
   */
  function MakeRow(list: Node, level: L.ListLevel, index: nat, child: Node): (r: Row)
    requires IsListItemContainer(list)
    ensures r.indicator.configuration.index == index
    ensures r.indicator.configuration.level == level
    ensures r.indicator.configuration.checked == CheckboxOf(child)
    ensures r.indicator.Ordered? <==> list.OrderedList?
    ensures r.indicator.configuration.startIndex == (if list.OrderedList? then list.startIndex else 0)
    ensures r.content == ContentOf(child)
  {
    var indicator :=
      if list.OrderedList? then Ordered(Configuration(index, list.startIndex, level, CheckboxOf(child)))
      else Unordered(Configuration(index, 0, level, CheckboxOf(child)));
    Row(indicator, ContentOf(child))
  }

  /** `body`, for the list `list` seen at the ambient level `level`: one row per child, in order. */
  function Body(list: Node, level: L.ListLevel): (c: Container)
    requires IsListItemContainer(list)
    ensures |c.rows| == |list.children|
    ensures forall i :: 0 <= i < |c.rows| ==> c.rows[i] == MakeRow(list, level, i, list.children[i])
    ensures c.verticalPadding == (if L.IsRoot(level) then 10 else 0)
    ensures c.nestedLevel == L.Next(level)
    ensures L.RawValue(c.nestedLevel) == L.RawValue(level) + 1
  {
    var slots := ChildSlots(list);
    assert Children(list) == list.children;
    var content := (index: nat, child: Node) requires IsListItemContainer(list) => MakeRow(list, level, index, child);
    It.IterateAllFilled(slots, content);
    Container(It.Iterate(slots, content), if L.IsRoot(level) then 10 else 0, L.Next(level))
  }

  /**
   * An ordered list starting at `s` numbers its items `s, s + 1, ...` whatever numerals
   * the source used (section 5.2 of the GFM spec); an unordered list numbers them from 0.
   */
  lemma DisplayIndices(list: Node, level: L.ListLevel, i: nat)
    requires IsListItemContainer(list)
    requires i < |list.children|
    ensures list.OrderedList? ==>
              DisplayIndex(Body(list, level).rows[i].indicator.configuration) == list.startIndex + i
    ensures list.UnorderedList? ==>
              DisplayIndex(Body(list, level).rows[i].indicator.configuration) == i
    ensures i + 1 < |list.children| ==>
              DisplayIndex(Body(list, level).rows[i + 1].indicator.configuration)
              == DisplayIndex(Body(list, level).rows[i].indicator.configuration) + 1
  {
    var c := Body(list, level);
    assert c.rows[i] == MakeRow(list, level, i, list.children[i]);
    if i + 1 < |list.children| {
      assert c.rows[i + 1] == MakeRow(list, level, i + 1, list.children[i + 1]);
    }
  }

  /**
   * A list entered `d` lists below the top sees the level of raw value `d`; only the
   * outermost list is padded, and what it contains sees depth `d + 1`.
   */
  lemma NestingDepth(list: Node, d: nat)
    requires IsListItemContainer(list)
    ensures Body(list, L.NextIterated(L.Root, d)).verticalPadding == (if d == 0 then 10 else 0)
    ensures Body(list, L.NextIterated(L.Root, d)).nestedLevel == L.NextIterated(L.Root, d + 1)
  {
    L.NextIteratedFromRoot(d);
    L.NextIteratedFromRootIs(d + 1);
    L.RawValueRoundTrip(Body(list, L.NextIterated(L.Root, d)).nestedLevel);
  }
}
