/**
 * Sources/MarkdownView/Markdown/OrderedListView.swift: the oldest ordered list. Each
 * row shows the level's prefix, the label `index(offset:)` and the content.
 */
module MarkdownViewLegacyOrderedListView {
  import opened Common
  import opened Markdown
  import opened Decimal
  import opened ListIndicator
  import L = MarkdownViewListLevel
  import It = MarkdownViewMarkupIterator

  /**
   * `listLevel.prefix` is declared outside the files of this model; a row records the
   * level whose prefix it shows.
   */
  datatype Row = Row(prefixLevel: L.ListLevel, indexText: string, content: ItemContent)

  datatype View = View(rows: seq<Row>, verticalPadding: int, nestedLevel: L.ListLevel)

  /** `index(offset:)`: `"\(startIndex + UInt(offset))."` */
  function IndexLabel(startIndex: nat, offset: nat): (s: string)
    ensures |s| >= 2 && s[|s| - 1] == '.'
    ensures forall k :: 0 <= k < |s| - 1 ==> IsDigit(s[k])
    ensures ParseNat(s[..|s| - 1]) == startIndex + offset
  {
    var digits := NatText(startIndex + offset);
    NatTextRoundTrip(startIndex + offset);
    assert (digits + ".")[..|digits|] == digits;
    digits + "."
  }

  /** Different numbers give different labels. */
  lemma IndexLabelInjective(s: nat, a: nat, b: nat)
    requires IndexLabel(s, a) == IndexLabel(s, b)
    ensures a == b
  {
  }

  /** The row at position `index`. */
  function MakeRow(markup: Node, level: L.ListLevel, index: nat, child: Node): (r: Row)
    requires markup.OrderedList?
    ensures r.prefixLevel == level
    ensures r.indexText == IndexLabel(markup.startIndex, index)
    ensures r.content == ContentOf(child)
  {
    Row(level, IndexLabel(markup.startIndex, index), ContentOf(child))
  }

  /**
   * `body`: a row for every non-nil slot in index order, labelled by the position of
   * the slot, not by the numeral written in the document.
   */
  function Body(markup: Node, slots: seq<Option<Node>>, level: L.ListLevel): (v: View)
    requires markup.OrderedList?
    ensures |v.rows| == |It.FilledIndices(slots)|
    ensures forall k :: 0 <= k < |v.rows| ==>
              var i := It.FilledIndices(slots)[k];
              v.rows[k] == MakeRow(markup, level, i, slots[i].value)
    ensures v.verticalPadding == (if L.IsRoot(level) then 10 else 0)
    ensures v.nestedLevel == L.Next(level)
    ensures L.RawValue(v.nestedLevel) == L.RawValue(level) + 1
  {
    var rows := It.Iterate(slots, (index: nat, child: Node) requires markup.OrderedList? =>
      MakeRow(markup, level, index, child));
    View(rows, if L.IsRoot(level) then 10 else 0, L.Next(level))
  }

  /**
   * A parsed list fills every slot, so row `i` is labelled `startIndex + i`: the numbers
   * are consecutive from the start number (section 5.2 of the GFM spec).
   */
  lemma ConsecutiveLabels(markup: Node, level: L.ListLevel, i: nat)
    requires markup.OrderedList? && i < |markup.children|
    ensures |Body(markup, ChildSlots(markup), level).rows| == |markup.children|
    ensures var t := Body(markup, ChildSlots(markup), level).rows[i].indexText;
            ParseNat(t[..|t| - 1]) == markup.startIndex + i
  {
    var slots := ChildSlots(markup);
    assert Children(markup) == markup.children;
    It.IterateAllFilled(slots, (index: nat, child: Node) requires markup.OrderedList? =>
      MakeRow(markup, level, index, child));
    assert It.FilledIndices(slots)[i] == i;
  }
}
