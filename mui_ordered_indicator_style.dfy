/**
 * Sources/MarkdownUI/Blocks/List/Styles/DefaultOrderedListIndicatorStyle.swift: the
 * item number followed by a period, then the checkbox symbol of a task item.
 */
module MarkdownUIDefaultOrderedListIndicatorStyle {
  import opened Common
  import opened Markdown
  import opened ListIndicator
  import opened Decimal
  import L = MarkdownUIListLevel
  import C = MarkdownUIListItemContainer

  /** `makeBody(configuration:)`: the text `"\(displayIndex)."`. */
  function MakeBody(c: C.Configuration): (v: IndicatorView)
    ensures |v.text| >= 2 && v.text[|v.text| - 1] == '.'
    ensures v.text[..|v.text| - 1] == IntText(C.DisplayIndex(c))
    ensures v.symbol == CheckboxSymbol(c.checked)
  {
    IndicatorView(IntText(C.DisplayIndex(c)) + ".", CheckboxSymbol(c.checked))
  }

  /** The list level does not affect the indicator. */
  lemma IgnoresLevel(c: C.Configuration, level: L.ListLevel)
    ensures MakeBody(c.(level := level)) == MakeBody(c)
  {
  }

  /** Items with different numbers have different labels. */
  lemma LabelsDistinct(a: C.Configuration, b: C.Configuration)
    requires C.DisplayIndex(a) != C.DisplayIndex(b)
    ensures MakeBody(a).text != MakeBody(b).text
  {
    if MakeBody(a).text == MakeBody(b).text {
      assert MakeBody(a).text[..|MakeBody(a).text| - 1] == MakeBody(b).text[..|MakeBody(b).text| - 1];
      IntTextInjective(C.DisplayIndex(a), C.DisplayIndex(b));
    }
  }

  /** A non-negative number is read back from its label. */
  lemma LabelReadsBack(c: C.Configuration)
    requires C.DisplayIndex(c) >= 0
    ensures var t := MakeBody(c).text;
            (forall k :: 0 <= k < |t| - 1 ==> IsDigit(t[k]))
            && ParseNat(t[..|t| - 1]) == C.DisplayIndex(c)
  {
    NatTextRoundTrip(C.DisplayIndex(c));
  }

  /** In an ordered list starting at `s`, item `i` is labelled "`s + i`.". */
  lemma ListLabels(list: Node, level: L.ListLevel, i: nat)
    requires list.OrderedList? && i < |list.children|
    ensures MakeBody(C.Body(list, level).rows[i].indicator.configuration).text
            == NatText(list.startIndex + i) + "."
  {
    C.DisplayIndices(list, level, i);
  }
}
