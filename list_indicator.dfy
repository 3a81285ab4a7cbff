/**
 * What every list view of the repository puts in a row: an indicator column (a
 * label, then the checkbox symbol of a task item) and the item's content, which
 * is laid out inline or dispatched as blocks.
 */
module ListIndicator {
  import opened Common
  import opened Markdown

  /** The indicator column of a row: the indicator text and an optional SF Symbol after it. */
  datatype IndicatorView = IndicatorView(text: string, symbol: Option<string>)

  /**
   * The symbol shown after the indicator text of a task list item (section 5.3 of the GitHub
   * Flavored Markdown spec): a filled check mark when checked, an empty circle when
   * unchecked, nothing for an ordinary item.
   */
  function CheckboxSymbol(checked: Option<Checkbox>): (s: Option<string>)
    ensures s.None? <==> checked.None?
    ensures checked == Some(Checked) ==> s == Some("checkmark.circle.fill")
    ensures checked == Some(Unchecked) ==> s == Some("circle")
  {
    match checked
    case None => None
    case Some(Checked) => Some("checkmark.circle.fill")
    case Some(Unchecked) => Some("circle")
  }

  /** The two glyphs are different, so a checked item can be told from an unchecked one. */
  lemma CheckboxSymbolInjective(a: Option<Checkbox>, b: Option<Checkbox>)
    requires CheckboxSymbol(a) == CheckboxSymbol(b)
    ensures a == b
  {
  }

  /** `(child as? ListItem)?.checkbox`: the checkbox of a list item, absent for any other child. */
  function CheckboxOf(child: Node): (c: Option<Checkbox>)
    ensures c.Some? ==> child.ListItem? && c == child.checkbox
    ensures child.ListItem? ==> c == child.checkbox
  {
    if child.ListItem? then child.checkbox else None
  }

  /** The content column of a row. */
  datatype ItemContent =
    | InlineContent(markup: Node)   // `InlineContainerView(markup)`
    | BlockContent(markup: Node)    // `VStack { MarkupView(child) }`

  /** `if let markup = child as? InlineContainer { ... } else { ... }` */
  function ContentOf(child: Node): (c: ItemContent)
    ensures c.markup == child
    ensures c.InlineContent? <==> IsInlineContainer(child)
  {
    if IsInlineContainer(child) then InlineContent(child) else BlockContent(child)
  }
}
