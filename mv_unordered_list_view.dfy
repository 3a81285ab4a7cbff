/**
 * Sources/MarkdownView/Blocks/List/UnorderedListView.swift: the earlier unordered
 * list delegates to the list container, and its default indicator style picks a
 * bullet by level. The style's `.indented` arm is read as the earlier level `.one`,
 * the only level between `.root` and `.more` that the earlier `ListLevel` has.
 */
module MarkdownViewUnorderedListView {
  import opened Markdown
  import L = MarkdownViewListLevel
  import C = MarkdownViewListItemContainer

  /** `body`: exactly the list container for this list, so each row asks the unordered style. */
  function Body(markup: Node, level: L.ListLevel): (c: C.Container)
    requires markup.UnorderedList?
    ensures c == C.Body(markup, level)
    ensures forall i :: 0 <= i < |c.rows| ==> c.rows[i].indicator == C.Unordered(level)
  {
    C.Body(markup, level)
  }

  /** `DefaultUnorderedListIndicatorStyle.makeBody(configuration:)` */
  function MakeBody(level: L.ListLevel): (bullet: string)
    ensures bullet == "•" <==> level.Root?
    ensures bullet == "◦" <==> level.One?
    ensures bullet == "▪" <==> level.More?
  {
    match level
    case Root => "•"
    case One => "◦"
    case More(_) => "▪"
  }

  /**
   * In an unordered list `d` lists deep every row shows "•" at the top, "◦" one level
   * down and "▪" below that.
   */
  lemma BulletByDepth(markup: Node, d: nat, i: nat)
    requires markup.UnorderedList? && i < |markup.children|
    ensures var b := MakeBody(Body(markup, L.NextIterated(L.Root, d)).rows[i].indicator.level);
            (d == 0 ==> b == "•") && (d == 1 ==> b == "◦") && (d >= 2 ==> b == "▪")
  {
    L.NextIteratedFromRoot(d);
  }

  /** `.more(-1).next()` is `.more(0)`: a root-like level that still draws the square. */
  lemma SquareAtRawZero()
    ensures L.IsRoot(L.Next(L.More(-1))) && MakeBody(L.Next(L.More(-1))) == "▪"
  {
    L.NextKeepsMore();
  }
}
