/**
 * Sources/MarkdownUI/Blocks/List/Styles/DefaultUnorderedListIndicatorStyle.swift:
 * a bullet chosen by the list level, followed by the checkbox symbol of a task item.
 */
module MarkdownUIDefaultUnorderedListIndicatorStyle {
  import opened Common
  import opened Markdown
  import opened ListIndicator
  import L = MarkdownUIListLevel
  import C = MarkdownUIListItemContainer

  /**
   * `makeBody(configuration:)`. The level is matched against the patterns `.root` and
   * `.indented`, so every `.furtherIndented(n)` takes the default arm.
   */
  function MakeBody(c: C.Configuration): (v: IndicatorView)
    ensures v.text == "•" <==> c.level.Root?
    ensures v.text == "◦" <==> c.level.Indented?
    ensures v.text == "▪" <==> c.level.FurtherIndented?
    ensures v.symbol == CheckboxSymbol(c.checked)
  {
    var bullet := match c.level
      case Root => "•"
      case Indented => "◦"
      case FurtherIndented(_) => "▪";
    IndicatorView(bullet, CheckboxSymbol(c.checked))
  }

  /** Neither `index` nor `startIndex` is consulted. */
  lemma IgnoresPosition(c: C.Configuration, index: int, startIndex: nat)
    ensures MakeBody(c.(index := index, startIndex := startIndex)) == MakeBody(c)
  {
  }

  /**
   * `.furtherIndented(0)` reports `isRoot`, and still gets the square: the bullet is
   * chosen by pattern, not by `==`.
   */
  lemma PatternNotEquality(index: int, checked: Option<Checkbox>)
    ensures L.IsRoot(L.FurtherIndented(0))
    ensures MakeBody(C.Configuration(index, 0, L.FurtherIndented(0), checked)).text == "▪"
  {
  }

  /**
   * In a list entered `d` unordered or ordered lists below the top, every item shows
   * "•" at the top, "◦" one level down and "▪" below that.
   */
  lemma BulletByDepth(list: Node, d: nat, i: nat)
    requires list.UnorderedList? && i < |list.children|
    ensures var v := MakeBody(C.Body(list, L.NextIterated(L.Root, d)).rows[i].indicator.configuration);
            (d == 0 ==> v.text == "•") && (d == 1 ==> v.text == "◦") && (d >= 2 ==> v.text == "▪")
            && v.symbol == CheckboxSymbol(CheckboxOf(list.children[i]))
  {
    var level := L.NextIterated(L.Root, d);
    L.NextIteratedFromRootIs(d);
    assert C.Body(list, level).rows[i] == C.MakeRow(list, level, i, list.children[i]);
  }
}
