/**
 * Sources/MarkdownView/Blocks/HeadingView.swift: headings of the earlier snapshot.
 * The font size shrinks by 2 points per level from 28, and every level outside
 * 1...6 gets the size of a seventh level. The `@ScaledMetric` base values are used
 * without Dynamic Type scaling. Its `DividerHeadingStyle` compares the level with
 * the threshold in the same way as `MarkdownUIDividerHeadingStyle`.
 */
module MarkdownViewHeadingView {
  import opened SwiftUI
  import D = MarkdownUIDividerHeadingStyle

  /** `HeadingFont.factor` */
  function Factor(level: int): (factor: int)
    ensures 0 <= factor <= 6
    ensures 1 <= level <= 6 ==> factor == level - 1
    ensures !(1 <= level <= 6) ==> factor == 6
  {
    if 1 <= level <= 6 then level - 1 else 6
  }

  /** `HeadingFont.font`: `.system(size: 28 − 2·factor, weight: .semibold)` */
  function HeadingFont(level: int): Font {
    System(28 - 2 * Factor(level), Semibold)
  }

  /** Sizes run from 28 at level 1 to 18 at level 6; every other level gets 16. */
  lemma Sizes(level: int)
    ensures level == 1 ==> HeadingFont(level).size == 28
    ensures level == 6 ==> HeadingFont(level).size == 18
    ensures !(1 <= level <= 6) ==> HeadingFont(level).size == 16
    ensures 16 <= HeadingFont(level).size <= 28
  {
  }

  /** Within 1...6 a deeper heading is never larger. */
  lemma SizeNonIncreasing(a: int, b: int)
    requires 1 <= a <= b <= 6
    ensures HeadingFont(b).size <= HeadingFont(a).size
  {
  }

  /** What the styles produce: the content in the heading font, bold, then an optional divider. */
  datatype HeadingBody = HeadingBody(font: Font, bold: bool, parts: seq<D.Part>)

  /** `DefaultHeadingStyle.makeBody`: content only. */
  function DefaultBody(level: int): (b: HeadingBody)
    ensures b.font == HeadingFont(level) && b.bold && b.parts == [D.HeadingContent]
  {
    HeadingBody(HeadingFont(level), true, [D.HeadingContent])
  }

  /** `DividerHeadingStyle.makeBody`: the same content, and a divider up to the threshold. */
  function DividerBody(style: D.DividerHeadingStyle, level: int): (b: HeadingBody)
    ensures b.font == HeadingFont(level) && b.bold
    ensures b.parts == D.MakeBody(style, level)
  {
    HeadingBody(HeadingFont(level), true, D.MakeBody(style, level))
  }

  /** The divider style shows what the default style shows, plus the divider at levels up to its threshold. */
  lemma DividerExtendsDefault(style: D.DividerHeadingStyle, level: int)
    ensures DividerBody(style, level).font == DefaultBody(level).font
    ensures DividerBody(style, level).parts ==
              DefaultBody(level).parts + (if level <= style.level then [D.DividerLine] else [])
  {
  }
}
