/**
 * Sources/MarkdownUI/Blocks/Heading/Styles/DividerHeadingStyle.swift: a heading
 * style that underlines every heading up to a configured level.
 */
module MarkdownUIDividerHeadingStyle {

  /** `DividerHeadingStyle`, with the stored level threshold. */
  datatype DividerHeadingStyle = DividerHeadingStyle(level: int)

  /** What the style stacks vertically, top to bottom. */
  datatype Part = HeadingContent | DividerLine

  /** `divider(upTo:)`, through `init(upTo:)`. */
  function UpTo(level: int): (s: DividerHeadingStyle)
    ensures s.level == level
  {
    DividerHeadingStyle(level)
  }

  /** `.divider` */
  function Divider(): (s: DividerHeadingStyle)
    ensures s == UpTo(2)
  {
    UpTo(2)
  }

  /** `makeBody(configuration:)` for a heading of the given level. */
  function MakeBody(style: DividerHeadingStyle, headingLevel: int): (parts: seq<Part>)
    ensures |parts| >= 1 && parts[0] == HeadingContent
    ensures DividerLine in parts <==> headingLevel <= style.level
    ensures parts == [HeadingContent] || parts == [HeadingContent, DividerLine]
  {
    [HeadingContent] + (if headingLevel <= style.level then [DividerLine] else [])
  }

  /** `.divider` underlines headings of level 1 and 2 only. */
  lemma DividerUnderlinesTopTwo(headingLevel: int)
    requires 1 <= headingLevel <= 6
    ensures DividerLine in MakeBody(Divider(), headingLevel) <==> headingLevel <= 2
  {
  }

  /** A heading that is underlined makes every higher-ranking heading underlined too. */
  lemma UnderlinedLevelsAreDownwardClosed(style: DividerHeadingStyle, a: int, b: int)
    requires a <= b && DividerLine in MakeBody(style, b)
    ensures DividerLine in MakeBody(style, a)
  {
  }

  /** Different thresholds are told apart by the heading at the larger one. */
  lemma ThresholdsDiffer(n: int, m: int)
    requires n < m
    ensures DividerLine in MakeBody(UpTo(m), m) && DividerLine !in MakeBody(UpTo(n), m)
  {
  }
}
