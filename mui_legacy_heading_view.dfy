/**
 * Sources/MarkdownUI/Blocks/HeadingView.swift: the older heading file. The heading's
 * configuration carries its level, and the view sets the font type for that level
 * around whatever the style makes: `DefaultHeadingStyle`, the environment default, or
 * `DividerHeadingStyle`, which is the one of `MarkdownUIDividerHeadingStyle` line for line.
 */
module MarkdownUILegacyHeadingView {
  import opened SwiftUI
  import Mk = Markdown
  import F = MarkdownUIFonts
  import D = MarkdownUIDividerHeadingStyle

  /** `HeadingConfiguration` */
  datatype HeadingConfiguration = HeadingConfiguration(heading: Mk.Node)

  /** `init(_ heading:)` and `level` */
  function Level(c: HeadingConfiguration): (level: int)
    requires c.heading.Heading?
    ensures level == c.heading.level
  {
    c.heading.level
  }

  /**
   * The two heading styles of the file: `DefaultHeadingStyle`, which shows the content
   * only, and `DividerHeadingStyle`.
   */
  datatype HeadingStyle = DefaultHeading | DividerHeading(divider: D.DividerHeadingStyle)

  /** The `headingStyle` environment default. */
  function DefaultStyle(): (s: HeadingStyle)
    ensures s.DefaultHeading?
  {
    DefaultHeading
  }

  /** `makeBody(configuration:)` of either style. */
  function MakeBody(style: HeadingStyle, headingLevel: int): (parts: seq<D.Part>)
    ensures |parts| >= 1 && parts[0] == D.HeadingContent
    ensures style.DefaultHeading? ==> parts == [D.HeadingContent]
    ensures style.DividerHeading? ==> (D.DividerLine in parts <==> headingLevel <= style.divider.level)
  {
    match style
    case DefaultHeading => [D.HeadingContent]
    case DividerHeading(divider) => D.MakeBody(divider, headingLevel)
  }

  /**
   * The default style draws what a divider style with threshold 0 draws for every
   * heading level Markdown produces (1 and above).
   */
  lemma DefaultIsDividerUpToZero(headingLevel: int)
    requires headingLevel >= 1
    ensures MakeBody(DefaultStyle(), headingLevel) == MakeBody(DividerHeading(D.UpTo(0)), headingLevel)
  {
  }

  /** The view: the style's parts under `markdownFont(.heading(level))`. */
  datatype HeadingView = HeadingView(parts: seq<D.Part>, fontType: F.FontType)

  function Body(n: Mk.Node, style: HeadingStyle): (v: HeadingView)
    requires n.Heading?
    ensures v.fontType == F.HeadingFont(n.level)
    ensures v.parts == MakeBody(style, n.level)
    ensures style.DefaultHeading? ==> D.DividerLine !in v.parts
  {
    var c := HeadingConfiguration(n);
    HeadingView(MakeBody(style, Level(c)), F.HeadingFont(Level(c)))
  }

  /**
   * With no font override a heading is shown at 28 − 2·(level − 1) points, semibold,
   * and an override for its level wins.
   */
  lemma HeadingFontResolves(n: Mk.Node, style: HeadingStyle, fonts: F.Fonts)
    requires n.Heading?
    ensures F.Resolve(F.DefaultFonts(), Body(n, style).fontType) == System(28 - 2 * (n.level - 1), Semibold)
    ensures F.HeadingFont(n.level) in fonts ==> F.Resolve(fonts, Body(n, style).fontType) == fonts[F.HeadingFont(n.level)]
  {
  }
}
