/**
 * Sources/MarkdownView/Markdown/HeadingView.swift: the oldest heading, with the same
 * `factor` switch and size expression as `MarkdownViewHeadingView` and no styles.
 */
module MarkdownViewLegacyHeadingView {
  import opened SwiftUI
  import H = MarkdownViewHeadingView
  import F = MarkdownUIFonts

  /** `font`, for the heading's `level`. */
  function Font(level: int): (f: SwiftUI.Font)
    ensures f.System? && f.weight == Semibold
    ensures 1 <= level <= 6 ==> f.size == 30 - 2 * level
  {
    H.HeadingFont(level)
  }

  /** Every level outside 1...6 gets one fixed size. */
  lemma OutOfRangeSameSize(a: int, b: int)
    requires !(1 <= a <= 6) && !(1 <= b <= 6)
    ensures Font(a) == Font(b)
  {
  }

  /**
   * Against the later MarkdownUI fonts: both give the same heading font for levels
   * 1 to 7, and only the later one goes on shrinking (or grows for level 0).
   */
  lemma AgreesWithFontsUpToSeven(level: int)
    ensures 1 <= level <= 7 ==> F.Resolve(F.DefaultFonts(), F.HeadingFont(level)) == Font(level)
    ensures level > 7 || level < 1 ==> F.Resolve(F.DefaultFonts(), F.HeadingFont(level)) != Font(level)
  {
  }
}
