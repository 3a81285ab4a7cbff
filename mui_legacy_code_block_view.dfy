/**
 * Sources/MarkdownUI/Blocks/CodeBlockView.swift: the older code block file. Its
 * `CodeBlockConfiguration` is the one of `MarkdownUICodeBlockStyle`, line for line;
 * what it adds is the default style's choice of highlighting language.
 */
module MarkdownUILegacyCodeBlockView {
  import opened Common
  import opened Markdown
  import S = MarkdownUICodeBlockStyle

  /**
   * `DefaultCodeBlockStyle.language(configuration:)`. `plaintext` is HighlightJS's
   * `.plaintext` and `lookup` is `Language(rawValue:)`, nil for an unknown name.
   */
  function LanguageFor<L>(c: S.Configuration, plaintext: L, lookup: string -> Option<L>): (l: Option<L>)
    ensures c.info.None? ==> l == Some(plaintext)
    ensures c.info.Some? ==> l == lookup(c.info.value)
  {
    match S.Language(c)
    case None => Some(plaintext)
    case Some(rawValue) => lookup(rawValue)
  }

  /**
   * The code box gets no language exactly when the fence names one the lookup
   * does not know; a fence without a name is highlighted as plain text.
   */
  lemma NoLanguageOnlyForUnknownNames<L>(n: Node, plaintext: L, lookup: string -> Option<L>)
    requires n.CodeBlock?
    ensures LanguageFor(S.FromCodeBlock(n), plaintext, lookup).None? <==>
              n.language.Some? && lookup(n.language.value).None?
    ensures n.language.None? ==> LanguageFor(S.FromCodeBlock(n), plaintext, lookup) == Some(plaintext)
  {
  }
}
