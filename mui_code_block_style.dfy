/**
 * Sources/MarkdownUI/Blocks/CodeBlock/CodeBlockStyle.swift: what a code block style
 * is given. The fenced code's final line break is dropped, once, and the info string
 * is passed on as the language.
 *
 * Strings are sequences of abstract characters: a "\r\n" pair, which Swift treats
 * as one character, is not modelled.
 */
module MarkdownUICodeBlockStyle {
  import opened Common
  import opened Markdown

  /** `CodeBlockConfiguration`, made from the code block's code and info string. */
  datatype Configuration = Configuration(source: string, info: Option<string>)

  /** `init(_ codeBlock:)` */
  function FromCodeBlock(n: Node): (c: Configuration)
    requires n.CodeBlock?
    ensures c.source == n.code && c.info == n.language
  {
    Configuration(n.code, n.language)
  }

  /** `hasSuffix("\n")` */
  predicate EndsWithNewline(s: string) {
    |s| > 0 && s[|s| - 1] == '\n'
  }

  /** `code`: the source with one final "\n" dropped, when it has one. */
  function Code(c: Configuration): (code: string)
    ensures EndsWithNewline(c.source) ==> code + "\n" == c.source
    ensures !EndsWithNewline(c.source) ==> code == c.source
    ensures code <= c.source && |code| >= |c.source| - 1
  {
    if EndsWithNewline(c.source) then c.source[..|c.source| - 1] else c.source
  }

  /** `language`: the info string as it is, nil when the fence has none. */
  function Language(c: Configuration): (language: Option<string>)
    ensures language == c.info
  {
    c.info
  }

  /** Appending one line break and dropping it gives the code back. */
  lemma CodeDropsAppendedNewline(s: string, info: Option<string>)
    ensures Code(Configuration(s + "\n", info)) == s
  {
    var code := Code(Configuration(s + "\n", info));
    assert code + "\n" == s + "\n";
    assert code == (code + "\n")[..|code|];
  }

  /** Only one line break is dropped: "x\n\n" gives "x\n", which itself still ends with one. */
  lemma OnlyOneNewlineDropped()
    ensures Code(Configuration("x\n\n", None)) == "x\n"
    ensures EndsWithNewline(Code(Configuration("x\n\n", None)))
  {
    CodeDropsAppendedNewline("x\n", None);
    assert "x\n" + "\n" == "x\n\n";
  }
}
