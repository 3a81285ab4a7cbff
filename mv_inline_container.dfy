/**
 * Sources/MarkdownView/Markdown/InlineContainerView.swift: the oldest inline
 * flattening. It does not recurse: strong, emphasis and strikethrough style their
 * node's whole plain text, and links fall to the `format()` fallback.
 *
 * `plainText`, `format()`, the markdown reparse and the image lookup are parameters.
 * The markdown reparse is the target's own `Text(markdown:)`, which is the MarkdownUI
 * initializer without a url; `Text(image:)` is the MarkdownUI initializer as well.
 */
module MarkdownViewInlineContainer {
  import opened Common
  import opened SwiftUI
  import Mk = Markdown
  import IM = MarkdownViewImageManager
  import opened MarkdownUITextExtensions

  /** The symbol shown for an image whose lookup failed. */
  const FailureSymbol := "photo.badge.exclamationmark"

  datatype Env = Env(
    plainText: Mk.Node -> string,
    format: Mk.Node -> string,
    parse: string -> Option<AttributedString>,
    image: Mk.Node -> Result<Option<PlatformImage>, IM.Error>)

  /** `replacingOccurrences(of: "~", with: "")` */
  function RemoveTildes(s: string): (r: string)
    ensures '~' !in r
    ensures |r| <= |s|
    ensures forall c :: c in s && c != '~' ==> c in r
    ensures forall c :: c in r ==> c in s
    decreases |s|
  {
    if s == [] then []
    else (if s[0] == '~' then [] else [s[0]]) + RemoveTildes(s[1..])
  }

  /** A string without tildes is left as it is, so the removal is idempotent. */
  lemma {:induction false} RemoveTildesKeepsOthers(s: string)
    requires '~' !in s
    ensures RemoveTildes(s) == s
    decreases |s|
  {
    if s != [] {
      assert '~' !in s[1..] by {
        assert forall c :: c in s[1..] ==> c in s;
      }
      RemoveTildesKeepsOthers(s[1..]);
    }
  }

  /** The removal works piecewise, so text between the tildes keeps its order. */
  lemma {:induction false} RemoveTildesAppend(a: string, b: string)
    ensures RemoveTildes(a + b) == RemoveTildes(a) + RemoveTildes(b)
    decreases |a|
  {
    if a == [] {
      assert a + b == b;
    } else {
      assert (a + b)[0] == a[0];
      assert (a + b)[1..] == a[1..] + b;
      RemoveTildesAppend(a[1..], b);
    }
  }

  /** `"~~x~~"` is shown as `"x"`. */
  lemma RemoveTildesExample()
    ensures RemoveTildes("~~x~~") == "x"
  {
    assert "~~x~~" == "~~" + "x" + "~~";
    RemoveTildesAppend("~~" + "x", "~~");
    RemoveTildesAppend("~~", "x");
    assert RemoveTildes("~") == [];
    assert RemoveTildes("~~") == RemoveTildes("~" + "~");
    RemoveTildesAppend("~", "~");
    RemoveTildesKeepsOthers("x");
  }

  /** The kinds that fall to the `default:` arm; links are among them. */
  predicate IsDefaultKind(n: Mk.Node) {
    !(n.Text? || n.Strong? || n.Emphasis? || n.Strikethrough? || n.InlineCode?
      || n.SoftBreak? || n.LineBreak? || n.Image?)
  }

  /** The kind-specific arm of the `compactMap` closure; `None` is a dropped child. */
  function Span(n: Mk.Node, env: Env): (s: Option<Text>)
    ensures (n.Text? || n.SoftBreak? || n.LineBreak?) ==> s == Some(Verbatim(env.plainText(n)))
    ensures n.Strong? ==> s == Some(Bold(Verbatim(env.plainText(n))))
    ensures n.Emphasis? ==> s == Some(Italic(Verbatim(env.plainText(n))))
    ensures n.Strikethrough? ==>
              s.Some? && ShownCharacters(s.value) == RemoveTildes(env.plainText(n))
              && forall r :: r in s.value ==> r.strikethrough
    ensures n.InlineCode? ==>
              s == Some(Monospaced(Verbatim(n.code))) && forall r :: r in s.value ==> !r.inlineCode
    ensures n.Image? && env.image(n).Success? ==> s == Some(TextImage(env.image(n).value))
    ensures n.Image? && env.image(n).Failure? ==> s == Some(Embed(SystemImage(FailureSymbol)))
    ensures IsDefaultKind(n) ==> (s.None? <==> env.format(n) == [])
    ensures IsDefaultKind(n) && s.Some? ==> s.value == TextMarkdown(env.format(n), None, env.parse)
  {
    match n
    case Text(_) => Some(Verbatim(env.plainText(n)))
    case Strong(_) => Some(Bold(Verbatim(env.plainText(n))))
    case Emphasis(_) => Some(Italic(Verbatim(env.plainText(n))))
    case Strikethrough(_) =>
      var shown := RemoveTildes(env.plainText(n));
      assert ShownCharacters(Strikethrough(Verbatim(shown))) == shown by {
        if shown != [] {
          assert Strikethrough(Verbatim(shown))[1..] == [];
        }
      }
      Some(Strikethrough(Verbatim(shown)))
    case InlineCode(code) => Some(Monospaced(Verbatim(code)))
    case SoftBreak => Some(Verbatim(env.plainText(n)))
    case LineBreak => Some(Verbatim(env.plainText(n)))
    case Image(_, _, _) =>
      (match env.image(n)
       case Success(image) => Some(TextImage(image))
       case Failure(_) => Some(Embed(SystemImage(FailureSymbol))))
    case _ =>
      var markdown := env.format(n);
      if markdown == [] then None else Some(TextMarkdown(markdown, None, env.parse))
  }

  /** `compactMap` */
  function Spans(children: seq<Mk.Node>, env: Env): (spans: seq<Text>)
    ensures |spans| <= |children|
    decreases |children|
  {
    if children == [] then []
    else
      match Span(children[0], env)
      case None => Spans(children[1..], env)
      case Some(t) => [t] + Spans(children[1..], env)
  }

  /** `body`: the spans folded from `Text(verbatim: "")` by `+`. */
  function Body(markup: Mk.Node, env: Env): Text {
    JoinedFrom(Verbatim(""), Spans(Mk.Children(markup), env))
  }

  lemma {:induction false} SpansAppend(a: seq<Mk.Node>, b: seq<Mk.Node>, env: Env)
    ensures Spans(a + b, env) == Spans(a, env) + Spans(b, env)
    decreases |a|
  {
    if a == [] {
      assert a + b == b;
    } else {
      assert (a + b)[0] == a[0];
      assert (a + b)[1..] == a[1..] + b;
      SpansAppend(a[1..], b, env);
    }
  }

  /** The body is the in-order concatenation of the children's spans, dropped ones left out. */
  lemma BodyIsConcat(markup: Mk.Node, env: Env)
    ensures Body(markup, env) == Concat(Spans(Mk.Children(markup), env))
  {
    JoinedIsConcat(Spans(Mk.Children(markup), env));
  }

  /**
   * Nothing nested inside a strong node is styled on its own: its whole plain text
   * becomes one bold run, whatever its children are.
   */
  lemma StrongIsFlat(a: seq<Mk.Node>, b: seq<Mk.Node>, env: Env)
    ensures Span(Mk.Strong(a), env) == Span(Mk.Strong(b), env)
            <== env.plainText(Mk.Strong(a)) == env.plainText(Mk.Strong(b))
    ensures |Span(Mk.Strong(a), env).value| <= 1
  {
  }

  /** A link is not special here: it contributes its reparsed `format()`, with no url attached. */
  lemma LinkFallsBack(destination: Option<string>, children: seq<Mk.Node>, env: Env)
    ensures var n := Mk.Link(destination, children);
            Span(n, env) == (if env.format(n) == [] then None else Some(TextMarkdown(env.format(n), None, env.parse)))
  {
  }
}
