/**
 * Sources/MarkdownUI/Blocks/InlineContainerView.swift: the inline children of a
 * paragraph, heading, link, ... flattened into one styled `Text`. Strong, emphasis
 * and strikethrough render their own children recursively and style the result.
 *
 * `plainText`, `format()`, `format(options: condenseAutolinks false)`, the markdown
 * reparse, `URL(string:)` and the image manager's lookup are parameters.
 */
module MarkdownUIInlineContainer {
  import opened Common
  import opened SwiftUI
  import Mk = Markdown
  import IM = MarkdownUIImageManager
  import opened MarkdownUITextExtensions

  /** The symbol shown for an image whose lookup failed. */
  const FailureSymbol := "photo.badge.exclamationmark"

  /** What rendering reads from swift-markdown, Foundation and the environment's image manager. */
  datatype Env = Env(
    plainText: Mk.Node -> string,
    format: Mk.Node -> string,
    formatKeepingAutolinks: Mk.Node -> string,
    parse: string -> Option<AttributedString>,
    parseUrl: string -> Option<Url>,
    image: Mk.Node -> Result<Option<PlatformImage>, IM.Error>)

  /** The one kind-specific arm of the `compactMap` closure; `None` is a dropped child. */
  function Span(n: Mk.Node, env: Env): (s: Option<Text>)
    ensures (n.Text? || n.SoftBreak? || n.LineBreak?) ==> s == Some(Verbatim(env.plainText(n)))
    ensures n.InlineCode? ==>
              s.Some? && ShownCharacters(s.value) == n.code
              && forall r :: r in s.value ==> r.monospaced && r.inlineCode
    ensures n.Strong? ==> s == Some(Bold(Render(n.children, env)))
    ensures n.Emphasis? ==> s == Some(Italic(Render(n.children, env)))
    ensures n.Strikethrough? ==> s == Some(Strikethrough(Render(n.children, env)))
    ensures n.Image? && env.image(n).Success? ==> s == Some(TextImage(env.image(n).value))
    ensures n.Image? && env.image(n).Failure? ==> s == Some(Embed(SystemImage(FailureSymbol)))
    ensures n.Link? && n.destination.Some? ==>
              s == Some(TextMarkdown(env.formatKeepingAutolinks(n), env.parseUrl(n.destination.value), env.parse))
    ensures n.Link? && n.destination.None? ==> s == Some(Verbatim(env.plainText(n)))
    ensures IsDefaultKind(n) ==> (s.None? <==> env.format(n) == [])
    ensures IsDefaultKind(n) && s.Some? ==> s.value == TextMarkdown(env.format(n), None, env.parse)
    decreases n, 0
  {
    match n
    case Text(_) => Some(Verbatim(env.plainText(n)))
    case SoftBreak => Some(Verbatim(env.plainText(n)))
    case LineBreak => Some(Verbatim(env.plainText(n)))
    case InlineCode(code) =>
      var t := TaggedInlineCode(Monospaced(Verbatim(code)));
      assert ShownCharacters(t) == code by {
        if code != [] {
          assert t == [PlainRun(Characters(code)).(monospaced := true).(inlineCode := true)];
          assert t[1..] == [];
        }
      }
      Some(t)
    case Strong(children) => Some(Bold(Render(children, env)))
    case Emphasis(children) => Some(Italic(Render(children, env)))
    case Strikethrough(children) => Some(Strikethrough(Render(children, env)))
    case Image(_, _, _) =>
      (match env.image(n)
       case Success(image) => Some(TextImage(image))
       case Failure(_) => Some(Embed(SystemImage(FailureSymbol))))
    case Link(destination, _) =>
      if destination.Some? then
        Some(TextMarkdown(env.formatKeepingAutolinks(n), env.parseUrl(destination.value), env.parse))
      else
        Some(Verbatim(env.plainText(n)))
    case _ =>
      var markdown := env.format(n);
      if markdown == [] then None else Some(TextMarkdown(markdown, None, env.parse))
  }

  /** The kinds that fall to the `default:` arm. */
  predicate IsDefaultKind(n: Mk.Node) {
    !(n.Text? || n.SoftBreak? || n.LineBreak? || n.InlineCode? || n.Strong? || n.Emphasis?
      || n.Strikethrough? || n.Image? || n.Link?)
  }

  /** `children.compactMap { ... }` */
  function Spans(children: seq<Mk.Node>, env: Env): (spans: seq<Text>)
    ensures |spans| <= |children|
    decreases children, 1
  {
    if children == [] then []
    else
      match Span(children[0], env)
      case None => Spans(children[1..], env)
      case Some(t) => [t] + Spans(children[1..], env)
  }

  /** `render(children:)`: the spans joined in child order. */
  function Render(children: seq<Mk.Node>, env: Env): Text
    decreases children, 2
  {
    Joined(Spans(children, env))
  }

  /** The spans of a concatenation of children are the spans of each part. */
  lemma {:induction false} SpansAppend(a: seq<Mk.Node>, b: seq<Mk.Node>, env: Env)
    ensures Spans(a + b, env) == Spans(a, env) + Spans(b, env)
    decreases |a|
  {
    if a == [] {
      assert a + b == b;
    } else {
      assert (a + b)[0] == a[0];
      assert (a + b)[1..] == a[1..] + b;
      SpansAppend(a[1..], b, env);
    }
  }

  /**
   * The rendered text is the in-order concatenation of what each child contributes,
   * a dropped child contributing nothing.
   */
  lemma RenderAppend(a: seq<Mk.Node>, b: seq<Mk.Node>, env: Env)
    ensures Render(a + b, env) == Render(a, env) + Render(b, env)
    ensures Render([], env) == []
  {
    SpansAppend(a, b, env);
    JoinedLaws(Spans(a, env), Spans(b, env), []);
  }

  /** One child renders to its span, or to nothing when it is dropped. */
  lemma RenderOne(c: Mk.Node, env: Env)
    ensures Render([c], env) == Span(c, env).GetOr([])
  {
    assert [c][1..] == [];
    match Span(c, env)
    case None =>
      JoinedLaws([], [], []);
    case Some(t) =>
      assert Spans([c], env) == [t] + Spans([], env);
      assert Spans([c], env) == [t];
      JoinedLaws([], [], t);
      assert Render([c], env) == Joined([t]) == t;
  }

  /**
   * A child of a default kind whose `format()` is empty is dropped: removing it
   * does not change the result.
   */
  lemma EmptyFallbackDropped(a: seq<Mk.Node>, c: Mk.Node, b: seq<Mk.Node>, env: Env)
    requires IsDefaultKind(c) && env.format(c) == []
    ensures Render(a + [c] + b, env) == Render(a + b, env)
  {
    RenderAppend(a + [c], b, env);
    RenderAppend(a, [c], env);
    RenderAppend(a, b, env);
    RenderOne(c, env);
  }

  /** Every run inside a strong span is bold, however deeply its children nest. */
  lemma StrongIsBoldThroughout(children: seq<Mk.Node>, env: Env)
    ensures forall r :: r in Render([Mk.Strong(children)], env) ==> r.bold
    ensures ShownCharacters(Render([Mk.Strong(children)], env)) == ShownCharacters(Render(children, env))
  {
    RenderOne(Mk.Strong(children), env);
    var inner := Render(children, env);
    SameCharacters(Bold(inner), inner);
  }

  /** A run of plain `Text` nodes shows exactly their plain texts, one after the other. */
  lemma {:induction false} TextsShowPlainText(children: seq<Mk.Node>, env: Env)
    requires forall i :: 0 <= i < |children| ==> children[i].Text?
    ensures ShownCharacters(Render(children, env)) == PlainTexts(children, env)
    decreases |children|
  {
    if children != [] {
      var c := children[0];
      assert children == [c] + children[1..];
      RenderAppend([c], children[1..], env);
      RenderOne(c, env);
      TextsShowPlainText(children[1..], env);
      ShownAppend(Verbatim(env.plainText(c)), Render(children[1..], env));
    }
  }

  /** The plain texts of some nodes, concatenated. */
  function PlainTexts(children: seq<Mk.Node>, env: Env): string
    decreases |children|
  {
    if children == [] then [] else env.plainText(children[0]) + PlainTexts(children[1..], env)
  }
}
