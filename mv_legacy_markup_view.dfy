/**
 * Sources/MarkdownView/Markdown/MarkupView.swift: the oldest block dispatch. It runs
 * its own `ForEach` over `0..<childCount`, skipping nil children, and differs from
 * the later dispatch only for images, which are shown as their plain text.
 */
module MarkdownViewLegacyMarkupView {
  import opened Common
  import opened SwiftUI
  import Mk = Markdown
  import It = MarkdownViewMarkupIterator
  import B = MarkdownViewMarkupView
  import opened MarkdownUITextExtensions

  /** The `switch child` inside the `ForEach`. */
  function Dispatch(child: Mk.Node, env: B.Env): (v: B.BlockView)
    ensures child.Image? ==> v == B.TextView(Verbatim(env.plainText(child)))
    ensures child.Table? ==> v == B.TableView(child)
    ensures child.Paragraph? ==> v == B.InlineContainerView(child, B.Plain)
    ensures B.IsDefaultKind(child) ==> v == B.TextView(TextMarkdown(env.format(child), None, env.parse))
  {
    match child
    case Heading(_, _) => B.HeadingView(child)
    case Text(_) => B.TextView(Verbatim(env.plainText(child)))
    case Strong(_) => B.InlineContainerView(child, B.Bolded)
    case Emphasis(_) => B.InlineContainerView(child, B.Italicized)
    case Strikethrough(_) => B.InlineContainerView(child, B.StruckThrough)
    case InlineCode(code) => B.TextView(Monospaced(Verbatim(code)))
    case SoftBreak => B.TextView(Verbatim(env.plainText(child)))
    case LineBreak => B.TextView(Verbatim(env.plainText(child)))
    case CodeBlock(_, _) => B.CodeBlockView(child)
    case BlockQuote(_) => B.BlockQuoteView(child)
    case Image(_, _, _) => B.TextView(Verbatim(env.plainText(child)))
    case OrderedList(_, _) => B.OrderedListView(child)
    case UnorderedList(_) => B.UnorderedListView(child)
    case Table(_, _, _) => B.TableView(child)
    case ThematicBreak => B.Divider
    case Paragraph(_) => B.InlineContainerView(child, B.Plain)
    case _ => B.TextView(TextMarkdown(env.format(child), None, env.parse))
  }

  /**
   * Against the later dispatch: every kind but the image becomes the same view. An
   * image is never looked up here, it only shows its plain text.
   */
  lemma AgreesExceptImages(child: Mk.Node, env: B.Env)
    ensures !child.Image? ==> Dispatch(child, env) == B.Dispatch(child, env)
    ensures child.Image? ==> Dispatch(child, env).TextView? && B.Dispatch(child, env) == B.InlineContainerView(child, B.Plain)
  {
  }

  /** `body`: the view of every non-nil child, by ascending index. */
  function Body(slots: seq<Option<Mk.Node>>, env: B.Env): (views: seq<B.BlockView>)
    ensures |views| == |It.FilledIndices(slots)|
    ensures forall k :: 0 <= k < |views| ==> views[k] == Dispatch(slots[It.FilledIndices(slots)[k]].value, env)
  {
    It.IterateChildren(slots, (child: Mk.Node) => Dispatch(child, env))
  }

  /** On a parsed node every slot is filled, and the views follow the children one to one. */
  lemma BodyOfParsedNode(markup: Mk.Node, env: B.Env, i: nat)
    requires i < |Mk.Children(markup)|
    ensures |Body(Mk.ChildSlots(markup), env)| == |Mk.Children(markup)|
    ensures Body(Mk.ChildSlots(markup), env)[i] == Dispatch(Mk.Children(markup)[i], env)
  {
    var slots := Mk.ChildSlots(markup);
    It.IterateAllFilled(slots, (index: nat, child: Mk.Node) => Dispatch(child, env));
    assert It.FilledIndices(slots)[i] == i;
  }
}
