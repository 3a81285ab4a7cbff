/**
 * Sources/MarkdownView/Blocks/MarkupView.swift: the block dispatch. Every child of
 * a node, in the order the iterator visits them, becomes exactly one view chosen
 * by the child's kind, with a `format()` fallback for every other kind.
 */
module MarkdownViewMarkupView {
  import opened Common
  import opened SwiftUI
  import Mk = Markdown
  import It = MarkdownViewMarkupIterator
  import opened MarkdownUITextExtensions

  /** The modifier applied to an `InlineContainerView`. */
  datatype InlineStyle = Plain | Bolded | Italicized | StruckThrough

  /** The views a child can become; each holds the node it was built from. */
  datatype BlockView =
    | HeadingView(heading: Mk.Node)
    | TextView(text: Text)
    | InlineContainerView(container: Mk.Node, style: InlineStyle)
    | CodeBlockView(codeBlock: Mk.Node)
    | BlockQuoteView(quote: Mk.Node)
    | OrderedListView(orderedList: Mk.Node)
    | UnorderedListView(unorderedList: Mk.Node)
    | TableView(table: Mk.Node)
    | Divider

  datatype Env = Env(plainText: Mk.Node -> string, format: Mk.Node -> string,
                     parse: string -> Option<AttributedString>)

  /** The node a view was built for, if it keeps one. */
  function Carried(v: BlockView): Option<Mk.Node> {
    match v
    case HeadingView(n) => Some(n)
    case InlineContainerView(n, _) => Some(n)
    case CodeBlockView(n) => Some(n)
    case BlockQuoteView(n) => Some(n)
    case OrderedListView(n) => Some(n)
    case UnorderedListView(n) => Some(n)
    case TableView(n) => Some(n)
    case _ => None
  }

  /** The kinds that reach the `default:` arm. */
  predicate IsDefaultKind(n: Mk.Node) {
    n.Document? || n.Link? || n.ListItem? || n.TableRow? || n.TableCell? || n.Other?
  }

  /** The `switch child` of the iterator's closure. */
  function Dispatch(child: Mk.Node, env: Env): (v: BlockView)
    ensures v.HeadingView? <==> child.Heading?
    ensures v.CodeBlockView? <==> child.CodeBlock?
    ensures v.BlockQuoteView? <==> child.BlockQuote?
    ensures v.OrderedListView? <==> child.OrderedList?
    ensures v.UnorderedListView? <==> child.UnorderedList?
    ensures v.TableView? <==> child.Table?
    ensures v.Divider? <==> child.ThematicBreak?
    ensures v.InlineContainerView? <==>
              (child.Strong? || child.Emphasis? || child.Strikethrough? || child.Image? || child.Paragraph?)
    ensures v.InlineContainerView? ==>
              v.style == (if child.Strong? then Bolded else if child.Emphasis? then Italicized
                          else if child.Strikethrough? then StruckThrough else Plain)
    ensures v.TextView? || v.Divider? || Carried(v) == Some(child)
    ensures (child.Text? || child.SoftBreak? || child.LineBreak?) ==> v == TextView(Verbatim(env.plainText(child)))
    ensures child.InlineCode? ==> v == TextView(Monospaced(Verbatim(child.code)))
    ensures IsDefaultKind(child) ==> v == TextView(TextMarkdown(env.format(child), None, env.parse))
  {
    match child
    case Heading(_, _) => HeadingView(child)
    case Text(_) => TextView(Verbatim(env.plainText(child)))
    case Strong(_) => InlineContainerView(child, Bolded)
    case Emphasis(_) => InlineContainerView(child, Italicized)
    case Strikethrough(_) => InlineContainerView(child, StruckThrough)
    case InlineCode(code) => TextView(Monospaced(Verbatim(code)))
    case SoftBreak => TextView(Verbatim(env.plainText(child)))
    case LineBreak => TextView(Verbatim(env.plainText(child)))
    case CodeBlock(_, _) => CodeBlockView(child)
    case BlockQuote(_) => BlockQuoteView(child)
    case Image(_, _, _) => InlineContainerView(child, Plain)
    case OrderedList(_, _) => OrderedListView(child)
    case UnorderedList(_) => UnorderedListView(child)
    case Table(_, _, _) => TableView(child)
    case ThematicBreak => Divider
    case Paragraph(_) => InlineContainerView(child, Plain)
    case _ => TextView(TextMarkdown(env.format(child), None, env.parse))
  }

  /** Two children that become the same node-holding view are the same child. */
  lemma DispatchKeepsNode(a: Mk.Node, b: Mk.Node, env: Env)
    requires Dispatch(a, env) == Dispatch(b, env)
    requires Carried(Dispatch(a, env)).Some?
    ensures a == b
  {
  }

  /**
   * The fallback has no empty-string guard: a child whose `format()` is empty
   * still yields a view, unlike in inline flattening.
   */
  lemma EmptyFallbackKept(child: Mk.Node, env: Env)
    requires IsDefaultKind(child) && env.format(child) == []
    ensures Dispatch(child, env) == TextView(TextMarkdown([], None, env.parse))
    ensures env.parse([]) == Some([]) ==> Dispatch(child, env) == TextView([])
  {
  }

  /** `body`: `MarkupIterator(markup) { child in ... }`, one view per visited child. */
  function Body(markup: Mk.Node, env: Env): (views: seq<BlockView>)
    ensures |views| == |Mk.Children(markup)|
    ensures forall i :: 0 <= i < |views| ==> views[i] == Dispatch(Mk.Children(markup)[i], env)
  {
    var slots := Mk.ChildSlots(markup);
    var content := (child: Mk.Node) => Dispatch(child, env);
    It.IterateAllFilled(slots, (index: nat, child: Mk.Node) => content(child));
    It.IterateChildren(slots, content)
  }
}
