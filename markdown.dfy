/**
 * The parsed document tree delivered by swift-markdown, as far as the core reads
 * it. The node kind is the constructor; every kind the core does not switch on is
 * an `Other` node. Parsing itself is not modelled.
 */
module Markdown {
  import opened Common

  /** A task list item's checkbox (section 5.3 of the GitHub Flavored Markdown spec). */
  datatype Checkbox = Checked | Unchecked

  /** A column alignment from a table's delimiter row (section 4.10 of the GFM spec). */
  datatype ColumnAlignment = Left | Center | Right

  datatype Node =
    | Document(children: seq<Node>)
    | Heading(level: int, children: seq<Node>)
    | Paragraph(children: seq<Node>)
    | Text(string: string)
    | Strong(children: seq<Node>)
    | Emphasis(children: seq<Node>)
    | Strikethrough(children: seq<Node>)
    | InlineCode(code: string)
    | SoftBreak
    | LineBreak
    | CodeBlock(language: Option<string>, code: string)
    | BlockQuote(children: seq<Node>)
    | Image(source: Option<string>, title: Option<string>, children: seq<Node>)
    | Link(destination: Option<string>, children: seq<Node>)
    | OrderedList(startIndex: nat, children: seq<Node>)
    | UnorderedList(children: seq<Node>)
    | ListItem(checkbox: Option<Checkbox>, children: seq<Node>)
      /** `head` holds the children of the table's head, `body` the children (rows) of its body. */
    | Table(columnAlignments: seq<Option<ColumnAlignment>>, head: seq<Node>, body: seq<Node>)
    | TableRow(children: seq<Node>)
    | TableCell(children: seq<Node>)
    | ThematicBreak
      /** Any other kind: inline HTML, footnotes, custom blocks, ... */
    | Other(name: string, children: seq<Node>)

  /** `markup.children` (a table's head and body sections are its `head` and `body` fields) */
  function Children(n: Node): (cs: seq<Node>)
    ensures HasChildList(n) ==> cs == n.children
    ensures !HasChildList(n) ==> cs == []
  {
    if HasChildList(n) then n.children else []
  }

  predicate HasChildList(n: Node) {
    !(n.Table? || n.Text? || n.InlineCode? || n.SoftBreak? || n.LineBreak? || n.CodeBlock? || n.ThematicBreak?)
  }

  /**
   * `markup.child(at: i)` for every `i` in `0..<markup.childCount`: swift-markdown
   * answers `nil` only outside that range, so every slot of a parsed node is filled.
   */
  function ChildSlots(n: Node): (slots: seq<Option<Node>>)
    ensures |slots| == |Children(n)|
    ensures forall i :: 0 <= i < |slots| ==> slots[i] == Some(Children(n)[i])
  {
    seq(|Children(n)|, i requires 0 <= i < |Children(n)| => Some(Children(n)[i]))
  }

  /** The kinds that conform to swift-markdown's `InlineContainer` protocol. */
  predicate IsInlineContainer(n: Node) {
    n.Paragraph? || n.Heading? || n.Emphasis? || n.Strong? || n.Strikethrough?
    || n.Link? || n.Image? || n.TableCell?
  }

  /** The kinds that conform to swift-markdown's `ListItemContainer` protocol. */
  predicate IsListItemContainer(n: Node) {
    n.OrderedList? || n.UnorderedList?
  }

  /** `children.compactMap { $0 as? Markdown.Table.Cell }` */
  function CellsOf(children: seq<Node>): (cells: seq<Node>)
    ensures |cells| <= |children|
    ensures forall c :: c in cells ==> c.TableCell? && c in children
    ensures forall c :: c in children && c.TableCell? ==> c in cells
    ensures (forall c :: c in children ==> c.TableCell?) ==> cells == children
  {
    if children == [] then []
    else if children[0].TableCell? then [children[0]] + CellsOf(children[1..])
    else CellsOf(children[1..])
  }
}
