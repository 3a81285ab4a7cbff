# MarkdownUI / MarkdownView in Dafny

MarkdownUI is a SwiftUI renderer for GitHub Flavored Markdown. It takes the document
tree that swift-markdown parses and turns it into SwiftUI views: lists with bullets,
numbers and task checkboxes, tables, headings, code blocks, and paragraphs flattened
into one styled `Text`. The repository holds two generations of this code:

- `Sources/MarkdownUI` is the current package target. Its `Blocks/TableView.swift`,
  `Blocks/HeadingView.swift` and `Blocks/CodeBlockView.swift` are an older single-file
  layout of the split `Blocks/<Kind>/...` files.
- `Sources/MarkdownView` is an earlier snapshot, with an even older `Markdown/`
  directory.

Each source file of the core is one Dafny module. Modules are named after the target
(`MarkdownUI...` or `MarkdownView...`). `Legacy` in a name marks the older files of a
target. A few vocabularies from outside the repository have modules of their own:

- `Markdown`: the swift-markdown node tree, with one constructor per node kind the
  core switches on.
- `SwiftUI`: alignments, fonts, images, and `Text` as a sequence of styled runs.
- `Common`: `Option` and `Result`.
- `Decimal`: Swift's `"\(n)"` description of an integer.

What the model covers:

- **List levels and list indicators.** The two `ListLevel` enums and their `next()`
  successors. Each list row gets an indicator configuration from its position, the
  list's start number (section 5.2 of the GitHub Flavored Markdown spec) and its task
  checkbox (section 5.3). Each indicator style chooses a glyph or an "N." label from
  that configuration.
- **Tables.** The column alignments of a table's delimiter row (section 4.10 of the
  GFM spec) are handed to the cells by position. A column with no alignment is
  centred. Rows and cells get ids from their text. The default table style lays the
  grid out as a sequence of rows and rules, with separators between cells.
- **Image loaders.** There are three: the two `ImageManager`s and the `ImageHandler`.
  Each is a class whose methods are tied to a transition function on a value of its
  state. The URL cache, the image decoder and the fetch are parameters. A started
  fetch is recorded as a task, and its completion is a separate event.
- **Inline flattening.** The MarkdownUI version renders strong, emphasis and
  strikethrough recursively. The MarkdownView version is flat. In both, spans are
  concatenated in child order and an empty `format()` fallback is dropped.
- **Block dispatch and child iteration.** The two `MarkupView` switches, and the
  iterator that visits the children in index order and skips nil slots.
- **Small helpers.** The code block's final newline, the heading divider threshold,
  heading sizes, the font-override dictionary, `[OptionSet].joined()`, and the image
  scale and mode defaults.

Two functions in the core loop over a collection and update a value in place:
`markdownFont(_:for:)` and `[OptionSet].joined()`. Each is a method with a loop,
proved equal to a specification function.

The parameters that stand for foreign code are:

- swift-markdown's `plainText` and `format()`;
- `AttributedString(markdown:)`, a function that answers `None` when it throws;
- `URL(string:)`;
- the URL cache, `PlatformImage(data:)` and Nuke's memory cache;
- HighlightJS's `Language(rawValue:)`.

Where the source is inconsistent, the model follows what the code does:

- `Sources/MarkdownView/Blocks/List/UnorderedListView.swift:41` matches `.indented`,
  but the MarkdownView `ListLevel` only has `.root`, `.one` and `.more`. The model
  reads that arm as `.one`.
- `Sources/MarkdownView/Markdown/InlineContainerView.swift:41-46` switches on
  `.success` and `.failure` of `ImageHandler.image(for:scale:)`, which returns a
  `Text`. The model gives that view an image lookup that returns a `Result`, as the
  `ImageManager` of that target does. Line 43 of that file calls `Text(image:)`, which
  the MarkdownView target does not define; the model uses the MarkdownUI initializer.
- `MarkupIterator` is used by the MarkdownUI list container, but its MarkdownUI
  version is not part of this model. The MarkdownView `MarkupIterator` is used in its
  place.
- The older MarkdownUI files repeat `CodeBlockConfiguration` and
  `DividerHeadingStyle` line for line. The older modules reuse the newer definitions
  of these, and their rows below cite both files.

## Model

| member | source | states |
|---|---|---|
| Markdown.CellsOf | Sources/MarkdownUI/Blocks/Table/TableConfiguration.swift:26-27 | the table cells among the children, in their order; nothing else is kept, and nothing is dropped when every child is a cell |
| Decimal.NatText | Sources/MarkdownView/Markdown/OrderedListView.swift:52 | the description of a natural number is a non-empty run of digits with no leading zero |
| Decimal.IntText | Sources/MarkdownUI/Blocks/List/Styles/DefaultOrderedListIndicatorStyle.swift:17 | a negative number is described as a minus sign before the digits of its magnitude |
| Decimal.NatTextRoundTrip | Sources/MarkdownView/Markdown/OrderedListView.swift:52 | reading the digits back gives the number |
| Decimal.IntTextInjective | Sources/MarkdownUI/Blocks/List/Styles/DefaultOrderedListIndicatorStyle.swift:17 | different integers have different descriptions |
| MarkdownUIListLevel.FromRawValue | Sources/MarkdownUI/Model/ListLevel.swift:21-41 | `init(rawValue:)` accepts every Int and keeps it as the raw value; `.furtherIndented` never carries 0 or 1 |
| MarkdownUIListLevel.FromRawValueCases | Sources/MarkdownUI/Model/ListLevel.swift:21-30 | 0 is `.root`, 1 is `.indented`, every other Int (negatives too) is `.furtherIndented(n)` |
| MarkdownUIListLevel.RawValueRoundTrip | Sources/MarkdownUI/Model/ListLevel.swift:21-41 | every level `init(rawValue:)` can build is rebuilt from its raw value |
| MarkdownUIListLevel.IsRootExactly | Sources/MarkdownUI/Model/ListLevel.swift:46-48 | `isRoot` holds exactly when the raw value is 0, so `.furtherIndented(0)` is root without being `.root` |
| MarkdownUIListLevel.Next | Sources/MarkdownUI/Model/ListLevel.swift:50-52 | `next()` raises the raw value by one and yields a level `init(rawValue:)` can build |
| MarkdownUIListLevel.NextCases | Sources/MarkdownUI/Model/ListLevel.swift:50-52 | root goes to indented, indented to furtherIndented(2), n to n+1 from 2 on; furtherIndented(0) goes to indented and furtherIndented(-1) to root |
| MarkdownUIListLevel.NextIteratedFromRoot | Sources/MarkdownUI/Model/ListLevel.swift:32-52 | `next()` applied d times to `.root` has raw value d |
| MarkdownUIListLevel.NextIteratedFromRootIs | Sources/MarkdownUI/Model/ListLevel.swift:21-52 | that level is `ListLevel(rawValue: d)`: `.indented` at 1, `.furtherIndented(d)` from 2 on |
| MarkdownUIListLevel.DefaultLevel | Sources/MarkdownUI/Model/ListLevel.swift:58 | the ambient list level is `.root` |
| MarkdownViewListLevel.FromRawValue | Sources/MarkdownView/Model/ListLevel.swift:15-35 | `init(rawValue:)` accepts every Int and keeps it as the raw value; `.more` never carries 0 or 1 |
| MarkdownViewListLevel.FromRawValueCases | Sources/MarkdownView/Model/ListLevel.swift:15-24 | 0 is `.root`, 1 is `.one`, everything else is `.more(n)` |
| MarkdownViewListLevel.IsRootExactly | Sources/MarkdownView/Model/ListLevel.swift:37-39 | `isRoot` holds exactly when the raw value is 0 |
| MarkdownViewListLevel.Next | Sources/MarkdownView/Model/ListLevel.swift:26-50 | `next()` raises the raw value by one; a `.more` level stays `.more`; it stays canonical from a non-negative level |
| MarkdownViewListLevel.NextKeepsMore | Sources/MarkdownView/Model/ListLevel.swift:37-50 | `.more(-1).next()` is `.more(0)`, which reports `isRoot` but is not `.root`; `.more(0).next()` is not `.one` |
| MarkdownViewListLevel.NextIteratedFromRoot | Sources/MarkdownView/Model/ListLevel.swift:15-50 | `next()` applied d times to `.root` is `ListLevel(rawValue: d)` |
| MarkdownViewListLevel.DefaultLevel | Sources/MarkdownView/Environment/MarkdownListLevel.swift:10-12 | the ambient list level is `.root` |
| ListIndicator.CheckboxSymbol | Sources/MarkdownUI/Blocks/List/Styles/DefaultUnorderedListIndicatorStyle.swift:29-37 | a checked item shows "checkmark.circle.fill", an unchecked one "circle", an item with no checkbox no symbol; the same code is repeated at Sources/MarkdownUI/Blocks/List/Styles/DefaultOrderedListIndicatorStyle.swift:20-28, Sources/MarkdownView/Blocks/List/ListItemContainerView.swift:49-57 and Sources/MarkdownView/Markdown/UnorderedListView.swift:28-36 |
| ListIndicator.CheckboxSymbolInjective | Sources/MarkdownUI/Blocks/List/Styles/DefaultUnorderedListIndicatorStyle.swift:29-37 | the symbol tells checked, unchecked and plain items apart |
| ListIndicator.CheckboxOf | Sources/MarkdownUI/Blocks/List/ListItemContainerView.swift:36 | a list item's own checkbox; every other child has none |
| ListIndicator.ContentOf | Sources/MarkdownUI/Blocks/List/ListItemContainerView.swift:55-62 | an inline container child is laid out inline, any other child as blocks; the child itself is kept; the same choice is repeated at Sources/MarkdownView/Blocks/List/ListItemContainerView.swift:61-69, Sources/MarkdownView/Markdown/UnorderedListView.swift:41-49 and Sources/MarkdownView/Markdown/OrderedListView.swift:33-39 |
| MarkdownViewMarkupIterator.FilledIndices | Sources/MarkdownView/MarkupIterator.swift:27-33 | the visited positions are in range, strictly ascending, hold a child, and include every filled slot; with no nil slot they are 0, 1, ... |
| MarkdownViewMarkupIterator.Iterate | Sources/MarkdownView/MarkupIterator.swift:22-33 | one output per non-nil child, in ascending index order, built from that child and its own index |
| MarkdownViewMarkupIterator.IterateAllFilled | Sources/MarkdownView/MarkupIterator.swift:27-33 | with no nil slot, output i is built from child i and index i |
| MarkdownViewMarkupIterator.IterateCountsChildren | Sources/MarkdownView/MarkupIterator.swift:29-31 | there are as many outputs as non-nil slots: nil children are skipped |
| MarkdownViewMarkupIterator.IterateChildren | Sources/MarkdownView/MarkupIterator.swift:15-20 | the single-argument initializer gives each non-nil child to `content` without its index |
| MarkdownUIListItemContainer.MakeRow | Sources/MarkdownUI/Blocks/List/ListItemContainerView.swift:28-50 | the row's configuration has the child's position, the ambient level and the child's checkbox; ordered lists pass their `startIndex`, unordered lists 0 |
| MarkdownUIListItemContainer.Body | Sources/MarkdownUI/Blocks/List/ListItemContainerView.swift:23-69 | one row per child, in order; padding 10 only when the ambient level is root; nested content sees exactly `level.next()`, one raw value deeper |
| MarkdownUIListItemContainer.DisplayIndices | Sources/MarkdownUI/Blocks/List/ListItemContainerView.swift:89-91 | item i of an ordered list shows `startIndex + i`, of an unordered list i; neighbouring items differ by one |
| MarkdownUIListItemContainer.NestingDepth | Sources/MarkdownUI/Blocks/List/ListItemContainerView.swift:67-68 | a list d levels deep is padded only when d is 0, and its content sees the level d + 1 levels below the root |
| MarkdownUIDefaultUnorderedListIndicatorStyle.MakeBody | Sources/MarkdownUI/Blocks/List/Styles/DefaultUnorderedListIndicatorStyle.swift:15-38 | "•" exactly for `.root`, "◦" exactly for `.indented`, "▪" exactly for `.furtherIndented`, then the checkbox symbol |
| MarkdownUIDefaultUnorderedListIndicatorStyle.IgnoresPosition | Sources/MarkdownUI/Blocks/List/Styles/DefaultUnorderedListIndicatorStyle.swift:15-38 | neither `index` nor `startIndex` changes the indicator |
| MarkdownUIDefaultUnorderedListIndicatorStyle.PatternNotEquality | Sources/MarkdownUI/Blocks/List/Styles/DefaultUnorderedListIndicatorStyle.swift:17-27 | `.furtherIndented(0)` reports `isRoot` and still gets "▪" |
| MarkdownUIDefaultUnorderedListIndicatorStyle.BulletByDepth | Sources/MarkdownUI/Blocks/List/Styles/DefaultUnorderedListIndicatorStyle.swift:17-27 | in a list d levels deep each row shows "•" at depth 0, "◦" at 1, "▪" below, with that item's checkbox symbol |
| MarkdownUIDefaultOrderedListIndicatorStyle.MakeBody | Sources/MarkdownUI/Blocks/List/Styles/DefaultOrderedListIndicatorStyle.swift:15-30 | the label is the decimal text of `displayIndex` followed by ".", then the checkbox symbol |
| MarkdownUIDefaultOrderedListIndicatorStyle.IgnoresLevel | Sources/MarkdownUI/Blocks/List/Styles/DefaultOrderedListIndicatorStyle.swift:15-30 | the list level does not change the indicator |
| MarkdownUIDefaultOrderedListIndicatorStyle.LabelsDistinct | Sources/MarkdownUI/Blocks/List/Styles/DefaultOrderedListIndicatorStyle.swift:17 | items with different numbers get different labels |
| MarkdownUIDefaultOrderedListIndicatorStyle.LabelReadsBack | Sources/MarkdownUI/Blocks/List/Styles/DefaultOrderedListIndicatorStyle.swift:17 | a non-negative number is read back from the digits of its label |
| MarkdownUIDefaultOrderedListIndicatorStyle.ListLabels | Sources/MarkdownUI/Blocks/List/Styles/DefaultOrderedListIndicatorStyle.swift:17 | in a list starting at s, item i is labelled with the digits of s + i and "." |
| MarkdownViewListItemContainer.MakeRow | Sources/MarkdownView/Blocks/List/ListItemContainerView.swift:25-69 | ordered rows get (position, `startIndex`, level), unordered rows the level only; the checkbox symbol and the content follow the child |
| MarkdownViewListItemContainer.Body | Sources/MarkdownView/Blocks/List/ListItemContainerView.swift:23-75 | one row per child, in order; padding 10 only at the root; nested content sees exactly `level.next()`, one raw value deeper |
| MarkdownViewListItemContainer.NestingDepth | Sources/MarkdownView/Blocks/List/ListItemContainerView.swift:73-74 | a list d levels deep is padded only when d is 0, and its content sees `ListLevel(rawValue: d + 1)` |
| MarkdownViewUnorderedListView.Body | Sources/MarkdownView/Blocks/List/UnorderedListView.swift:18-20 | the unordered list is exactly the list container, so every row asks the unordered style with the ambient level |
| MarkdownViewUnorderedListView.MakeBody | Sources/MarkdownView/Blocks/List/UnorderedListView.swift:36-48 | "•" exactly at the root, "◦" exactly at the next level, "▪" exactly for `.more` |
| MarkdownViewUnorderedListView.BulletByDepth | Sources/MarkdownView/Blocks/List/UnorderedListView.swift:36-48 | every row of a list d levels deep shows "•" at depth 0, "◦" at 1, "▪" below |
| MarkdownViewUnorderedListView.SquareAtRawZero | Sources/MarkdownView/Blocks/List/UnorderedListView.swift:44-46 | `.more(-1).next()` reports `isRoot` and still draws "▪" |
| MarkdownViewLegacyUnorderedListView.MakeRow | Sources/MarkdownView/Markdown/UnorderedListView.swift:25-49 | the row shows the level's bullet, the child's checkbox symbol and the child's content |
| MarkdownViewLegacyUnorderedListView.Body | Sources/MarkdownView/Markdown/UnorderedListView.swift:21-58 | one row per non-nil slot, in index order; padding 10 only at the root; nested content sees exactly `level.next()`, one raw value deeper |
| MarkdownViewLegacyUnorderedListView.RowPerChild | Sources/MarkdownView/Markdown/UnorderedListView.swift:23-24 | a parsed list gets exactly one row per child, row i for child i |
| MarkdownViewLegacyUnorderedListView.BulletByDepth | Sources/MarkdownView/Markdown/UnorderedListView.swift:60-69 | the bullet is "•" at depth 0, "◦" at 1 and "▪" below |
| MarkdownViewLegacyOrderedListView.IndexLabel | Sources/MarkdownView/Markdown/OrderedListView.swift:50-54 | the label is digits then "."; the digits read back as `startIndex + offset` |
| MarkdownViewLegacyOrderedListView.IndexLabelInjective | Sources/MarkdownView/Markdown/OrderedListView.swift:50-54 | different offsets give different labels |
| MarkdownViewLegacyOrderedListView.MakeRow | Sources/MarkdownView/Markdown/OrderedListView.swift:24-39 | the row shows the level's prefix, the label of its position, then the child's content |
| MarkdownViewLegacyOrderedListView.Body | Sources/MarkdownView/Markdown/OrderedListView.swift:21-47 | one row per non-nil slot, in index order, labelled by the slot's position; padding only at the root; nested content sees exactly `level.next()`, one raw value deeper |
| MarkdownViewLegacyOrderedListView.ConsecutiveLabels | Sources/MarkdownView/Markdown/OrderedListView.swift:23-24 | in a parsed list row i reads back as `startIndex + i`, whatever numerals the document used |
| TableCommon.ToHorizontal | Sources/MarkdownUI/Blocks/Table/TableConfiguration+Cell.swift:33-44 | left, center and right become leading, center and trailing; no alignment stays none |
| TableCommon.ToHorizontalInjective | Sources/MarkdownUI/Blocks/Table/TableConfiguration+Cell.swift:33-44 | the mapping tells the source alignments apart |
| TableCommon.FanOut | Sources/MarkdownUI/Blocks/Table/TableConfiguration.swift:28-31 | cell i is built with alignment i, and there are as many results as cells; there must be no more cells than columns |
| TableCommon.Separated | Sources/MarkdownUI/Blocks/Table/Styles/DefaultTableStyle.swift:18-28 | the elements in order at even positions, a separator at every odd one, none after the last |
| TableCommon.SeparatorCount | Sources/MarkdownUI/Blocks/Table/Styles/DefaultTableStyle.swift:18-28 | n cells give n − 1 separators, and no cells give none |
| TableCommon.RowItems | Sources/MarkdownUI/Blocks/Table/Styles/DefaultTableStyle.swift:37-47 | each cell is laid out in its column alignment, bold in the header, with a separator after every cell but the last |
| TableCommon.BodyBlocks | Sources/MarkdownUI/Blocks/Table/Styles/DefaultTableStyle.swift:36-54 | every body row is followed by a 0.5 rule |
| TableCommon.Grid | Sources/MarkdownUI/Blocks/Table/Styles/DefaultTableStyle.swift:15-56 | header row, 1-point rule, then each body row and its 0.5 rule, in order |
| TableCommon.RowSeparators | Sources/MarkdownUI/Blocks/Table/Styles/DefaultTableStyle.swift:37-47 | a row's separators follow its own cell count, not the header's |
| TableCommon.GridBelowHeader | Sources/MarkdownUI/Blocks/Table/Styles/DefaultTableStyle.swift:36-54 | below the header rule, even positions are rows and odd positions 0.5 rules |
| TableCommon.OneHeaderRule | Sources/MarkdownUI/Blocks/Table/Styles/DefaultTableStyle.swift:32-34 | exactly one block is the 1-point rule: the one under the header |
| TableCommon.RuleAfterEveryRow | Sources/MarkdownUI/Blocks/Table/Styles/DefaultTableStyle.swift:36-54 | rows and 0.5 rules alternate below the header, and the grid ends with a 0.5 rule when there is a body |
| TableCommon.BoldOnlyInHeader | Sources/MarkdownUI/Blocks/Table/Styles/DefaultTableStyle.swift:19-21 | header cells are bold and body cells are not |
| MarkdownUITableCell.MakeCell | Sources/MarkdownUI/Blocks/Table/TableConfiguration+Cell.swift:20-23 | the cell keeps its content and the given alignment, `.center` when none is given, so it always has one |
| MarkdownUITableCell.HorizontalAlignmentOf | Sources/MarkdownUI/Blocks/Table/TableConfiguration+Cell.swift:33-44 | left, center and right become leading, center and trailing; nil only when the cell has no alignment |
| MarkdownUITableCell.AlignmentOf | Sources/MarkdownUI/Blocks/Table/TableConfiguration+Cell.swift:47-58 | the same mapping into `Alignment` |
| MarkdownUITableCell.ConstructedCellAligned | Sources/MarkdownUI/Blocks/Table/TableConfiguration+Cell.swift:22-58 | a constructed cell always has both alignments, they agree, and an unaligned column is centred |
| MarkdownUITableConfiguration.MakeRow | Sources/MarkdownUI/Blocks/Table/TableConfiguration.swift:35-41 | a body row holds exactly its own cells, cell i with column i's alignment, and is not padded |
| MarkdownUITableConfiguration.FromTable | Sources/MarkdownUI/Blocks/Table/TableConfiguration.swift:25-45 | head cell i gets column i's alignment; one body row per body child |
| MarkdownUITableConfiguration.Count | Sources/MarkdownUI/Blocks/Table/TableConfiguration.swift:48-50 | the column count is the number of head cells |
| MarkdownUITableConfiguration.ColumnsAgree | Sources/MarkdownUI/Blocks/Table/TableConfiguration.swift:33-42 | the head cell and every body cell at position i have the same alignment: column i's, or `.center` |
| MarkdownUITableConfiguration.HeadIgnoresNonCells | Sources/MarkdownUI/Blocks/Table/TableConfiguration.swift:26-31 | a non-cell child of the head is dropped before positions are counted |
| MarkdownUIDefaultTableStyle.ColumnAlignmentOf | Sources/MarkdownUI/Blocks/Table/Styles/DefaultTableStyle.swift:22 | the cell's horizontal alignment, or leading when it has none |
| MarkdownUIDefaultTableStyle.MakeBody | Sources/MarkdownUI/Blocks/Table/Styles/DefaultTableStyle.swift:15-56 | the bold header row, the 1-point rule, then each body row with its 0.5 rule |
| MarkdownUIDefaultTableStyle.NoLeadingFallback | Sources/MarkdownUI/Blocks/Table/Styles/DefaultTableStyle.swift:41 | for a table built from a document the leading fallback is never taken: each column uses its delimiter's alignment, centred when it has none |
| MarkdownUILegacyTableView.MakeCell | Sources/MarkdownUI/Blocks/TableView.swift:53-56 | the cell keeps its content and the given alignment, `.center` when none is given |
| MarkdownUILegacyTableView.RowId | Sources/MarkdownUI/Blocks/TableView.swift:79-81 | an empty row has the empty id; a one-cell row has its cell's id |
| MarkdownUILegacyTableView.RowIdConcatenates | Sources/MarkdownUI/Blocks/TableView.swift:79-81 | the id of two runs of cells is their ids joined in order |
| MarkdownUILegacyTableView.RowIdsCollide | Sources/MarkdownUI/Blocks/TableView.swift:63-81 | ids are not unique: a row with the cell "ab" and a row with cells "a" and "b" differ but share the id "ab" |
| MarkdownUILegacyTableView.MappedAlignments | Sources/MarkdownUI/Blocks/TableView.swift:90-101 | each delimiter alignment is mapped to leading, center, trailing or nil before it is fanned out |
| MarkdownUILegacyTableView.MakeRow | Sources/MarkdownUI/Blocks/TableView.swift:110-119 | a body row holds exactly its own cells, cell i with mapped alignment i |
| MarkdownUILegacyTableView.FromTable | Sources/MarkdownUI/Blocks/TableView.swift:89-122 | head cell i gets mapped alignment i; one body row per body child |
| MarkdownUILegacyTableView.Count | Sources/MarkdownUI/Blocks/TableView.swift:125-127 | the column count is the number of head cells |
| MarkdownUILegacyTableView.ColumnsAgree | Sources/MarkdownUI/Blocks/TableView.swift:103-119 | column i of the head and of every body row has the same alignment: centred without a delimiter alignment, leading for left, trailing for right |
| MarkdownUILegacyTableView.MakeBody | Sources/MarkdownUI/Blocks/TableView.swift:135-176 | the same grid as the later default style, in each cell's own alignment |
| MarkdownViewTable.MakeCell | Sources/MarkdownView/Model/Table.swift:62-65 | the cell keeps its content and the given alignment, `.center` when none is given |
| MarkdownViewTable.RowId | Sources/MarkdownView/Model/Table.swift:79-81 | a one-cell row has its cell's id |
| MarkdownViewTable.RowIdConcatenates | Sources/MarkdownView/Model/Table.swift:79-81 | the id of two runs of cells is their ids joined in order |
| MarkdownViewTable.FirstCellPrefix | Sources/MarkdownView/Model/Table.swift:79-81 | a row's id starts with its first cell's id |
| MarkdownViewTable.MappedAlignments | Sources/MarkdownView/Model/Table.swift:22-33 | each delimiter alignment is mapped to leading, center, trailing or nil |
| MarkdownViewTable.MakeRow | Sources/MarkdownView/Model/Table.swift:42-51 | each body row on its own: cell i gets mapped alignment i, and short rows stay short |
| MarkdownViewTable.FromTable | Sources/MarkdownView/Model/Table.swift:21-54 | head cell i gets mapped alignment i; one body row per body child |
| MarkdownViewTable.ColumnsAgree | Sources/MarkdownView/Model/Table.swift:35-51 | column i of the head and of every body row has the same alignment, centred when the delimiter has none |
| ImageSource.ImageUrl | Sources/MarkdownUI/ImageManager.swift:83-87 | an image without a source, or whose source does not parse, has no URL; otherwise its URL is the parsed source; the same extension is repeated at Sources/MarkdownView/ImageManager.swift:83-87 and Sources/MarkdownView/ImageHandler.swift:58-63 |
| MarkdownUIImageManager.Initial | Sources/MarkdownUI/ImageManager.swift:29-39 | a new manager has no requests and satisfies the invariant |
| MarkdownUIImageManager.ImageFor | Sources/MarkdownUI/ImageManager.swift:41-72 | no URL fails with `.noURL`; a cache hit answers the decoded, scaled image whatever the state; on a miss a failed URL fails, a loading URL answers nil, and an unknown URL starts exactly one fetch and answers nil; only a fresh fetch changes the state |
| MarkdownUIImageManager.Completion | Sources/MarkdownUI/ImageManager.swift:57-67 | a fetch that returns removes its URL's entry; one that throws marks it `.failed`; the task is finished |
| MarkdownUIImageManager.ImageForKeepsValid | Sources/MarkdownUI/ImageManager.swift:41-72 | a lookup keeps the invariant, starts at most one task, for the requested URL, and leaves every other URL's entry alone |
| MarkdownUIImageManager.CompletionKeepsValid | Sources/MarkdownUI/ImageManager.swift:57-67 | a completion keeps the invariant and changes only its own URL's entry |
| MarkdownUIImageManager.OneFetchPerUrl | Sources/MarkdownUI/ImageManager.swift:49-69 | in a valid state two running tasks never fetch the same URL |
| MarkdownUIImageManager.SecondLookupStartsNothing | Sources/MarkdownUI/ImageManager.swift:53-55 | asking twice for an uncached URL starts one fetch; the second lookup changes nothing |
| MarkdownUIImageManager.FailureIsSticky | Sources/MarkdownUI/ImageManager.swift:49-65 | once a URL is failed, later lookups and completions keep it failed, and a cache miss keeps answering `.failure(.failure)` |
| MarkdownUIImageManager.ImageManager.constructor | Sources/MarkdownUI/ImageManager.swift:29-39 | the object starts in the initial state, which satisfies the invariant |
| MarkdownUIImageManager.ImageManager.Image | Sources/MarkdownUI/ImageManager.swift:41-72 | the answer and the new fields are those of `ImageFor` on the old fields; the invariant is kept |
| MarkdownUIImageManager.ImageManager.Complete | Sources/MarkdownUI/ImageManager.swift:57-67 | the new fields are those of `Completion` on the old fields; the invariant is kept |
| MarkdownViewImageManager.ScaleIdentifier | Sources/MarkdownView/ImageManager.swift:59-61 | the identifier is the fixed prefix followed by the scale's description |
| MarkdownViewImageManager.ScaleIdentifierInjective | Sources/MarkdownView/ImageManager.swift:59-61 | different scale descriptions give different identifiers |
| MarkdownViewImageManager.RequestFor | Sources/MarkdownView/ImageManager.swift:33 | the cache key is the URL with the one scale processor |
| MarkdownViewImageManager.ScalesAreDistinctKeys | Sources/MarkdownView/ImageManager.swift:33-35 | the same URL at two differently described scales gives two cache keys |
| MarkdownViewImageManager.ImageFor | Sources/MarkdownView/ImageManager.swift:28-46 | no URL fails with `.noURL`; a hit answers the cached image and changes nothing; every miss starts a fetch, overwrites the URL's entry and answers nil |
| MarkdownViewImageManager.Completion | Sources/MarkdownView/ImageManager.swift:38-42 | any completion removes its URL's entry; no failure is recorded |
| MarkdownViewImageManager.StepsKeepValid | Sources/MarkdownView/ImageManager.swift:28-46 | lookups and completions keep every entry pointing at the newest task of its URL |
| MarkdownViewImageManager.EveryMissFetches | Sources/MarkdownView/ImageManager.swift:36-45 | n lookups of an uncached URL start n fetches, and the entry names the last one |
| MarkdownViewImageManager.StaleCompletionClears | Sources/MarkdownView/ImageManager.swift:38-43 | when an overwritten, older fetch ends, it clears the entry of the newer fetch still running |
| MarkdownViewImageManager.ImageManager.constructor | Sources/MarkdownView/ImageManager.swift:23-26 | the object starts with no entries and no tasks, which satisfies the invariant |
| MarkdownViewImageManager.ImageManager.Image | Sources/MarkdownView/ImageManager.swift:28-46 | the answer and the new fields are those of `ImageFor` on the old fields; the invariant is kept |
| MarkdownViewImageManager.ImageManager.Complete | Sources/MarkdownView/ImageManager.swift:38-42 | the new fields are those of `Completion` on the old fields; the invariant is kept |
| MarkdownViewImageHandler.Assign | Sources/MarkdownView/ImageHandler.swift:25-29 | assigning `loadingTasks` stores it and raises the version by one |
| MarkdownViewImageHandler.ImageFor | Sources/MarkdownView/ImageHandler.swift:32-51 | no URL shows "photo.badge.exclamationmark"; a hit shows the cached image and changes nothing; a miss starts a fetch, stores it, raises the version and shows "photo.badge.arrow.down" |
| MarkdownViewImageHandler.ScaleIgnored | Sources/MarkdownView/ImageHandler.swift:32-37 | the scale changes neither the answer nor the new state |
| MarkdownViewImageHandler.Completion | Sources/MarkdownView/ImageHandler.swift:43-46 | a completion removes its URL's entry and raises the version |
| MarkdownViewImageHandler.VersionTracksAssignments | Sources/MarkdownView/ImageHandler.swift:25-50 | a lookup changes the version exactly when it changes the state, and that is exactly when it starts a fetch |
| MarkdownViewImageHandler.ImageHandler.constructor | Sources/MarkdownView/ImageHandler.swift:20-30 | the object starts with no entries, and the sink has fired once for the initial value |
| MarkdownViewImageHandler.ImageHandler.Image | Sources/MarkdownView/ImageHandler.swift:32-51 | the answer and the new fields are those of `ImageFor` on the old fields |
| MarkdownViewImageHandler.ImageHandler.Complete | Sources/MarkdownView/ImageHandler.swift:43-46 | the new fields are those of `Completion` on the old fields |
| MarkdownUITextExtensions.TextMarkdown | Sources/MarkdownUI/Extensions/Text+Extensions.swift:13-37 | a parse failure shows the markdown verbatim; without a url the parsed text is used as it is; with a url every run is the parsed run with its link replaced by the url; the earlier Sources/MarkdownView/Extensions/Text+Extensions.swift:11-27 is the case without a url |
| MarkdownUITextExtensions.UrlOverridesLinks | Sources/MarkdownUI/Extensions/Text+Extensions.swift:26-30 | with a url every run links to it, whatever links the markdown held, and the shown characters are unchanged |
| MarkdownUITextExtensions.TextImage | Sources/MarkdownUI/Extensions/Text+Extensions.swift:39-45 | one embedded image: the "photo.badge.arrow.down" symbol exactly when there is no image, otherwise the image |
| MarkdownUITextExtensions.JoinedFromIsConcat | Sources/MarkdownUI/Extensions/Text+Extensions.swift:58-64 | the fold appends the texts after the accumulator, in order |
| MarkdownUITextExtensions.JoinedIsConcat | Sources/MarkdownUI/Extensions/Text+Extensions.swift:58-64 | `joined()` is the in-order concatenation of the texts |
| MarkdownUITextExtensions.JoinedLaws | Sources/MarkdownUI/Extensions/Text+Extensions.swift:58-64 | `joined()` of nothing is the empty text, of one text that text, and it splits over concatenation of the list |
| MarkdownUIInlineContainer.Span | Sources/MarkdownUI/Blocks/InlineContainerView.swift:33-69 | text and breaks show their plain text; inline code shows its code, monospaced and tagged; strong, emphasis and strikethrough style their rendered children; an image shows the lookup's image or the failure symbol; a link with a destination is reparsed with the url attached, one without shows its plain text; any other kind is dropped exactly when `format()` is empty and otherwise reparsed |
| MarkdownUIInlineContainer.Spans | Sources/MarkdownUI/Blocks/InlineContainerView.swift:32-70 | each child contributes at most one span |
| MarkdownUIInlineContainer.SpansAppend | Sources/MarkdownUI/Blocks/InlineContainerView.swift:32-70 | the spans of a concatenation of children are the spans of each part |
| MarkdownUIInlineContainer.RenderAppend | Sources/MarkdownUI/Blocks/InlineContainerView.swift:31-72 | the rendered text is the in-order concatenation of the parts, and no children render to the empty text |
| MarkdownUIInlineContainer.RenderOne | Sources/MarkdownUI/Blocks/InlineContainerView.swift:31-72 | one child renders to its span, or to nothing when it is dropped |
| MarkdownUIInlineContainer.EmptyFallbackDropped | Sources/MarkdownUI/Blocks/InlineContainerView.swift:65-68 | removing a default-kind child with an empty `format()` does not change the result |
| MarkdownUIInlineContainer.StrongIsBoldThroughout | Sources/MarkdownUI/Blocks/InlineContainerView.swift:44-45 | every run inside a strong node is bold, however deep, and it shows what its children show |
| MarkdownUIInlineContainer.TextsShowPlainText | Sources/MarkdownUI/Blocks/InlineContainerView.swift:35-36 | a run of text nodes shows exactly their plain texts, one after the other |
| MarkdownViewInlineContainer.RemoveTildes | Sources/MarkdownView/Markdown/InlineContainerView.swift:33 | the result has no "~", keeps every other character of the input and adds none |
| MarkdownViewInlineContainer.RemoveTildesKeepsOthers | Sources/MarkdownView/Markdown/InlineContainerView.swift:33 | a string without "~" is unchanged, so the removal is idempotent |
| MarkdownViewInlineContainer.RemoveTildesAppend | Sources/MarkdownView/Markdown/InlineContainerView.swift:33 | the removal works piecewise, so the text between tildes keeps its order |
| MarkdownViewInlineContainer.RemoveTildesExample | Sources/MarkdownView/Markdown/InlineContainerView.swift:32-33 | "~~x~~" is shown as "x" |
| MarkdownViewInlineContainer.Span | Sources/MarkdownView/Markdown/InlineContainerView.swift:25-51 | text and breaks show their plain text; strong and emphasis make the whole plain text bold or italic; strikethrough strikes the plain text without "~"; inline code is monospaced and not tagged; an image shows the lookup's image or the failure symbol; every other kind, links included, is dropped exactly when `format()` is empty and otherwise reparsed |
| MarkdownViewInlineContainer.Spans | Sources/MarkdownView/Markdown/InlineContainerView.swift:24-52 | each child contributes at most one span |
| MarkdownViewInlineContainer.SpansAppend | Sources/MarkdownView/Markdown/InlineContainerView.swift:24-52 | the spans of a concatenation of children are the spans of each part |
| MarkdownViewInlineContainer.BodyIsConcat | Sources/MarkdownView/Markdown/InlineContainerView.swift:22-56 | the left fold from the empty text is the in-order concatenation of the spans |
| MarkdownViewInlineContainer.StrongIsFlat | Sources/MarkdownView/Markdown/InlineContainerView.swift:28-29 | a strong node's span depends only on its plain text and is at most one run |
| MarkdownViewInlineContainer.LinkFallsBack | Sources/MarkdownView/Markdown/InlineContainerView.swift:47-50 | a link gets the `format()` fallback, with no url attached |
| MarkdownViewMarkupView.Dispatch | Sources/MarkdownView/Blocks/MarkupView.swift:20-55 | each block kind gets its own view, exactly; strong, emphasis, strikethrough, image and paragraph get an inline container, with bold, italic, strikethrough or no style; text and breaks show their plain text; inline code is monospaced; every other kind gets `Text(markdown: format())` |
| MarkdownViewMarkupView.DispatchKeepsNode | Sources/MarkdownView/Blocks/MarkupView.swift:21-52 | two children that become the same node-holding view are the same child |
| MarkdownViewMarkupView.EmptyFallbackKept | Sources/MarkdownView/Blocks/MarkupView.swift:53-54 | a child with an empty `format()` still gets a view: there is no empty-string guard |
| MarkdownViewMarkupView.Body | Sources/MarkdownView/Blocks/MarkupView.swift:18-57 | one view per child, view i the dispatch of child i |
| MarkdownViewLegacyMarkupView.Dispatch | Sources/MarkdownView/Markdown/MarkupView.swift:21-56 | an image shows its plain text; a table gets the table view; a paragraph gets an inline container; other kinds get `Text(markdown: format())` |
| MarkdownViewLegacyMarkupView.AgreesExceptImages | Sources/MarkdownView/Markdown/MarkupView.swift:42-43 | every kind but the image becomes the same view as in the later dispatch; an image is never looked up |
| MarkdownViewLegacyMarkupView.Body | Sources/MarkdownView/Markdown/MarkupView.swift:18-78 | one view per non-nil slot, in index order, as the file's own iterator visits them |
| MarkdownViewLegacyMarkupView.BodyOfParsedNode | Sources/MarkdownView/Markdown/MarkupView.swift:19-20 | a parsed node gets one view per child, view i for child i |
| MarkdownUICodeBlockStyle.FromCodeBlock | Sources/MarkdownUI/Blocks/CodeBlock/CodeBlockStyle.swift:17-19 | the configuration holds the block's code and info string |
| MarkdownUICodeBlockStyle.Code | Sources/MarkdownUI/Blocks/CodeBlock/CodeBlockStyle.swift:21-26 | with a final "\n" the code plus "\n" is the source, otherwise the source is unchanged; the code is a prefix of the source at most one shorter; the older copy is at Sources/MarkdownUI/Blocks/CodeBlockView.swift:55-60 |
| MarkdownUICodeBlockStyle.Language | Sources/MarkdownUI/Blocks/CodeBlock/CodeBlockStyle.swift:28-30 | the info string is passed on as it is, nil when there is none; the older copy is at Sources/MarkdownUI/Blocks/CodeBlockView.swift:62-64 |
| MarkdownUICodeBlockStyle.CodeDropsAppendedNewline | Sources/MarkdownUI/Blocks/CodeBlock/CodeBlockStyle.swift:21-26 | adding one newline and dropping it gives the code back |
| MarkdownUICodeBlockStyle.OnlyOneNewlineDropped | Sources/MarkdownUI/Blocks/CodeBlock/CodeBlockStyle.swift:25 | "x\n\n" becomes "x\n", which still ends with a newline |
| MarkdownUILegacyCodeBlockView.LanguageFor | Sources/MarkdownUI/Blocks/CodeBlockView.swift:91-96 | no info string means plain text; otherwise the lookup of the name |
| MarkdownUILegacyCodeBlockView.NoLanguageOnlyForUnknownNames | Sources/MarkdownUI/Blocks/CodeBlockView.swift:91-96 | a code block gets no language exactly when its fence names one the lookup does not know |
| MarkdownUIFonts.DefaultFonts | Sources/MarkdownUI/Model/Fonts.swift:37 | the default map holds body and code only: `.body` and `.callout` |
| MarkdownUIFonts.OverriddenEntries | Sources/MarkdownUI/Model/Fonts.swift:25-31 | each listed type gets the font, or loses its entry for nil; every other type keeps its entry |
| MarkdownUIFonts.OverriddenIgnoresOrder | Sources/MarkdownUI/Model/Fonts.swift:25-31 | the order and repetition of the listed types do not matter |
| MarkdownUIFonts.MarkdownFont | Sources/MarkdownUI/Model/Fonts.swift:25-31 | the loop of assignments into the dictionary yields the override of all listed types |
| MarkdownUIFonts.OverriddenStep | Sources/MarkdownUI/Model/Fonts.swift:27-29 | one more assignment extends the override by one type |
| MarkdownUIFonts.HeadingSize | Sources/MarkdownUI/Model/Fonts.swift:69-74 | level 1 is 28 points and level 6 is 18 |
| MarkdownUIFonts.HeadingSizeDecreasing | Sources/MarkdownUI/Model/Fonts.swift:69-74 | each deeper level is at least 2 points smaller |
| MarkdownUIFonts.Resolve | Sources/MarkdownUI/Model/Fonts.swift:64-81 | an entry for the type always wins; otherwise the computed default |
| MarkdownUIFonts.DefaultsAreComputed | Sources/MarkdownUI/Model/Fonts.swift:37-79 | with no override every type gets its computed default; a heading of level l gets 30 − 2·l points, semibold |
| MarkdownUIFonts.OverrideThenResolve | Sources/MarkdownUI/Model/Fonts.swift:25-66 | after an override a listed type resolves to the new font; removing it brings back the computed default |
| MarkdownUIFonts.OverrideLeavesOthers | Sources/MarkdownUI/Model/Fonts.swift:25-31 | an override does not change the font of an unlisted type |
| MarkdownUIFonts.HeadingSizeUnclamped | Sources/MarkdownUI/Model/Fonts.swift:69-74 | levels are not clamped: level 16 asks for −2 points and level 0 for 30 |
| MarkdownUIDividerHeadingStyle.UpTo | Sources/MarkdownUI/Blocks/Heading/Styles/DividerHeadingStyle.swift:34-36 | `divider(upTo: n)` stores n as the threshold; the older copy is at Sources/MarkdownUI/Blocks/HeadingView.swift:103-105 |
| MarkdownUIDividerHeadingStyle.Divider | Sources/MarkdownUI/Blocks/Heading/Styles/DividerHeadingStyle.swift:30-32 | `.divider` has threshold 2; the older copy is at Sources/MarkdownUI/Blocks/HeadingView.swift:99-101 |
| MarkdownUIDividerHeadingStyle.MakeBody | Sources/MarkdownUI/Blocks/Heading/Styles/DividerHeadingStyle.swift:17-26 | the content comes first; a divider follows it exactly when the heading level is at most the threshold; the older copy is at Sources/MarkdownUI/Blocks/HeadingView.swift:86-95 |
| MarkdownUIDividerHeadingStyle.DividerUnderlinesTopTwo | Sources/MarkdownUI/Blocks/Heading/Styles/DividerHeadingStyle.swift:21-32 | `.divider` underlines levels 1 and 2 only |
| MarkdownUIDividerHeadingStyle.UnderlinedLevelsAreDownwardClosed | Sources/MarkdownUI/Blocks/Heading/Styles/DividerHeadingStyle.swift:21-24 | if a level is underlined, so is every higher-ranking level |
| MarkdownUIDividerHeadingStyle.ThresholdsDiffer | Sources/MarkdownUI/Blocks/Heading/Styles/DividerHeadingStyle.swift:21-24 | two thresholds are told apart by the heading at the larger one |
| MarkdownUILegacyHeadingView.Level | Sources/MarkdownUI/Blocks/HeadingView.swift:56-58 | the configuration's level is the parsed heading's level |
| MarkdownUILegacyHeadingView.DefaultStyle | Sources/MarkdownUI/Blocks/HeadingView.swift:117 | the ambient heading style is `DefaultHeadingStyle` |
| MarkdownUILegacyHeadingView.MakeBody | Sources/MarkdownUI/Blocks/HeadingView.swift:61-96 | the content comes first; the default style shows it alone; the divider style adds a divider exactly when the level is at most its threshold |
| MarkdownUILegacyHeadingView.DefaultIsDividerUpToZero | Sources/MarkdownUI/Blocks/HeadingView.swift:61-96 | for every level from 1 on, the default style draws what a divider style with threshold 0 draws |
| MarkdownUILegacyHeadingView.Body | Sources/MarkdownUI/Blocks/HeadingView.swift:20-23 | the heading is set in the font type for its level, around what the chosen style makes for that level; the default style never draws a divider |
| MarkdownUILegacyHeadingView.HeadingFontResolves | Sources/MarkdownUI/Blocks/HeadingView.swift:20-23 | with no override a heading gets 28 − 2·(level − 1) points, semibold; an override for its level wins |
| MarkdownViewHeadingView.Factor | Sources/MarkdownView/Blocks/HeadingView.swift:41-48 | the factor lies in [0, 6]: level − 1 for levels 1 to 6, otherwise 6 |
| MarkdownViewHeadingView.Sizes | Sources/MarkdownView/Blocks/HeadingView.swift:41-56 | level 1 is 28 points, level 6 is 18, every other level 16; sizes lie in [16, 28] |
| MarkdownViewHeadingView.SizeNonIncreasing | Sources/MarkdownView/Blocks/HeadingView.swift:41-56 | from level 1 to 6 a deeper heading is never larger |
| MarkdownViewHeadingView.DefaultBody | Sources/MarkdownView/Blocks/HeadingView.swift:85-92 | the default style shows the content only, bold, in the heading font |
| MarkdownViewHeadingView.DividerBody | Sources/MarkdownView/Blocks/HeadingView.swift:108-119 | the divider style shows the same content and a divider up to its threshold |
| MarkdownViewHeadingView.DividerExtendsDefault | Sources/MarkdownView/Blocks/HeadingView.swift:85-119 | the divider style adds the divider to what the default style shows, at levels up to its threshold |
| MarkdownViewLegacyHeadingView.Font | Sources/MarkdownView/Markdown/HeadingView.swift:32-47 | a semibold system font of 30 − 2·level points for levels 1 to 6 |
| MarkdownViewLegacyHeadingView.OutOfRangeSameSize | Sources/MarkdownView/Markdown/HeadingView.swift:36-38 | every level outside 1 to 6 gets one fixed font |
| MarkdownViewLegacyHeadingView.AgreesWithFontsUpToSeven | Sources/MarkdownView/Markdown/HeadingView.swift:32-47 | matches the later default heading font exactly for levels 1 to 7 |
| MarkdownUIOptionSet.InUnion | Sources/MarkdownUI/Extensions/OptionSet+Extensions.swift:12-16 | an option is in the union exactly when some listed set contains it |
| MarkdownUIOptionSet.UnionIgnoresOrder | Sources/MarkdownUI/Extensions/OptionSet+Extensions.swift:13-15 | the union depends only on which sets are listed, not on their order or repetition |
| MarkdownUIOptionSet.JoinedValue | Sources/MarkdownUI/Extensions/OptionSet+Extensions.swift:11-17 | nil exactly for an empty list; a one-element list joins to its element |
| MarkdownUIOptionSet.Joined | Sources/MarkdownUI/Extensions/OptionSet+Extensions.swift:11-17 | the loop from the first set, adding each later one, yields nil or the union of all sets |
| MarkdownUIInlineImageAdapter.ReplaceWithSymbol | Sources/MarkdownUI/Adapters/InlineImageAdapter.swift:39-41 | the mode replaces images with the system symbol of that name |
| MarkdownUIInlineImageAdapter.ReplaceWithSymbolInjective | Sources/MarkdownUI/Adapters/InlineImageAdapter.swift:39-41 | different symbol names give different modes |
| MarkdownUIInlineImageAdapter.DefaultMode | Sources/MarkdownUI/Adapters/InlineImageAdapter.swift:43 | the default mode renders images |
| MarkdownUIInlineImageAdapter.RawValueInjective | Sources/MarkdownUI/Adapters/InlineImageAdapter.swift:47-57 | the raw value determines the option set |
| MarkdownUIInlineImageAdapter.OptionRawValues | Sources/MarkdownUI/Adapters/InlineImageAdapter.swift:55-57 | `display` is 1 and `scaledToFit` is 2 |
| MarkdownUIInlineImageAdapter.DefaultScale | Sources/MarkdownUI/Adapters/InlineImageAdapter.swift:59 | the default scale holds both options, raw value 3 |
| MarkdownUIInlineImageAdapter.ImageScale | Sources/MarkdownUI/Adapters/InlineImageAdapter.swift:22-26 | no arguments give the default; otherwise an option is in the result exactly when some argument holds it |
| MarkdownUIInlineImageAdapter.EmptyOptionIsNotDefault | Sources/MarkdownUI/Adapters/InlineImageAdapter.swift:22-26 | passing the empty option set gives no options, unlike passing nothing |
| MarkdownUIInlineImageAdapter.DefaultEnvironment | Sources/MarkdownUI/Adapters/InlineImageAdapter.swift:64-67 | the ambient defaults are the render mode and the default scale |

## Left out

- MarkdownUIListLevel.Next, MarkdownViewListLevel.Next, MarkdownUIListItemContainer.DisplayIndex and MarkdownViewLegacyOrderedListView.IndexLabel: integers are unbounded, so Swift's overflow traps are not modelled (`rawValue + 1` at `Int.max`, `.more(value + 1)`, `Int(startIndex) + index`, `startIndex + UInt(offset)`); where Swift would trap, the model returns the mathematical value. List start numbers in CommonMark have at most nine digits, so a parsed document does not reach these limits.
- SwiftUI layout and styling are not modelled: padding amounts other than the lists' vertical padding, colours, stacks, `AnyView` and previews. The environment plumbing is not modelled either; ambient values are parameters.
- Drawing is not modelled: `MarkdownTextRenderer`, the `TextRenderer` and `CGRect` extensions, and the image resizing in `Image+Extensions.swift`.
- `@ScaledMetric` is not modelled: heading sizes use the base values 28 and 2 as integers, with no Dynamic Type scaling and no `CGFloat`.
- Networking, caching and concurrency are not modelled: `URLSession`, `URLCache`, Nuke's pipeline, `Task`, `[weak self]`, Combine and Observation. The caches are parameters. A fetch is a task recorded in the state, and its completion is a separate call made later on the same object.
- swift-markdown, `AttributedString(markdown:)`, `URL(string:)` and HighlightJS are parameters. Parsing and their behaviour are not modelled.
- The UUID ids of the MarkdownUI table cells and rows are not modelled, so the model does not state that two cells with the same text stay distinct.
- `MarkdownViewImageHandler.Handler`: `uuid` is a version counter that is raised by one on every assignment to `loadingTasks`, not a random UUID.
- Strings are sequences of abstract characters. A "\r\n" pair, which Swift counts as one character, is not modelled, and neither is any other grapheme-cluster behaviour.
- The whitespace trimming in the MarkdownView code block views is not modelled.
- The MarkdownUI `MarkupIterator` is not part of this model. The MarkdownUI list container uses the MarkdownView iterator in its place.
- `listLevel.prefix` (MarkdownView oldest ordered list) is not part of this model. A row records the level whose prefix it shows.
- `MarkdownUIInlineImageAdapter.RawValue`: `MarkdownImageScale(rawValue:)` with bits other than 0 and 1 is not modelled; a scale is the set of its two options.
- `MarkdownViewImageManager.ScaleIdentifier`: the scale's description is given as text, because `"\(scale)"` of a `CGFloat` is not modelled.
- Files with no behaviour to state are not modelled: `Logger.swift`, `Typealiases.swift`, `Package.swift`, `View+Extensions.swift`, `EnumeratedForEach.swift`, `TableConfiguration+Row.swift`, the delegating views and the style protocol files.
- `MarkdownUIInlineContainer.Span` and `MarkdownViewInlineContainer.Span`: the image symbol's `.symbolRenderingMode(.multicolor)` is not modelled.
- `MarkdownUIFonts.HeadingSize`: `Font.system` with a negative size is not constrained; the model only states that the size is computed without clamping.
