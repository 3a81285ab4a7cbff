/**
 * Sources/MarkdownUI/Adapters/InlineImageAdapter.swift: how inline images are shown
 * (rendered, replaced by their text, or replaced by another image) and scaled.
 */
module MarkdownUIInlineImageAdapter {
  import opened Common
  import opened SwiftUI
  import O = MarkdownUIOptionSet

  /** `MarkdownImageMode` */
  datatype MarkdownImageMode = Render | ReplaceWithText | ReplaceWithImage(image: Image)

  /** `replaceWithSymbol(systemName:)` */
  function ReplaceWithSymbol(systemName: string): (m: MarkdownImageMode)
    ensures m.ReplaceWithImage? && m.image.SystemImage? && m.image.name == systemName
  {
    ReplaceWithImage(SystemImage(systemName))
  }

  /** Different symbol names give different modes. */
  lemma ReplaceWithSymbolInjective(a: string, b: string)
    requires ReplaceWithSymbol(a) == ReplaceWithSymbol(b)
    ensures a == b
  {
  }

  /** `MarkdownImageMode.default` */
  function DefaultMode(): (m: MarkdownImageMode)
    ensures m == Render
  {
    Render
  }

  /** The two options of `MarkdownImageScale`. */
  datatype ScaleOption = Display | ScaledToFit

  type MarkdownImageScale = set<ScaleOption>

  /** `rawValue`: `display` is bit 0, `scaledToFit` bit 1. */
  function RawValue(s: MarkdownImageScale): int {
    (if Display in s then 1 else 0) + (if ScaledToFit in s then 2 else 0)
  }

  /** The raw values 0 to 3 and the four option sets correspond one to one. */
  lemma RawValueInjective(a: MarkdownImageScale, b: MarkdownImageScale)
    requires RawValue(a) == RawValue(b)
    ensures a == b
  {
    forall o: ScaleOption ensures o in a <==> o in b {
      match o
      case Display =>
      case ScaledToFit =>
    }
  }

  /** `.display` and `.scaledToFit` */
  lemma OptionRawValues()
    ensures RawValue({Display}) == 1 && RawValue({ScaledToFit}) == 2
  {
  }

  /** `MarkdownImageScale.default`: both options, raw value 3. */
  function DefaultScale(): (s: MarkdownImageScale)
    ensures RawValue(s) == 3
    ensures Display in s && ScaledToFit in s
  {
    {Display, ScaledToFit}
  }

  /** `markdownImageScale(_:)`: the union of the arguments, or the default when there are none. */
  function ImageScale(scales: seq<MarkdownImageScale>): (s: MarkdownImageScale)
    ensures scales == [] ==> s == DefaultScale()
    ensures forall o :: o in s <==> (if scales == [] then o in DefaultScale() else exists i :: 0 <= i < |scales| && o in scales[i])
  {
    forall o ensures o in O.Union(scales) <==> exists i :: 0 <= i < |scales| && o in scales[i] {
      O.InUnion(scales, o);
    }
    O.JoinedValue(scales).GetOr(DefaultScale())
  }

  /** Asking for no option explicitly is not asking for none: `markdownImageScale([])` scales by neither. */
  lemma EmptyOptionIsNotDefault()
    ensures ImageScale([{}]) == {} && ImageScale([]) == DefaultScale()
  {
  }

  /** The environment's `markdownImageMode` and `markdownImageScale` before any modifier. */
  datatype ImageEnvironment = ImageEnvironment(mode: MarkdownImageMode, scale: MarkdownImageScale)

  function DefaultEnvironment(): (e: ImageEnvironment)
    ensures e.mode == Render && RawValue(e.scale) == 3
  {
    ImageEnvironment(DefaultMode(), DefaultScale())
  }
}
