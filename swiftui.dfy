/**
 * The values of the UI toolkit that the core produces: alignments, fonts, images
 * and styled text. Layout, colour and drawing are not modelled.
 */
module SwiftUI {
  import opened Common

  /** Foundation's `URL`, known by its absolute string. */
  datatype Url = Url(absoluteString: string)

  /** A decoded `UIImage`/`NSImage`, known by an opaque handle. */
  datatype PlatformImage = PlatformImage(handle: nat)

  /** SwiftUI's `Image`: a named system symbol or a platform image. */
  datatype Image = SystemImage(name: string) | Picture(image: PlatformImage)

  /** SwiftUI's `HorizontalAlignment`. */
  datatype HorizontalAlignment = Leading | Center | Trailing

  /**
   * SwiftUI's `Alignment`. The core only uses `.leading`, `.center` and `.trailing`,
   * which all centre vertically, so only the horizontal part is kept.
   */
  datatype Alignment = Alignment(horizontal: HorizontalAlignment)

  /** Font weights the core asks for. */
  datatype Weight = Regular | Semibold

  /** SwiftUI's `Font`: the text styles `.body` and `.callout`, or a system font of a size. */
  datatype Font = Body | Callout | System(size: int, weight: Weight)

  /** What one run of a `Text` shows: characters, or an image interpolated into it. */
  datatype Content = Characters(chars: string) | Embedded(image: Image)

  /**
   * One run of styled text. `inlineCode` is the `InlineCodeAttribute` custom
   * attribute; `link` is the run's link attribute.
   */
  datatype Run = Run(content: Content, bold: bool, italic: bool, strikethrough: bool,
                     monospaced: bool, inlineCode: bool, link: Option<Url>)

  /**
   * A SwiftUI `Text`, as the sequence of runs it shows. A run with no characters
   * shows nothing and is left out, so `Verbatim("")` is the unit of `+`.
   */
  type Text = seq<Run>

  /**
   * An `AttributedString`, as the runs a `Text` made from it shows; `Text(_:)` of an
   * attributed string is therefore the identity on this representation.
   */
  type AttributedString = seq<Run>

  function PlainRun(c: Content): Run {
    Run(c, false, false, false, false, false, None)
  }

  /** `Text(verbatim: s)` */
  function Verbatim(s: string): (t: Text)
    ensures s == [] ==> t == []
    ensures s != [] ==> t == [PlainRun(Characters(s))]
  {
    if s == [] then [] else [PlainRun(Characters(s))]
  }

  /** `Text("\(image)")` */
  function Embed(image: Image): (t: Text)
    ensures t == [PlainRun(Embedded(image))]
  {
    [PlainRun(Embedded(image))]
  }

  /** Applies a run modifier to every run of a text. */
  function MapRuns(t: Text, f: Run -> Run): (r: Text)
    ensures |r| == |t|
    ensures forall i :: 0 <= i < |t| ==> r[i] == f(t[i])
  {
    seq(|t|, i requires 0 <= i < |t| => f(t[i]))
  }

  /** A modifier applied to a concatenation applies to each part. */
  lemma MapRunsConcat(a: Text, b: Text, f: Run -> Run)
    ensures MapRuns(a + b, f) == MapRuns(a, f) + MapRuns(b, f)
  {
  }

  /** `.bold()` */
  function Bold(t: Text): Text { MapRuns(t, (r: Run) => r.(bold := true)) }

  /** `.italic()` */
  function Italic(t: Text): Text { MapRuns(t, (r: Run) => r.(italic := true)) }

  /** `.strikethrough()` */
  function Strikethrough(t: Text): Text { MapRuns(t, (r: Run) => r.(strikethrough := true)) }

  /** `.monospaced()` */
  function Monospaced(t: Text): Text { MapRuns(t, (r: Run) => r.(monospaced := true)) }

  /** `.customAttribute(InlineCodeAttribute())` */
  function TaggedInlineCode(t: Text): Text { MapRuns(t, (r: Run) => r.(inlineCode := true)) }

  /** `attributedString.mergingAttributes(container, mergePolicy: .keepNew)` with only `link` in the container */
  function MergingLink(a: AttributedString, url: Url): AttributedString {
    MapRuns(a, (r: Run) => r.(link := Some(url)))
  }

  /** The characters a text shows, images left out. */
  function ShownCharacters(t: Text): string {
    if t == [] then []
    else (if t[0].content.Characters? then t[0].content.chars else []) + ShownCharacters(t[1..])
  }

  /** The characters of a concatenation are those of each part. */
  lemma {:induction false} ShownAppend(a: Text, b: Text)
    ensures ShownCharacters(a + b) == ShownCharacters(a) + ShownCharacters(b)
    decreases |a|
  {
    if a == [] {
      assert a + b == b;
    } else {
      assert (a + b)[1..] == a[1..] + b;
      ShownAppend(a[1..], b);
    }
  }
}
