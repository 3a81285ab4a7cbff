/**
 * Sources/MarkdownUI/Extensions/Text+Extensions.swift: building a `Text` from inline
 * markdown (with a verbatim fallback when parsing fails), from an image that may
 * still be loading, and from a list of texts.
 */
module MarkdownUITextExtensions {
  import opened Common
  import opened SwiftUI

  /** The symbol shown for an image that is not loaded yet. */
  const DownloadSymbol := "photo.badge.arrow.down"

  /**
   * `Text(markdown:url:)`. `parse` is `AttributedString(markdown:options:)` with the
   * inline-only options: `None` stands for the initializer throwing.
   */
  function TextMarkdown(markdown: string, url: Option<Url>, parse: string -> Option<AttributedString>): (t: Text)
    ensures parse(markdown).None? ==> t == Verbatim(markdown)
    ensures parse(markdown).Some? && url.None? ==> t == parse(markdown).value
    ensures parse(markdown).Some? && url.Some? ==>
              |t| == |parse(markdown).value|
              && forall i :: 0 <= i < |t| ==>
                   t[i].link == Some(url.value) && t[i] == parse(markdown).value[i].(link := t[i].link)
  {
    match parse(markdown)
    case None => Verbatim(markdown)
    case Some(attributed) =>
      match url
      case None => attributed
      case Some(u) => MergingLink(attributed, u)
  }

  /** A link given to `Text(markdown:url:)` wins over every link the markdown itself holds. */
  lemma UrlOverridesLinks(markdown: string, url: Url, parse: string -> Option<AttributedString>)
    requires parse(markdown).Some?
    ensures forall r :: r in TextMarkdown(markdown, Some(url), parse) ==> r.link == Some(url)
    ensures ShownCharacters(TextMarkdown(markdown, Some(url), parse)) == ShownCharacters(parse(markdown).value)
  {
    SameCharacters(TextMarkdown(markdown, Some(url), parse), parse(markdown).value);
  }

  /** Two texts whose runs differ only in attributes other than their content show the same characters. */
  lemma {:induction false} SameCharacters(a: Text, b: Text)
    requires |a| == |b| && forall i :: 0 <= i < |a| ==> a[i].content == b[i].content
    ensures ShownCharacters(a) == ShownCharacters(b)
    decreases |a|
  {
    if a != [] {
      SameCharacters(a[1..], b[1..]);
    }
  }

  /** `Text(image:)` for an optional image. */
  function TextImage(image: Option<PlatformImage>): (t: Text)
    ensures |t| == 1 && t[0].content.Embedded?
    ensures image.None? <==> t[0].content.image == SystemImage(DownloadSymbol)
    ensures image.Some? ==> t[0].content.image == Picture(image.value)
  {
    match image
    case None => Embed(SystemImage(DownloadSymbol))
    case Some(i) => Embed(Picture(i))
  }

  /** The fold of `[Text].joined()`: `reduce(into: acc) { $0 = $0 + $1 }`. */
  function JoinedFrom(acc: Text, texts: seq<Text>): Text
    decreases |texts|
  {
    if texts == [] then acc else JoinedFrom(acc + texts[0], texts[1..])
  }

  /** `[Text].joined()`: the fold started from `Text(verbatim: "")`. */
  function Joined(texts: seq<Text>): Text {
    JoinedFrom(Verbatim(""), texts)
  }

  /** The texts one after the other: the reference `joined()` is checked against. */
  function Concat(texts: seq<Text>): (t: Text)
    ensures texts == [] ==> t == []
    decreases |texts|
  {
    if texts == [] then [] else texts[0] + Concat(texts[1..])
  }

  lemma {:induction false} ConcatAppend(a: seq<Text>, b: seq<Text>)
    ensures Concat(a + b) == Concat(a) + Concat(b)
    decreases |a|
  {
    if a != [] {
      assert (a + b)[1..] == a[1..] + b;
      ConcatAppend(a[1..], b);
      assert Concat(a + b) == a[0] + Concat(a[1..] + b);
    } else {
      assert a + b == b;
    }
  }

  /** The fold adds the texts after the accumulator, in order. */
  lemma {:induction false} JoinedFromIsConcat(acc: Text, texts: seq<Text>)
    ensures JoinedFrom(acc, texts) == acc + Concat(texts)
    decreases |texts|
  {
    if texts != [] {
      JoinedFromIsConcat(acc + texts[0], texts[1..]);
    }
  }

  /** `joined()` is the concatenation of the texts. */
  lemma JoinedIsConcat(texts: seq<Text>)
    ensures Joined(texts) == Concat(texts)
  {
    JoinedFromIsConcat(Verbatim(""), texts);
  }

  /** `joined()` of no texts is the empty text, of one text that text, and it splits over `+`. */
  lemma JoinedLaws(a: seq<Text>, b: seq<Text>, t: Text)
    ensures Joined([]) == []
    ensures Joined([t]) == t
    ensures Joined(a + b) == Joined(a) + Joined(b)
  {
    JoinedIsConcat([t]);
    JoinedIsConcat(a);
    JoinedIsConcat(b);
    JoinedIsConcat(a + b);
    ConcatAppend(a, b);
  }
}
