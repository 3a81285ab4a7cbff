/**
 * The URL the three image loaders read from an image node: its `source`, parsed by
 * Foundation's `URL(string:)`, which is a parameter here.
 */
module ImageSource {
  import opened Common
  import opened Markdown
  import opened SwiftUI

  /** `Markdown.Image.url`: nil without a source or when the source does not parse. */
  function ImageUrl(image: Node, parseUrl: string -> Option<Url>): (url: Option<Url>)
    requires image.Image?
    ensures image.source.None? ==> url.None?
    ensures image.source.Some? ==> url == parseUrl(image.source.value)
    ensures url.Some? ==> image.source.Some? && parseUrl(image.source.value) == url
  {
    match image.source
    case None => None
    case Some(s) => parseUrl(s)
  }
}
