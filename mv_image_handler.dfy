/**
 * Sources/MarkdownView/ImageHandler.swift: the oldest image loader. It answers with
 * a `Text` holding the image or a placeholder symbol, and refreshes `uuid` on every
 * assignment to `loadingTasks` so that views depending on it are redrawn.
 *
 * `uuid` is modelled as a version counter: each refresh replaces it with a fresh
 * value, here the next number. The pipeline's cache is a parameter; a started fetch
 * appends its URL to `tasks`, and its completion is the separate event `Complete`.
 */
module MarkdownViewImageHandler {
  import opened Common
  import opened SwiftUI

  const NoUrlSymbol: string := "photo.badge.exclamationmark"
  const LoadingSymbol: string := "photo.badge.arrow.down"

  /** `uuid`, `loadingTasks`, and the tasks started so far. */
  datatype Handler = Handler(version: nat, loadingTasks: map<Url, nat>, tasks: seq<Url>)

  /** The `$loadingTasks` sink: an assignment to `loadingTasks`, followed by a new `uuid`. */
  function Assign(h: Handler, loadingTasks: map<Url, nat>, tasks: seq<Url>): (next: Handler)
    ensures next.version == h.version + 1
    ensures next.loadingTasks == loadingTasks && next.tasks == tasks
  {
    Handler(h.version + 1, loadingTasks, tasks)
  }

  datatype Lookup = Lookup(text: Text, next: Handler)

  /**
   * `image(for:scale:)`. The request is `ImageRequest(url: url)`: the scale is not
   * used, so the cache is keyed by the URL alone.
   */
  function ImageFor(h: Handler, url: Option<Url>, scale: real, cache: Url -> Option<PlatformImage>): (l: Lookup)
    ensures url.None? ==> l == Lookup(Embed(SystemImage(NoUrlSymbol)), h)
    ensures url.Some? && cache(url.value).Some? ==> l == Lookup(Embed(Picture(cache(url.value).value)), h)
    ensures url.Some? && cache(url.value).None? ==>
              l.text == Embed(SystemImage(LoadingSymbol))
              && l.next.loadingTasks == h.loadingTasks[url.value := |h.tasks|]
              && l.next.tasks == h.tasks + [url.value]
              && l.next.version > h.version
  {
    match url
    case None => Lookup(Embed(SystemImage(NoUrlSymbol)), h)
    case Some(u) =>
      match cache(u)
      case Some(image) => Lookup(Embed(Picture(image)), h)
      case None =>
        Lookup(Embed(SystemImage(LoadingSymbol)), Assign(h, h.loadingTasks[u := |h.tasks|], h.tasks + [u]))
  }

  /** The scale is ignored: any two scales give the same answer and the same new state. */
  lemma ScaleIgnored(h: Handler, url: Option<Url>, a: real, b: real, cache: Url -> Option<PlatformImage>)
    ensures ImageFor(h, url, a, cache) == ImageFor(h, url, b, cache)
  {
  }

  /** The completion handler of task `t`: `loadingTasks[url] = nil`, which refreshes `uuid`. */
  function Completion(h: Handler, t: nat): (next: Handler)
    requires t < |h.tasks|
    ensures next.loadingTasks == h.loadingTasks - {h.tasks[t]}
    ensures next.tasks == h.tasks && next.version > h.version
  {
    Assign(h, h.loadingTasks - {h.tasks[t]}, h.tasks)
  }

  /**
   * The version changes exactly when `loadingTasks` is assigned: a lookup that
   * starts a fetch and every completion raise it, a cache hit or a missing URL
   * leaves the whole state as it was.
   */
  lemma VersionTracksAssignments(h: Handler, url: Option<Url>, scale: real, cache: Url -> Option<PlatformImage>)
    ensures var l := ImageFor(h, url, scale, cache);
            (l.next.version == h.version <==> l.next == h)
            && (l.next.version != h.version <==> |l.next.tasks| == |h.tasks| + 1)
  {
  }

  /** `ImageHandler` */
  class ImageHandler {
    var version: nat
    var loadingTasks: map<Url, nat>
    var tasks: seq<Url>

    function Snapshot(): Handler
      reads this
    {
      Handler(version, loadingTasks, tasks)
    }

    /** `init()`: the sink fires once for the initial value when it is attached. */
    constructor()
      ensures Snapshot() == Handler(1, map[], [])
    {
      version := 1;
      loadingTasks := map[];
      tasks := [];
    }

    /** `image(for:scale:)` */
    method Image(url: Option<Url>, scale: real, cache: Url -> Option<PlatformImage>) returns (text: Text)
      modifies this
      ensures Lookup(text, Snapshot()) == ImageFor(old(Snapshot()), url, scale, cache)
    {
      if url.None? {
        return Embed(SystemImage(NoUrlSymbol));
      }
      var u := url.value;
      var image := cache(u);
      if image.Some? {
        return Embed(Picture(image.value));
      }
      var task := |tasks|;
      tasks := tasks + [u];
      loadingTasks := loadingTasks[u := task];
      version := version + 1;
      return Embed(SystemImage(LoadingSymbol));
    }

    /** The completion handler of task `t`. */
    method Complete(t: nat)
      requires t < |tasks|
      modifies this
      ensures Snapshot() == Completion(old(Snapshot()), t)
    {
      loadingTasks := loadingTasks - {tasks[t]};
      version := version + 1;
    }
  }
}
