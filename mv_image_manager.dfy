/**
 * Sources/MarkdownView/ImageManager.swift: the earlier image loader over Nuke's
 * image pipeline. Every cache miss starts a fetch and overwrites the URL's entry in
 * `loadingTasks`; any completion clears it, and no failure is remembered.
 *
 * The pipeline's memory cache is a parameter. A started fetch appends its URL to
 * `tasks`; its completion is the separate event `Complete`.
 */
module MarkdownViewImageManager {
  import opened Common
  import opened SwiftUI

  /** `ImageManager.Error`: a missing URL is the only error. */
  datatype Error = NoURL

  /** The prefix of the scale processor's identifier. */
  const ScaleIdentifierPrefix: string := "at.davidwalter.markdown/scale?s="

  /**
   * `ImageProcessors.Scale.identifier`: the prefix and the scale's description
   * (`"\(scale)"` of a `CGFloat`, given as text).
   */
  function ScaleIdentifier(scaleText: string): (id: string)
    ensures |id| == |ScaleIdentifierPrefix| + |scaleText|
    ensures id[..|ScaleIdentifierPrefix|] == ScaleIdentifierPrefix
    ensures id[|ScaleIdentifierPrefix|..] == scaleText
  {
    ScaleIdentifierPrefix + scaleText
  }

  /** Scales with different descriptions give different identifiers. */
  lemma ScaleIdentifierInjective(a: string, b: string)
    requires ScaleIdentifier(a) == ScaleIdentifier(b)
    ensures a == b
  {
    assert a == ScaleIdentifier(a)[|ScaleIdentifierPrefix|..];
  }

  /** `ImageRequest(url: url, processors: [.scale(scale)])`, as a cache key. */
  datatype CacheKey = CacheKey(url: Url, processors: seq<string>)

  function RequestFor(url: Url, scaleText: string): (key: CacheKey)
    ensures key.url == url && key.processors == [ScaleIdentifier(scaleText)]
  {
    CacheKey(url, [ScaleIdentifier(scaleText)])
  }

  /** The same URL at two differently described scales gives two cache keys. */
  lemma ScalesAreDistinctKeys(url: Url, a: string, b: string)
    requires a != b
    ensures RequestFor(url, a) != RequestFor(url, b)
  {
    if RequestFor(url, a) == RequestFor(url, b) {
      ScaleIdentifierInjective(a, b);
    }
  }

  /** The manager's state: `loadingTasks`, each task known by its position in `tasks`. */
  datatype Manager = Manager(loadingTasks: map<Url, nat>, tasks: seq<Url>)

  datatype Lookup = Lookup(result: Result<Option<PlatformImage>, Error>, next: Manager)

  /** `image(for:scale:)`; `cache` is `pipeline.cache[request]`. */
  function ImageFor(m: Manager, url: Option<Url>, scaleText: string,
                    cache: CacheKey -> Option<PlatformImage>): (l: Lookup)
    ensures url.None? ==> l == Lookup(Failure(NoURL), m)
    ensures url.Some? && cache(RequestFor(url.value, scaleText)).Some? ==>
              l == Lookup(Success(cache(RequestFor(url.value, scaleText))), m)
    ensures url.Some? && cache(RequestFor(url.value, scaleText)).None? ==>
              l.result == Success(None)
              && l.next == Manager(m.loadingTasks[url.value := |m.tasks|], m.tasks + [url.value])
  {
    match url
    case None => Lookup(Failure(NoURL), m)
    case Some(u) =>
      var response := cache(RequestFor(u, scaleText));
      if response.Some? then Lookup(Success(response), m)
      else Lookup(Success(None), Manager(m.loadingTasks[u := |m.tasks|], m.tasks + [u]))
  }

  /** The completion handler of task `t`, whatever its result: `loadingTasks[url] = nil`. */
  function Completion(m: Manager, t: nat): (next: Manager)
    requires t < |m.tasks|
    ensures next.tasks == m.tasks
    ensures next.loadingTasks == m.loadingTasks - {m.tasks[t]}
  {
    Manager(m.loadingTasks - {m.tasks[t]}, m.tasks)
  }

  /** Every entry names a task of its own URL, and the newest one started for it. */
  predicate Valid(m: Manager) {
    forall u :: u in m.loadingTasks ==>
      m.loadingTasks[u] < |m.tasks| && m.tasks[m.loadingTasks[u]] == u
      && forall t :: m.loadingTasks[u] < t < |m.tasks| ==> m.tasks[t] != u
  }

  /** Lookups and completions keep the invariant. */
  lemma StepsKeepValid(m: Manager, url: Option<Url>, scaleText: string,
                       cache: CacheKey -> Option<PlatformImage>, t: nat)
    requires Valid(m)
    ensures Valid(ImageFor(m, url, scaleText, cache).next)
    ensures t < |m.tasks| ==> Valid(Completion(m, t))
  {
  }

  /** No de-duplication: `n` lookups of an uncached URL start `n` fetches. */
  lemma {:induction false} EveryMissFetches(m: Manager, url: Url, scaleText: string,
                                            cache: CacheKey -> Option<PlatformImage>, n: nat)
    requires cache(RequestFor(url, scaleText)).None?
    ensures |Repeat(m, url, scaleText, cache, n).tasks| == |m.tasks| + n
    ensures n > 0 ==> Repeat(m, url, scaleText, cache, n).loadingTasks[url]
                      == |Repeat(m, url, scaleText, cache, n).tasks| - 1
    decreases n
  {
    if n > 0 {
      EveryMissFetches(m, url, scaleText, cache, n - 1);
    }
  }

  /** `n` successive lookups of the same URL. */
  function Repeat(m: Manager, url: Url, scaleText: string, cache: CacheKey -> Option<PlatformImage>, n: nat): Manager
    decreases n
  {
    if n == 0 then m else ImageFor(Repeat(m, url, scaleText, cache, n - 1), Some(url), scaleText, cache).next
  }

  /**
   * Completion does not check which task it belongs to: when an overwritten, older
   * fetch of a URL ends, it clears the entry of the newer fetch still running.
   */
  lemma StaleCompletionClears(m: Manager, url: Url, scaleText: string, cache: CacheKey -> Option<PlatformImage>)
    requires cache(RequestFor(url, scaleText)).None?
    ensures var twice := Repeat(m, url, scaleText, cache, 2);
            twice.loadingTasks[url] == |m.tasks| + 1
            && url !in Completion(twice, |m.tasks|).loadingTasks
  {
    EveryMissFetches(m, url, scaleText, cache, 2);
  }

  /** `ImageManager` */
  class ImageManager {
    var loadingTasks: map<Url, nat>
    var tasks: seq<Url>

    function Snapshot(): Manager
      reads this
    {
      Manager(loadingTasks, tasks)
    }

    constructor()
      ensures Snapshot() == Manager(map[], []) && Valid(Snapshot())
    {
      loadingTasks := map[];
      tasks := [];
    }

    /** `image(for:scale:)` */
    method Image(url: Option<Url>, scaleText: string, cache: CacheKey -> Option<PlatformImage>)
      returns (result: Result<Option<PlatformImage>, Error>)
      modifies this
      ensures Lookup(result, Snapshot()) == ImageFor(old(Snapshot()), url, scaleText, cache)
      ensures Valid(old(Snapshot())) ==> Valid(Snapshot())
    {
      if Valid(Snapshot()) {
        StepsKeepValid(Snapshot(), url, scaleText, cache, 0);
      }
      if url.None? {
        return Failure(NoURL);
      }
      var u := url.value;
      var response := cache(RequestFor(u, scaleText));
      if response.Some? {
        return Success(response);
      }
      var task := |tasks|;
      tasks := tasks + [u];
      loadingTasks := loadingTasks[u := task];
      return Success(None);
    }

    /** The completion handler of task `t`. */
    method Complete(t: nat)
      requires t < |tasks|
      modifies this
      ensures Snapshot() == Completion(old(Snapshot()), t)
      ensures Valid(old(Snapshot())) ==> Valid(Snapshot())
    {
      if Valid(Snapshot()) {
        StepsKeepValid(Snapshot(), None, [], _ => None, t);
      }
      loadingTasks := loadingTasks - {tasks[t]};
    }
  }
}
