/**
 * Sources/MarkdownUI/ImageManager.swift: the loader of inline images. It keeps one
 * state per URL that is being fetched or whose fetch failed; a URL already being
 * fetched is not fetched again, and a failed URL stays failed.
 *
 * The URL cache and the image decoder are parameters. A fetch is a task: starting
 * it appends its URL to `tasks`, and its completion is the separate event
 * `Complete`, delivered later by the caller; each task completes at most once.
 */
module MarkdownUIImageManager {
  import opened Common
  import opened SwiftUI

  /** `ImageManager.Error` */
  datatype Error = NoURL | Failure

  /** `ImageManager.State`: the task is known by its position in `tasks`. */
  datatype State = Loading(task: nat) | Failed

  /** How a fetch ended: `session.data(from:)` returned, or threw. */
  datatype Outcome = Loaded | Threw

  /** The bytes of a cached response. */
  type Data = seq<bv8>

  /** The manager's state: `requests`, the URLs of the tasks started so far, and the tasks that have completed. */
  datatype Manager = Manager(requests: map<Url, State>, tasks: seq<Url>, finished: set<nat>)

  /**
   * What the manager keeps true: a running task's URL is `.loading` with that task,
   * and every `.loading` entry names a running task of its own URL. So at most one
   * fetch per URL is ever running.
   */
  predicate Valid(m: Manager) {
    (forall t :: t in m.finished ==> t < |m.tasks|)
    && (forall t :: 0 <= t < |m.tasks| && t !in m.finished ==>
          m.tasks[t] in m.requests && m.requests[m.tasks[t]] == Loading(t))
    && (forall u :: u in m.requests && m.requests[u].Loading? ==>
          m.requests[u].task < |m.tasks| && m.tasks[m.requests[u].task] == u
          && m.requests[u].task !in m.finished)
  }

  /** `init()` */
  function Initial(): (m: Manager)
    ensures Valid(m) && m.requests == map[] && m.tasks == []
  {
    Manager(map[], [], {})
  }

  datatype Lookup = Lookup(result: Result<Option<PlatformImage>, Error>, next: Manager)

  /**
   * `image(for:scale:)`. `cached` is the URL cache's response data, `decode` is
   * `PlatformImage(data:)` and `scaled` is `scalePreservingAspectRatio(scale:)`.
   */
  function ImageFor(m: Manager, url: Option<Url>, scale: real, cached: Url -> Option<Data>,
                    decode: Data -> Option<PlatformImage>,
                    scaled: (PlatformImage, real) -> PlatformImage): (l: Lookup)
    ensures url.None? ==> l == Lookup(Result.Failure(NoURL), m)
    ensures url.Some? && cached(url.value).Some? ==>
              l.next == m
              && l.result == Success(match decode(cached(url.value).value)
                                     case None => None
                                     case Some(image) => Some(scaled(image, scale)))
    ensures url.Some? && cached(url.value).None? && url.value in m.requests && m.requests[url.value] == Failed ==>
              l == Lookup(Result.Failure(Error.Failure), m)
    ensures url.Some? && cached(url.value).None? && url.value in m.requests && m.requests[url.value].Loading? ==>
              l == Lookup(Success(None), m)
    ensures url.Some? && cached(url.value).None? && url.value !in m.requests ==>
              l.result == Success(None)
              && l.next == Manager(m.requests[url.value := Loading(|m.tasks|)], m.tasks + [url.value], m.finished)
  {
    match url
    case None => Lookup(Result.Failure(NoURL), m)
    case Some(u) =>
      match cached(u)
      case Some(data) =>
        var image := match decode(data)
          case None => None
          case Some(image) => Some(scaled(image, scale));
        Lookup(Success(image), m)
      case None =>
        if u in m.requests then
          match m.requests[u]
          case Failed => Lookup(Result.Failure(Error.Failure), m)
          case Loading(_) => Lookup(Success(None), m)
        else
          Lookup(Success(None), Manager(m.requests[u := Loading(|m.tasks|)], m.tasks + [u], m.finished))
  }

  /** The completion of task `t`: `requests[url] = nil` after a fetch, `.failed` after an error. */
  function Completion(m: Manager, t: nat, outcome: Outcome): (next: Manager)
    requires t < |m.tasks| && t !in m.finished
    ensures next.tasks == m.tasks && next.finished == m.finished + {t}
    ensures outcome == Loaded ==> next.requests == m.requests - {m.tasks[t]}
    ensures outcome == Threw ==> next.requests == m.requests[m.tasks[t] := Failed]
  {
    var u := m.tasks[t];
    var requests := match outcome
      case Loaded => m.requests - {u}
      case Threw => m.requests[u := Failed];
    Manager(requests, m.tasks, m.finished + {t})
  }

  /** A lookup keeps the invariant, starts at most one task, and changes no other URL's entry. */
  lemma ImageForKeepsValid(m: Manager, url: Option<Url>, scale: real, cached: Url -> Option<Data>,
                           decode: Data -> Option<PlatformImage>, scaled: (PlatformImage, real) -> PlatformImage)
    requires Valid(m)
    ensures var l := ImageFor(m, url, scale, cached, decode, scaled);
            Valid(l.next)
            && l.next.finished == m.finished
            && (l.next.tasks == m.tasks || l.next.tasks == m.tasks + [url.value])
            && forall u :: (url.None? || u != url.value) ==>
                 (u in l.next.requests <==> u in m.requests)
                 && (u in m.requests ==> l.next.requests[u] == m.requests[u])
  {
  }

  /** A completion keeps the invariant and changes only the entry of its own URL. */
  lemma CompletionKeepsValid(m: Manager, t: nat, outcome: Outcome)
    requires Valid(m) && t < |m.tasks| && t !in m.finished
    ensures Valid(Completion(m, t, outcome))
    ensures forall u :: u != m.tasks[t] ==>
              (u in Completion(m, t, outcome).requests <==> u in m.requests)
              && (u in m.requests ==> Completion(m, t, outcome).requests[u] == m.requests[u])
  {
    var next := Completion(m, t, outcome);
    forall t' | 0 <= t' < |next.tasks| && t' !in next.finished
      ensures next.tasks[t'] in next.requests && next.requests[next.tasks[t']] == Loading(t')
    {
      assert m.requests[m.tasks[t']] == Loading(t');
      assert m.tasks[t'] != m.tasks[t] by {
        assert m.requests[m.tasks[t]] == Loading(t);
      }
    }
  }

  /** De-duplication: in a valid state two running tasks fetch different URLs. */
  lemma OneFetchPerUrl(m: Manager, t1: nat, t2: nat)
    requires Valid(m)
    requires t1 < |m.tasks| && t2 < |m.tasks| && t1 !in m.finished && t2 !in m.finished
    requires m.tasks[t1] == m.tasks[t2]
    ensures t1 == t2
  {
    assert m.requests[m.tasks[t1]] == Loading(t1);
  }

  /** Asking twice for an uncached URL starts one fetch: the second lookup finds it loading. */
  lemma SecondLookupStartsNothing(m: Manager, url: Url, scale: real, cached: Url -> Option<Data>,
                                  decode: Data -> Option<PlatformImage>, scaled: (PlatformImage, real) -> PlatformImage)
    requires cached(url).None?
    ensures var first := ImageFor(m, Some(url), scale, cached, decode, scaled);
            var second := ImageFor(first.next, Some(url), scale, cached, decode, scaled);
            second.next == first.next && |first.next.tasks| <= |m.tasks| + 1
  {
  }

  /**
   * A failure is sticky: once a URL is `.failed`, every later lookup, and every
   * completion of a valid state, leaves it failed, and a lookup that misses the
   * cache keeps answering `.failure(.failure)`.
   */
  lemma FailureIsSticky(m: Manager, url: Url, scale: real, cached: Url -> Option<Data>,
                        decode: Data -> Option<PlatformImage>, scaled: (PlatformImage, real) -> PlatformImage,
                        other: Option<Url>, t: nat, outcome: Outcome)
    requires Valid(m) && url in m.requests && m.requests[url] == Failed
    ensures var l := ImageFor(m, other, scale, cached, decode, scaled);
            url in l.next.requests && l.next.requests[url] == Failed
    ensures cached(url).None? ==> ImageFor(m, Some(url), scale, cached, decode, scaled).result == Result.Failure(Error.Failure)
    ensures t < |m.tasks| && t !in m.finished ==>
              url in Completion(m, t, outcome).requests && Completion(m, t, outcome).requests[url] == Failed
  {
    if t < |m.tasks| && t !in m.finished {
      assert m.requests[m.tasks[t]] == Loading(t);
    }
  }

  /** `ImageManager`, the object the views share. */
  class ImageManager {
    var requests: map<Url, State>
    var tasks: seq<Url>
    var finished: set<nat>

    function Snapshot(): Manager
      reads this
    {
      Manager(requests, tasks, finished)
    }

    constructor()
      ensures Snapshot() == Initial() && Valid(Snapshot())
    {
      requests := map[];
      tasks := [];
      finished := {};
    }

    /** `image(for:scale:)` */
    method Image(url: Option<Url>, scale: real, cached: Url -> Option<Data>,
                 decode: Data -> Option<PlatformImage>, scaled: (PlatformImage, real) -> PlatformImage)
      returns (result: Result<Option<PlatformImage>, Error>)
      modifies this
      ensures Lookup(result, Snapshot()) == ImageFor(old(Snapshot()), url, scale, cached, decode, scaled)
      ensures Valid(old(Snapshot())) ==> Valid(Snapshot())
    {
      if Valid(Snapshot()) {
        ImageForKeepsValid(Snapshot(), url, scale, cached, decode, scaled);
      }
      if url.None? {
        return Result.Failure(NoURL);
      }
      var u := url.value;
      var response := cached(u);
      if response.Some? {
        var image := decode(response.value);
        if image.Some? {
          return Success(Some(scaled(image.value, scale)));
        }
        return Success(None);
      }
      if u in requests && requests[u] == Failed {
        return Result.Failure(Error.Failure);
      } else if u in requests {
        return Success(None);
      }
      var task := |tasks|;
      tasks := tasks + [u];
      requests := requests[u := Loading(task)];
      return Success(None);
    }

    /** The end of task `t`, from the body of the `Task` that `Image` started. */
    method Complete(t: nat, outcome: Outcome)
      requires t < |tasks| && t !in finished
      modifies this
      ensures Snapshot() == Completion(old(Snapshot()), t, outcome)
      ensures Valid(old(Snapshot())) ==> Valid(Snapshot())
    {
      if Valid(Snapshot()) {
        CompletionKeepsValid(Snapshot(), t, outcome);
      }
      var u := tasks[t];
      if outcome == Loaded {
        requests := requests - {u};
      } else {
        requests := requests[u := Failed];
      }
      finished := finished + {t};
    }
  }
}
