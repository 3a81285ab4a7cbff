/**
 * Sources/MarkdownView/MarkupIterator.swift: visits the children of a node with a
 * `ForEach` over `0..<childCount`, skipping the positions whose `child(at:)` is nil.
 * A node's children are given as its slots (`Markdown.ChildSlots`).
 */
module MarkdownViewMarkupIterator {
  import opened Common

  /** The positions whose slot holds a child, in ascending order. */
  function FilledIndices<T>(slots: seq<Option<T>>): (ix: seq<nat>)
    ensures |ix| <= |slots|
    ensures forall k :: 0 <= k < |ix| ==> ix[k] < |slots| && slots[ix[k]].Some?
    ensures forall k, m :: 0 <= k < m < |ix| ==> ix[k] < ix[m]
    ensures forall i :: 0 <= i < |slots| && slots[i].Some? ==> i in ix
    ensures (forall i :: 0 <= i < |slots| ==> slots[i].Some?) ==>
              |ix| == |slots| && forall k :: 0 <= k < |ix| ==> ix[k] == k
  {
    if slots == [] then []
    else
      FilledIndices(slots[..|slots| - 1])
      + (if slots[|slots| - 1].Some? then [|slots| - 1] else [])
  }

  /**
   * `body`: `content(index, child)` for every index whose child is not nil, in
   * ascending order of the index.
   */
  function Iterate<T, R>(slots: seq<Option<T>>, content: (nat, T) -> R): (out: seq<R>)
    ensures |out| == |FilledIndices(slots)|
    ensures forall k :: 0 <= k < |out| ==>
              out[k] == content(FilledIndices(slots)[k], slots[FilledIndices(slots)[k]].value)
  {
    if slots == [] then []
    else
      var last := |slots| - 1;
      Iterate(slots[..last], content)
      + (if slots[last].Some? then [content(last, slots[last].value)] else [])
  }

  /** With no nil slot, there is one output per child, and the index given to `content` is its position. */
  lemma IterateAllFilled<T, R>(slots: seq<Option<T>>, content: (nat, T) -> R)
    requires forall i :: 0 <= i < |slots| ==> slots[i].Some?
    ensures |Iterate(slots, content)| == |slots|
    ensures forall i :: 0 <= i < |slots| ==> Iterate(slots, content)[i] == content(i, slots[i].value)
  {
  }

  /** A nil slot contributes no output. */
  lemma {:induction false} IterateCountsChildren<T, R>(slots: seq<Option<T>>, content: (nat, T) -> R)
    ensures |Iterate(slots, content)| == |set i | 0 <= i < |slots| && slots[i].Some?|
  {
    var ix := FilledIndices(slots);
    var filled := set i | 0 <= i < |slots| && slots[i].Some?;
    assert filled == set k | 0 <= k < |ix| :: ix[k];
    DistinctCard(ix);
  }

  /** A strictly increasing sequence has as many distinct elements as positions. */
  lemma {:induction false} DistinctCard(ix: seq<nat>)
    requires forall k, m :: 0 <= k < m < |ix| ==> ix[k] < ix[m]
    ensures |set k | 0 <= k < |ix| :: ix[k]| == |ix|
  {
    if ix != [] {
      var init := ix[..|ix| - 1];
      DistinctCard(init);
      var s := set k | 0 <= k < |init| :: init[k];
      assert (set k | 0 <= k < |ix| :: ix[k]) == s + {ix[|ix| - 1]};
      assert ix[|ix| - 1] !in s;
    }
  }

  /** The single-argument initializer: `content(child)` ignores the index. */
  function IterateChildren<T, R>(slots: seq<Option<T>>, content: T -> R): (out: seq<R>)
    ensures |out| == |FilledIndices(slots)|
    ensures forall k :: 0 <= k < |out| ==> out[k] == content(slots[FilledIndices(slots)[k]].value)
  {
    Iterate(slots, (index: nat, child: T) => content(child))
  }
}
