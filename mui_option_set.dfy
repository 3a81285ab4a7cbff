/**
 * Sources/MarkdownUI/Extensions/OptionSet+Extensions.swift: `[OptionSet].joined()`,
 * the union of a list of option sets, nil for an empty list. An option set is
 * the set of the options it contains.
 */
module MarkdownUIOptionSet {
  import opened Common

  /** The union of the sets, added one after the other. */
  function Union<T>(options: seq<set<T>>): set<T>
    decreases |options|
  {
    if options == [] then {} else Union(options[..|options| - 1]) + options[|options| - 1]
  }

  /** An option is in the union exactly when some set of the list contains it. */
  lemma {:induction false} InUnion<T>(options: seq<set<T>>, x: T)
    ensures x in Union(options) <==> exists i :: 0 <= i < |options| && x in options[i]
    decreases |options|
  {
    if options != [] {
      var init := options[..|options| - 1];
      InUnion(init, x);
      if x in Union(init) {
        var i :| 0 <= i < |init| && x in init[i];
        assert x in options[i];
      }
      if exists i :: 0 <= i < |options| && x in options[i] {
        var i :| 0 <= i < |options| && x in options[i];
        if i < |options| - 1 {
          assert x in init[i];
        }
      }
    }
  }

  /** The union depends only on which sets are listed, not on their order or repetition. */
  lemma UnionIgnoresOrder<T>(a: seq<set<T>>, b: seq<set<T>>)
    requires forall s :: s in a <==> s in b
    ensures Union(a) == Union(b)
  {
    forall x | x in Union(a)
      ensures x in Union(b)
    {
      InUnion(a, x);
      var i :| 0 <= i < |a| && x in a[i];
      assert a[i] in b;
      var j :| 0 <= j < |b| && b[j] == a[i];
      InUnion(b, x);
    }
    forall x | x in Union(b)
      ensures x in Union(a)
    {
      InUnion(b, x);
      var j :| 0 <= j < |b| && x in b[j];
      assert b[j] in a;
      var i :| 0 <= i < |a| && a[i] == b[j];
      InUnion(a, x);
    }
  }

  /** What `joined()` returns: nil for no sets, otherwise their union. */
  function JoinedValue<T>(options: seq<set<T>>): (r: Option<set<T>>)
    ensures r.None? <==> options == []
    ensures |options| == 1 ==> r == Some(options[0])
  {
    if options == [] then None
    else
      assert |options| == 1 ==> options[..0] == [] && Union(options) == {} + options[0] == options[0];
      Some(Union(options))
  }

  /** `joined()`: start from the first set and `formUnion` each of the others in turn. */
  method Joined<T>(options: seq<set<T>>) returns (result: Option<set<T>>)
    ensures result == JoinedValue(options)
  {
    if options == [] {
      return None;
    }
    var union := options[0];
    assert options[..1][..0] == [];
    var i := 1;
    while i < |options|
      invariant 1 <= i <= |options|
      invariant union == Union(options[..i])
    {
      assert options[..i + 1][..i] == options[..i];
      union := union + options[i];
      i := i + 1;
    }
    assert options[..i] == options;
    return Some(union);
  }
}
