/** Sources/MarkdownUI/Model/ListLevel.swift: the nesting depth of a list. */
module MarkdownUIListLevel {

  /** `ListLevel`: `.root`, `.indented` and `.furtherIndented(n)` for all other depths. */
  datatype ListLevel = Root | Indented | FurtherIndented(level: int)

  /** The values `init(rawValue:)` produces: `.furtherIndented` never carries 0 or 1. */
  predicate IsCanonical(l: ListLevel) {
    l.FurtherIndented? ==> l.level != 0 && l.level != 1
  }

  /** `rawValue` */
  function RawValue(l: ListLevel): int {
    match l
    case Root => 0
    case Indented => 1
    case FurtherIndented(value) => value
  }

  /** `init(rawValue:)`: total over `Int`, and it keeps the raw value. */
  function FromRawValue(rawValue: int): (l: ListLevel)
    ensures RawValue(l) == rawValue
    ensures IsCanonical(l)
  {
    if rawValue == 0 then Root
    else if rawValue == 1 then Indented
    else FurtherIndented(rawValue)
  }

  /** 0 is `.root`, 1 is `.indented`, every other `Int`, negatives too, is `.furtherIndented(n)`. */
  lemma FromRawValueCases(n: int)
    ensures n == 0 ==> FromRawValue(n) == Root
    ensures n == 1 ==> FromRawValue(n) == Indented
    ensures n != 0 && n != 1 ==> FromRawValue(n) == FurtherIndented(n)
  {
  }

  /** Conversely every canonical level is rebuilt from its raw value. */
  lemma RawValueRoundTrip(l: ListLevel)
    requires IsCanonical(l)
    ensures FromRawValue(RawValue(l)) == l
  {
  }

  /**
   * `isRoot`, written `self == .root`: for a `RawRepresentable` enum `==` compares raw
   * values, so it holds exactly when the raw value is 0.
   */
  predicate IsRoot(l: ListLevel) {
    RawValue(l) == RawValue(Root)
  }

  /** `isRoot` holds for every level with raw value 0, among them `.furtherIndented(0)`. */
  lemma IsRootExactly(l: ListLevel)
    ensures IsRoot(l) <==> RawValue(l) == 0
    ensures IsRoot(FurtherIndented(0)) && FurtherIndented(0) != Root
  {
  }

  /** `next()`, written `ListLevel(rawValue: rawValue + 1)`. */
  function Next(l: ListLevel): (n: ListLevel)
    ensures RawValue(n) == RawValue(l) + 1
    ensures IsCanonical(n)
  {
    FromRawValue(RawValue(l) + 1)
  }

  /** The successor on the canonical levels, and where it leaves them. */
  lemma NextCases(n: int)
    ensures Next(Root) == Indented
    ensures Next(Indented) == FurtherIndented(2)
    ensures n >= 2 ==> Next(FurtherIndented(n)) == FurtherIndented(n + 1)
    ensures Next(FurtherIndented(0)) == Indented
    ensures Next(FurtherIndented(-1)) == Root
  {
  }

  /** `next()` applied `d` times. */
  function NextIterated(l: ListLevel, d: nat): ListLevel
    decreases d
  {
    if d == 0 then l else Next(NextIterated(l, d - 1))
  }

  /** A list nested `d` levels below the root sees a level whose raw value is `d`. */
  lemma {:induction false} NextIteratedFromRoot(d: nat)
    ensures RawValue(NextIterated(Root, d)) == d
    decreases d
  {
    if d > 0 {
      NextIteratedFromRoot(d - 1);
    }
  }

  /** ... and that level is the one `init(rawValue: d)` builds: `.indented` at 1, `.furtherIndented(d)` beyond. */
  lemma NextIteratedFromRootIs(d: nat)
    ensures NextIterated(Root, d) == FromRawValue(d)
    ensures d == 1 ==> NextIterated(Root, d) == Indented
    ensures d >= 2 ==> NextIterated(Root, d) == FurtherIndented(d)
  {
    NextIteratedFromRoot(d);
    var l := NextIterated(Root, d);
    assert IsCanonical(l) by {
      if d > 0 {
        assert l == Next(NextIterated(Root, d - 1));
      }
    }
    RawValueRoundTrip(l);
  }

  /** The ambient `listLevel` environment value before any list is entered. */
  function DefaultLevel(): (l: ListLevel)
    ensures IsRoot(l) && l.Root?
  {
    Root
  }
}
