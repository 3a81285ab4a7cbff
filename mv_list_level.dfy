/** Sources/MarkdownView/Model/ListLevel.swift: the earlier list depth, with a structural successor. */
module MarkdownViewListLevel {

  /** `ListLevel`: `.root`, `.one` and `.more(n)`. */
  datatype ListLevel = Root | One | More(level: int)

  /** The values `init(rawValue:)` produces: `.more` never carries 0 or 1. */
  predicate IsCanonical(l: ListLevel) {
    l.More? ==> l.level != 0 && l.level != 1
  }

  /** `rawValue` */
  function RawValue(l: ListLevel): int {
    match l
    case Root => 0
    case One => 1
    case More(value) => value
  }

  /** `init(rawValue:)`: total over `Int`, and it keeps the raw value. */
  function FromRawValue(rawValue: int): (l: ListLevel)
    ensures RawValue(l) == rawValue
    ensures IsCanonical(l)
  {
    if rawValue == 0 then Root
    else if rawValue == 1 then One
    else More(rawValue)
  }

  /** 0 is `.root`, 1 is `.one`, anything else is `.more(n)`. */
  lemma FromRawValueCases(n: int)
    ensures n == 0 ==> FromRawValue(n) == Root
    ensures n == 1 ==> FromRawValue(n) == One
    ensures n != 0 && n != 1 ==> FromRawValue(n) == More(n)
  {
  }

  /** `isRoot`, written `self == .root`, compares raw values. */
  predicate IsRoot(l: ListLevel) {
    RawValue(l) == RawValue(Root)
  }

  lemma IsRootExactly(l: ListLevel)
    ensures IsRoot(l) <==> RawValue(l) == 0
  {
  }

  /** `next()`, by cases on the level rather than through the raw value. */
  function Next(l: ListLevel): (n: ListLevel)
    ensures RawValue(n) == RawValue(l) + 1
    ensures l.More? ==> n.More?
    ensures IsCanonical(l) && RawValue(l) >= 0 ==> IsCanonical(n)
  {
    match l
    case Root => One
    case One => More(2)
    case More(value) => More(value + 1)
  }

  /**
   * Unlike `init(rawValue:)`, `next()` keeps a `.more` value a `.more` value, so
   * `.more(-1).next()` is `.more(0)`, which is not `.root` and still reports `isRoot`.
   */
  lemma NextKeepsMore()
    ensures Next(More(-1)) == More(0)
    ensures IsRoot(Next(More(-1))) && Next(More(-1)) != Root
    ensures Next(More(0)) == More(1) && Next(More(0)) != FromRawValue(1)
  {
  }

  /** `next()` applied `d` times. */
  function NextIterated(l: ListLevel, d: nat): ListLevel
    decreases d
  {
    if d == 0 then l else Next(NextIterated(l, d - 1))
  }

  /** A list nested `d` levels below the root sees the canonical level of raw value `d`. */
  lemma {:induction false} NextIteratedFromRoot(d: nat)
    ensures NextIterated(Root, d) == FromRawValue(d)
    decreases d
  {
    if d > 0 {
      NextIteratedFromRoot(d - 1);
    }
  }

  /** The `markdownListLevel` environment default (MarkdownView/Environment/MarkdownListLevel.swift). */
  function DefaultLevel(): (l: ListLevel)
    ensures IsRoot(l) && l.Root?
  {
    Root
  }
}
