/**
 * Sources/MarkdownUI/Model/Fonts.swift: the per-type font overrides kept in the
 * environment, and the font a heading, body text or code finally gets. The
 * `@ScaledMetric` base values (28 and 2) are used without Dynamic Type scaling.
 */
module MarkdownUIFonts {
  import opened Common
  import opened SwiftUI

  /** `MarkdownFontType` */
  datatype FontType = HeadingFont(level: int) | BodyFont | CodeFont

  type Fonts = map<FontType, Font>

  /** The ambient `markdownFonts` before any override: body and code text, no headings. */
  function DefaultFonts(): (fonts: Fonts)
    ensures fonts.Keys == {BodyFont, CodeFont}
    ensures fonts[BodyFont] == Body && fonts[CodeFont] == Callout
  {
    map[BodyFont := Body, CodeFont := Callout]
  }

  /**
   * The dictionary after `fonts[type] = font` for every listed type: a font is
   * stored under each of them, nil removes their entries.
   */
  function Overridden(fonts: Fonts, font: Option<Font>, types: seq<FontType>): Fonts {
    match font
    case Some(f) => fonts + map t | t in types :: f
    case None => fonts - set t | t in types
  }

  /** The listed types get `font` (or lose their entry); every other type keeps its entry. */
  lemma OverriddenEntries(fonts: Fonts, font: Option<Font>, types: seq<FontType>, t: FontType)
    ensures t in types && font.Some? ==> t in Overridden(fonts, font, types) && Overridden(fonts, font, types)[t] == font.value
    ensures t in types && font.None? ==> t !in Overridden(fonts, font, types)
    ensures t !in types ==> (t in Overridden(fonts, font, types) <==> t in fonts)
    ensures t !in types && t in fonts ==> Overridden(fonts, font, types)[t] == fonts[t]
  {
  }

  /** Neither the order of the listed types nor repeating one of them matters. */
  lemma OverriddenIgnoresOrder(fonts: Fonts, font: Option<Font>, a: seq<FontType>, b: seq<FontType>)
    requires forall t :: t in a <==> t in b
    ensures Overridden(fonts, font, a) == Overridden(fonts, font, b)
  {
    assert (set t | t in a) == (set t | t in b);
  }

  /** `markdownFont(_:for:)`: the loop over `types` assigning into the dictionary. */
  method MarkdownFont(fonts: Fonts, font: Option<Font>, types: seq<FontType>) returns (result: Fonts)
    ensures result == Overridden(fonts, font, types)
  {
    result := fonts;
    var i := 0;
    while i < |types|
      invariant 0 <= i <= |types|
      invariant result == Overridden(fonts, font, types[..i])
    {
      var t := types[i];
      OverriddenStep(fonts, font, types, i);
      match font {
        case Some(f) => result := result[t := f];
        case None => result := result - {t};
      }
      i := i + 1;
    }
    assert types[..i] == types;
  }

  /** One more assignment extends the override by one type. */
  lemma OverriddenStep(fonts: Fonts, font: Option<Font>, types: seq<FontType>, i: nat)
    requires i < |types|
    ensures font.Some? ==> Overridden(fonts, font, types[..i + 1]) == Overridden(fonts, font, types[..i])[types[i] := font.value]
    ensures font.None? ==> Overridden(fonts, font, types[..i + 1]) == Overridden(fonts, font, types[..i]) - {types[i]}
  {
    assert forall t :: t in types[..i + 1] <==> t in types[..i] || t == types[i] by {
      assert types[..i + 1] == types[..i] + [types[i]];
    }
  }

  /** The size of a heading with no override: 28 − 2·(level − 1), for every level. */
  function HeadingSize(level: int): (size: int)
    ensures level == 1 ==> size == 28
    ensures level == 6 ==> size == 18
  {
    28 - 2 * (level - 1)
  }

  /** Each level down is 2 points smaller, without end. */
  lemma HeadingSizeDecreasing(a: int, b: int)
    requires a < b
    ensures HeadingSize(b) <= HeadingSize(a) - 2
  {
  }

  /** The `switch type` fallback of `FontApplier.font`. */
  function ComputedDefault(t: FontType): Font {
    match t
    case HeadingFont(level) => System(HeadingSize(level), Semibold)
    case BodyFont => Body
    case CodeFont => Callout
  }

  /** `FontApplier.font`: the entry for the type when there is one, otherwise the computed default. */
  function Resolve(fonts: Fonts, t: FontType): (f: Font)
    ensures t in fonts ==> f == fonts[t]
    ensures t !in fonts ==> f == ComputedDefault(t)
  {
    if t in fonts then fonts[t] else ComputedDefault(t)
  }

  /**
   * The default entries agree with the computed defaults, so with no override
   * every type gets its computed default font.
   */
  lemma DefaultsAreComputed(t: FontType)
    ensures Resolve(DefaultFonts(), t) == ComputedDefault(t)
    ensures t.HeadingFont? ==> Resolve(DefaultFonts(), t) == System(30 - 2 * t.level, Semibold)
  {
  }

  /** After an override the listed types resolve to the new font; removing it brings back the default. */
  lemma OverrideThenResolve(fonts: Fonts, f: Font, types: seq<FontType>, t: FontType)
    requires t in types
    ensures Resolve(Overridden(fonts, Some(f), types), t) == f
    ensures Resolve(Overridden(Overridden(fonts, Some(f), types), None, types), t) == ComputedDefault(t)
  {
  }

  /** An override leaves the fonts of the other types as they were. */
  lemma OverrideLeavesOthers(fonts: Fonts, font: Option<Font>, types: seq<FontType>, t: FontType)
    requires t !in types
    ensures Resolve(Overridden(fonts, font, types), t) == Resolve(fonts, t)
  {
    OverriddenEntries(fonts, font, types, t);
  }

  /** Heading sizes are not clamped: a level-16 heading asks for a negative size. */
  lemma HeadingSizeUnclamped()
    ensures Resolve(DefaultFonts(), HeadingFont(16)) == System(-2, Semibold)
    ensures Resolve(DefaultFonts(), HeadingFont(0)) == System(30, Semibold)
  {
  }
}
