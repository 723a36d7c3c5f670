/**
 * Colours, style flags and the highlight table that redraw events fill in.
 *
 * A colour is a packed 0xRRGGBBAA word; style flags are a 16-bit set; the
 * highlight map resolves ids to attributes, with id 0 and unknown ids reading
 * as the empty default attributes.
 */
module Highlight {
  import opened Wrappers

  /** An RGBA colour packed as 0xRRGGBBAA. */
  datatype Color = Color(value: bv32)

  /** Packs three channels with alpha 0xFF (`from_rgb`). */
  function FromRgb(r: bv8, g: bv8, b: bv8): (c: Color)
    ensures Red(c) == r && Green(c) == g && Blue(c) == b && Alpha(c) == 0xFF
  {
    Color((r as bv32 << 24) | (g as bv32 << 16) | (b as bv32 << 8) | 0xFF)
  }

  /** Unpacks a 24-bit 0xRRGGBB value as sent by Neovim (`from_u24`); bits above 24 are ignored. */
  function FromU24(rgb: bv32): (c: Color)
    ensures c.value == ((rgb & 0xFF_FFFF) << 8) | 0xFF
  {
    FromRgb(((rgb >> 16) & 0xFF) as bv8, ((rgb >> 8) & 0xFF) as bv8, (rgb & 0xFF) as bv8)
  }

  function Red(c: Color): bv8 { ((c.value >> 24) & 0xFF) as bv8 }

  function Green(c: Color): bv8 { ((c.value >> 16) & 0xFF) as bv8 }

  function Blue(c: Color): bv8 { ((c.value >> 8) & 0xFF) as bv8 }

  function Alpha(c: Color): bv8 { (c.value & 0xFF) as bv8 }

  /** Every opaque colour is `from_rgb` of its own channels. */
  lemma FromRgbOfChannels(c: Color)
    requires Alpha(c) == 0xFF
    ensures FromRgb(Red(c), Green(c), Blue(c)) == c
  {
  }

  /** Two inputs that agree on their low 24 bits give the same colour. */
  lemma FromU24Low24(x: bv32, y: bv32)
    requires x & 0xFF_FFFF == y & 0xFF_FFFF
    ensures FromU24(x) == FromU24(y)
  {
  }

  // Style flags (a 16-bit set).
  type StyleFlags = bv16

  const BOLD: StyleFlags := 0x001
  const ITALIC: StyleFlags := 0x002
  const UNDERLINE: StyleFlags := 0x004
  const UNDERCURL: StyleFlags := 0x008
  const UNDERDOUBLE: StyleFlags := 0x010
  const UNDERDOTTED: StyleFlags := 0x020
  const UNDERDASHED: StyleFlags := 0x040
  const STRIKETHROUGH: StyleFlags := 0x080
  const REVERSE: StyleFlags := 0x100
  const ALTFONT: StyleFlags := 0x200

  predicate Contains(flags: StyleFlags, flag: StyleFlags)
  {
    flags & flag == flag
  }

  datatype UnderlineStyle = NoUnderline | Single | Double | Curl | Dotted | Dashed

  /** The underline kind of a flag set; when several underline bits are set,
      curl wins over double, dotted, dashed and single in that order. */
  function UnderlineStyleOf(flags: StyleFlags): (u: UnderlineStyle)
    ensures u == Curl <==> Contains(flags, UNDERCURL)
    ensures u == Double <==> !Contains(flags, UNDERCURL) && Contains(flags, UNDERDOUBLE)
    ensures u == Dotted <==> !Contains(flags, UNDERCURL) && !Contains(flags, UNDERDOUBLE) && Contains(flags, UNDERDOTTED)
    ensures u == Dashed <==> !Contains(flags, UNDERCURL) && !Contains(flags, UNDERDOUBLE) && !Contains(flags, UNDERDOTTED)
                             && Contains(flags, UNDERDASHED)
    ensures u == Single <==> !Contains(flags, UNDERCURL) && !Contains(flags, UNDERDOUBLE) && !Contains(flags, UNDERDOTTED)
                             && !Contains(flags, UNDERDASHED) && Contains(flags, UNDERLINE)
    ensures u == NoUnderline <==> flags & 0x7C == 0
  {
    if Contains(flags, UNDERCURL) then Curl
    else if Contains(flags, UNDERDOUBLE) then Double
    else if Contains(flags, UNDERDOTTED) then Dotted
    else if Contains(flags, UNDERDASHED) then Dashed
    else if Contains(flags, UNDERLINE) then Single
    else NoUnderline
  }

  /** Attributes of one highlight id (`hl_attr_define`). */
  datatype HighlightAttributes = HighlightAttributes(
    foreground: Option<Color>,
    background: Option<Color>,
    special: Option<Color>,
    style: StyleFlags,
    blend: bv8,
    url: Option<string>)

  /** The attributes of id 0 and of every unknown id. */
  const DefaultAttrs := HighlightAttributes(None, None, None, 0, 0, None)

  datatype DefaultColors = DefaultColors(foreground: Color, background: Color, special: Color)

  /** The built-in default colours before `default_colors_set` arrives. */
  function InitialDefaults(): (d: DefaultColors)
    ensures Alpha(d.foreground) == 0xFF && Alpha(d.background) == 0xFF && Alpha(d.special) == 0xFF
    ensures d.foreground != d.background
  {
    DefaultColors(FromRgb(0xD4, 0xD4, 0xD4), FromRgb(0x1E, 0x1E, 0x1E), FromRgb(0xAE, 0xAF, 0xAD))
  }

  function IsBold(a: HighlightAttributes): bool { Contains(a.style, BOLD) }

  function IsItalic(a: HighlightAttributes): bool { Contains(a.style, ITALIC) }

  function HasStrikethrough(a: HighlightAttributes): bool { Contains(a.style, STRIKETHROUGH) }

  function UnderlineOf(a: HighlightAttributes): UnderlineStyle { UnderlineStyleOf(a.style) }

  /** The foreground to draw with: under REVERSE the background (or default background). */
  function EffectiveFg(a: HighlightAttributes, d: DefaultColors): (c: Color)
    ensures !Contains(a.style, REVERSE) ==> c == a.foreground.GetOr(d.foreground)
    ensures Contains(a.style, REVERSE) ==> c == a.background.GetOr(d.background)
  {
    if Contains(a.style, REVERSE) then a.background.GetOr(d.background)
    else a.foreground.GetOr(d.foreground)
  }

  /** The background to draw with: under REVERSE the foreground (or default foreground). */
  function EffectiveBg(a: HighlightAttributes, d: DefaultColors): (c: Color)
    ensures !Contains(a.style, REVERSE) ==> c == a.background.GetOr(d.background)
    ensures Contains(a.style, REVERSE) ==> c == a.foreground.GetOr(d.foreground)
  {
    if Contains(a.style, REVERSE) then a.foreground.GetOr(d.foreground)
    else a.background.GetOr(d.background)
  }

  /** The underline colour: special, else foreground, else the default special. */
  function EffectiveSpecial(a: HighlightAttributes, d: DefaultColors): (c: Color)
    ensures a.special.Some? ==> c == a.special.value
    ensures a.special.None? && a.foreground.Some? ==> c == a.foreground.value
    ensures a.special.None? && a.foreground.None? ==> c == d.special
  {
    match a.special
    case Some(s) => s
    case None => a.foreground.GetOr(d.special)
  }

  /** Turning REVERSE on exchanges the effective foreground and background. */
  lemma ReverseSwaps(a: HighlightAttributes, d: DefaultColors)
    ensures EffectiveFg(a.(style := a.style | REVERSE), d) == EffectiveBg(a.(style := a.style & !REVERSE), d)
    ensures EffectiveBg(a.(style := a.style | REVERSE), d) == EffectiveFg(a.(style := a.style & !REVERSE), d)
  {
  }

  /** The default attributes draw in the default colours with no decoration. */
  lemma DefaultAttrsColours(d: DefaultColors)
    ensures EffectiveFg(DefaultAttrs, d) == d.foreground && EffectiveBg(DefaultAttrs, d) == d.background
    ensures EffectiveSpecial(DefaultAttrs, d) == d.special
    ensures UnderlineOf(DefaultAttrs) == NoUnderline && !HasStrikethrough(DefaultAttrs)
    ensures !IsBold(DefaultAttrs) && !IsItalic(DefaultAttrs)
  {
  }

  /** The table after `define(id, attrs)`: id 0 is reserved and never stored. */
  function Defined(m: map<nat, HighlightAttributes>, id: nat, attrs: HighlightAttributes): (r: map<nat, HighlightAttributes>)
    ensures id == 0 ==> r == m
    ensures id != 0 ==> r.Keys == m.Keys + {id}
  {
    if id == 0 then m else m[id := attrs]
  }

  /** `get`: the stored attributes of a non-zero id, else the defaults. */
  function Lookup(m: map<nat, HighlightAttributes>, id: nat): (a: HighlightAttributes)
    ensures id == 0 || id !in m ==> a == DefaultAttrs
    ensures id != 0 && id in m ==> a == m[id]
  {
    if id == 0 then DefaultAttrs
    else if id in m then m[id] else DefaultAttrs
  }

  /** A lookup after a definition sees the new attributes for that id (unless
      it is 0) and the old answer for every other id. */
  lemma LookupDefined(m: map<nat, HighlightAttributes>, id: nat, attrs: HighlightAttributes, q: nat)
    ensures Lookup(Defined(m, id, attrs), q) == if q == id && id != 0 then attrs else Lookup(m, q)
  {
  }

  class HighlightMap {
    var attributes: map<nat, HighlightAttributes>
    var defaults: DefaultColors

    /** Id 0 is never stored. */
    ghost predicate Valid()
      reads this
    {
      0 !in attributes
    }

    constructor()
      ensures Valid() && attributes == map[] && defaults == InitialDefaults()
    {
      attributes := map[];
      defaults := InitialDefaults();
    }

    /** `define`: stores the attributes of a non-zero id, overwriting any earlier ones. */
    method Define(id: nat, attrs: HighlightAttributes)
      requires Valid()
      modifies this
      ensures Valid() && defaults == old(defaults)
      ensures attributes == Defined(old(attributes), id, attrs)
    {
      if id == 0 {
        return;
      }
      attributes := attributes[id := attrs];
    }

    /** `get`: the attributes stored for a non-zero id, else the defaults. */
    function Get(id: nat): (a: HighlightAttributes)
      reads this
      ensures id == 0 || id !in attributes ==> a == DefaultAttrs
      ensures id != 0 && id in attributes ==> a == attributes[id]
    {
      Lookup(attributes, id)
    }

    /** `set_defaults`: replaces all three default colours. */
    method SetDefaults(foreground: Color, background: Color, special: Color)
      modifies this
      ensures attributes == old(attributes)
      ensures defaults == DefaultColors(foreground, background, special)
    {
      defaults := DefaultColors(foreground, background, special);
    }

    /** `clear`: forgets every definition but keeps the defaults. */
    method Clear()
      modifies this
      ensures Valid() && attributes == map[] && defaults == old(defaults)
    {
      attributes := map[];
    }
  }
}
