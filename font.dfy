/**
 * The font system's small helpers: glyph bitmaps, the four style keys with
 * their fallback to the regular face, rasterisation with its size clamp,
 * and the per-character glyph cache.
 *
 * Loading a font and rasterising a glyph are done by the font library; here
 * their outcomes are inputs.
 */
module Fonts {
  import opened Wrappers
  import opened GlyphCaches

  /** A glyph bitmap: three bytes per pixel (coverage) or four (a colour glyph). */
  datatype GlyphBuffer = Rgb(data: seq<bv8>) | Rgba(data: seq<bv8>)

  /** `is_colored`: only RGBA bitmaps are colour glyphs. */
  predicate IsColored(b: GlyphBuffer)
  {
    b.Rgba?
  }

  /** `as_bytes`: the payload, whichever the layout. */
  function AsBytes(b: GlyphBuffer): (bytes: seq<bv8>)
    ensures bytes == b.data
  {
    match b
    case Rgb(data) => data
    case Rgba(data) => data
  }

  datatype RasterizedGlyph = RasterizedGlyph(
    character: char, width: nat, height: nat, bearingX: int, bearingY: int, buffer: GlyphBuffer)

  /** A glyph as the font library returns it; its width and height may be negative. */
  datatype RawGlyph = RawGlyph(width: int, height: int, left: int, top: int, buffer: GlyphBuffer)

  /** A loaded font, as the font library's opaque key. */
  type FontKey = nat

  datatype FontKeys = FontKeys(regular: FontKey, bold: FontKey, italic: FontKey, boldItalic: FontKey)

  /** `FontSystem::new`'s choice of keys: the configured family, else the
      platform default family, else failure; each variant that fails to load
      uses the regular key. */
  function LoadKeys(configured: Option<FontKey>, platformDefault: Option<FontKey>,
                    bold: Option<FontKey>, italic: Option<FontKey>, boldItalic: Option<FontKey>): (r: Option<FontKeys>)
    ensures r.None? <==> configured.None? && platformDefault.None?
    ensures r.Some? ==> r.value.regular == (if configured.Some? then configured.value else platformDefault.value)
    ensures r.Some? ==> r.value.bold == bold.GetOr(r.value.regular)
    ensures r.Some? ==> r.value.italic == italic.GetOr(r.value.regular)
    ensures r.Some? ==> r.value.boldItalic == boldItalic.GetOr(r.value.regular)
  {
    var regular :- if configured.Some? then configured else platformDefault;
    Some(FontKeys(regular, bold.GetOr(regular), italic.GetOr(regular), boldItalic.GetOr(regular)))
  }

  /** `font_key_for_style`. */
  function FontKeyForStyle(keys: FontKeys, bold: bool, italic: bool): (k: FontKey)
    ensures !bold && !italic ==> k == keys.regular
    ensures bold && !italic ==> k == keys.bold
    ensures !bold && italic ==> k == keys.italic
    ensures bold && italic ==> k == keys.boldItalic
  {
    match (bold, italic)
    case (false, false) => keys.regular
    case (true, false) => keys.bold
    case (false, true) => keys.italic
    case (true, true) => keys.boldItalic
  }

  /** When no variant loads, every style draws with the regular face. */
  lemma MissingVariantsUseRegular(configured: Option<FontKey>, platformDefault: Option<FontKey>, bold: bool, italic: bool)
    requires configured.Some? || platformDefault.Some?
    ensures var keys := LoadKeys(configured, platformDefault, None, None, None).value;
            FontKeyForStyle(keys, bold, italic) == keys.regular
  {
  }

  /** `rasterize`: the library's glyph, with a negative width or height clamped to 0. */
  function Rasterize(character: char, raw: Option<RawGlyph>): (r: Option<RasterizedGlyph>)
    ensures r.Some? <==> raw.Some?
    ensures r.Some? ==> r.value.width == (if raw.value.width < 0 then 0 else raw.value.width)
    ensures r.Some? ==> r.value.height == (if raw.value.height < 0 then 0 else raw.value.height)
    ensures r.Some? ==> r.value.character == character && r.value.buffer == raw.value.buffer
    ensures r.Some? ==> r.value.bearingX == raw.value.left && r.value.bearingY == raw.value.top
  {
    var g :- raw;
    Some(RasterizedGlyph(character, if g.width < 0 then 0 else g.width, if g.height < 0 then 0 else g.height,
                         g.left, g.top, g.buffer))
  }

  /** The identity of a character glyph: font, character and size. */
  datatype GlyphKey = GlyphKey(fontKey: FontKey, character: char, size: nat)

  /** The per-character glyph cache. */
  class GlyphCache {
    var cache: map<GlyphKey, CachedGlyph>

    constructor()
      ensures cache == map[]
    {
      cache := map[];
    }

    function Get(key: GlyphKey): (r: Option<CachedGlyph>)
      reads this
      ensures r.Some? <==> key in cache
      ensures r.Some? ==> r.value == cache[key]
    {
      if key in cache then Some(cache[key]) else None
    }

    method Insert(key: GlyphKey, glyph: CachedGlyph)
      modifies this
      ensures cache == old(cache)[key := glyph]
      ensures Get(key) == Some(glyph)
    {
      cache := cache[key := glyph];
    }

    method Clear()
      modifies this
      ensures cache == map[]
      ensures forall key :: Get(key).None?
    {
      cache := map[];
    }
  }
}
