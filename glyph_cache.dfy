/**
 * The cache of rasterised shaped glyphs, keyed by (glyph id, collection
 * index). It remembers failures as well as glyphs, so a glyph that cannot
 * be rasterised is not tried again.
 */
module GlyphCaches {
  import opened Wrappers
  import opened FontStyles

  /** A shaped glyph's identity: its glyph id and the face it came from. */
  datatype GlyphCacheKey = GlyphCacheKey(glyphId: nat, fontIndex: CollectionIndex)

  /** Where a glyph sits in the atlas, and how to place it. */
  datatype CachedGlyph = CachedGlyph(
    atlasX: nat, atlasY: nat, width: nat, height: nat,
    bearingX: int, bearingY: int, isColored: bool)

  /** `CachedGlyph::empty`: a glyph with nothing to draw. */
  function EmptyGlyph(): (g: CachedGlyph)
    ensures g.atlasX == 0 && g.atlasY == 0 && g.width == 0 && g.height == 0
    ensures g.bearingX == 0 && g.bearingY == 0 && !g.isColored
  {
    CachedGlyph(0, 0, 0, 0, 0, 0, false)
  }

  /** The number of keys after storing under `key`: one more exactly when the key is new. */
  lemma InsertedSize<K, V>(m: map<K, V>, key: K, v: V)
    ensures |m[key := v]| == |m| + (if key in m then 0 else 1)
  {
    if key in m {
      assert m[key := v].Keys == m.Keys;
    } else {
      assert m[key := v].Keys == m.Keys + {key};
    }
  }

  class ShapedGlyphCache {
    var cache: map<GlyphCacheKey, Option<CachedGlyph>>

    constructor()
      ensures cache == map[] && IsEmpty()
    {
      cache := map[];
    }

    /** `get`: `None` when the key was never stored, `Some(None)` for a
        remembered failure, `Some(Some(g))` for a stored glyph. */
    function Get(key: GlyphCacheKey): (r: Option<Option<CachedGlyph>>)
      reads this
      ensures r.None? <==> !Contains(key)
      ensures r.Some? ==> r.value == cache[key]
    {
      if key in cache then Some(cache[key]) else None
    }

    /** `insert`: stores a glyph (or `None` for a failure), overwriting any earlier entry. */
    method Insert(key: GlyphCacheKey, glyph: Option<CachedGlyph>)
      modifies this
      ensures cache == old(cache)[key := glyph]
      ensures Get(key) == Some(glyph)
      ensures forall k :: k != key ==> Get(k) == old(Get(k))
      ensures Len() == old(Len()) + (if old(Contains(key)) then 0 else 1)
    {
      InsertedSize(cache, key, glyph);
      cache := cache[key := glyph];
    }

    predicate Contains(key: GlyphCacheKey)
      reads this
    {
      key in cache
    }

    /** `len`: the number of distinct keys stored. */
    function Len(): nat
      reads this
    {
      |cache|
    }

    predicate IsEmpty()
      reads this
    {
      Len() == 0
    }

    /** `clear`: forgets every entry. */
    method Clear()
      modifies this
      ensures cache == map[] && IsEmpty()
      ensures forall key :: !Contains(key)
    {
      cache := map[];
    }
  }
}
