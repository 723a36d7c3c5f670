/**
 * The glyph atlas: a square texture filled by a shelf packer (glyphs are
 * placed left to right in rows; a glyph that does not fit starts a new row
 * below the tallest glyph of the current one), fronted by caches that also
 * remember rasterisation failures. The atlas never evicts: once full, an
 * allocation fails.
 *
 * The texture itself is a GPU resource and is not modelled; the packer's
 * placements are recorded as ghost rectangles so that their disjointness can
 * be stated.
 */
module Atlas {
  import opened Wrappers
  import opened GlyphCaches
  import opened Fonts

  const AtlasSize: nat := 1024
  const AtlasPadding: nat := 1

  /** The shelf packer's state: the next free x in the current row, the row's top, and its height so far. */
  datatype Packer = Packer(x: nat, y: nat, rowHeight: nat)

  const EmptyPacker := Packer(0, 0, 0)

  /** `allocate`: place a `w`×`h` glyph (plus one pixel of padding each way)
      in the current row if it fits horizontally, else at the start of a new
      row if that fits vertically, else nowhere (the state then stays as it was). */
  function AllocateStep(p: Packer, size: nat, w: nat, h: nat): (r: (Option<(nat, nat)>, Packer))
    ensures p.x + w + AtlasPadding <= size ==>
      r.0 == Some((p.x, p.y)) && r.1 == Packer(p.x + w + AtlasPadding, p.y, Max(p.rowHeight, h + AtlasPadding))
    ensures p.x + w + AtlasPadding > size && p.y + p.rowHeight + h + AtlasPadding <= size ==>
      r.0.Some? && r.0.value.0 == 0 && r.0.value.1 == p.y + p.rowHeight && r.1 == Packer(w + AtlasPadding, p.y + p.rowHeight, h + AtlasPadding)
    ensures r.0.None? <==> p.x + w + AtlasPadding > size && p.y + p.rowHeight + h + AtlasPadding > size
    ensures r.0.None? ==> r.1 == p
  {
    var paddedWidth := w + AtlasPadding;
    var paddedHeight := h + AtlasPadding;
    if p.x + paddedWidth <= size then
      (Some((p.x, p.y)), Packer(p.x + paddedWidth, p.y, Max(p.rowHeight, paddedHeight)))
    else
      var newRowY := p.y + p.rowHeight;
      if newRowY + paddedHeight > size then (None, p)
      else (Some((0, newRowY)), Packer(paddedWidth, newRowY, paddedHeight))
  }

  function Max(a: nat, b: nat): nat
  {
    if a >= b then a else b
  }

  /** A padded placement in the atlas. */
  datatype Rect = Rect(x: nat, y: nat, w: nat, h: nat)

  predicate Disjoint(a: Rect, b: Rect)
  {
    a.x + a.w <= b.x || b.x + b.w <= a.x || a.y + a.h <= b.y || b.y + b.h <= a.y
  }

  /** A placement lies either in the current row, left of the free x and no
      taller than the row, or entirely above the current row. */
  predicate Behind(r: Rect, p: Packer)
  {
    (r.y == p.y && r.x + r.w <= p.x && r.h <= p.rowHeight) || r.y + r.h <= p.y
  }

  /** The packer's invariant over everything placed so far. */
  predicate Packed(p: Packer, placed: seq<Rect>)
  {
    (forall i, j :: 0 <= i < j < |placed| ==> Disjoint(placed[i], placed[j]))
    && (forall i :: 0 <= i < |placed| ==> Behind(placed[i], p))
  }

  /** A successful allocation keeps every placement disjoint from every other:
      the new rectangle is added and the invariant still holds. (Placements
      are not claimed to stay inside the atlas: the new-row branch does not
      re-check the width.) */
  lemma AllocateKeepsDisjoint(p: Packer, placed: seq<Rect>, size: nat, w: nat, h: nat)
    requires Packed(p, placed)
    requires AllocateStep(p, size, w, h).0.Some?
    ensures var (pos, p') := AllocateStep(p, size, w, h);
            Packed(p', placed + [Rect(pos.value.0, pos.value.1, w + AtlasPadding, h + AtlasPadding)])
  {
    var (pos, p') := AllocateStep(p, size, w, h);
    var r := Rect(pos.value.0, pos.value.1, w + AtlasPadding, h + AtlasPadding);
    var placed' := placed + [r];
    forall i | 0 <= i < |placed|
      ensures Disjoint(placed[i], r) && Behind(placed[i], p')
    {
      assert Behind(placed[i], p);
    }
    assert Behind(r, p');
    forall i, j | 0 <= i < j < |placed'|
      ensures Disjoint(placed'[i], placed'[j])
    {
      if j == |placed| {
        assert placed'[i] == placed[i];
      } else {
        assert placed'[i] == placed[i] && placed'[j] == placed[j];
      }
    }
  }

  /** What a cache miss does with the rasteriser's answer: the glyph to return,
      whether the answer is remembered, and the packer afterwards. A failure is
      remembered as `None`; a zero-size glyph is remembered at (0, 0) without
      using atlas space; an allocation failure is not remembered. */
  function Miss(raster: Option<RasterizedGlyph>, p: Packer, size: nat): (r: (Option<CachedGlyph>, bool, Packer))
    ensures raster.None? ==> r == (None, true, p)
    ensures raster.Some? && (raster.value.width == 0 || raster.value.height == 0) ==>
      r == (Some(CachedGlyph(0, 0, 0, 0, raster.value.bearingX, raster.value.bearingY, IsColored(raster.value.buffer))), true, p)
    ensures raster.Some? && raster.value.width > 0 && raster.value.height > 0 ==>
      var (pos, p') := AllocateStep(p, size, raster.value.width, raster.value.height);
      if pos.None? then r == (None, false, p)
      else r == (Some(CachedGlyph(pos.value.0, pos.value.1, raster.value.width, raster.value.height,
                                  raster.value.bearingX, raster.value.bearingY, IsColored(raster.value.buffer))), true, p')
  {
    match raster
    case None => (None, true, p)
    case Some(g) =>
      if g.width == 0 || g.height == 0 then
        (Some(CachedGlyph(0, 0, 0, 0, g.bearingX, g.bearingY, IsColored(g.buffer))), true, p)
      else
        var (pos, p') := AllocateStep(p, size, g.width, g.height);
        match pos
        case None => (None, false, p)
        case Some((x, y)) => (Some(CachedGlyph(x, y, g.width, g.height, g.bearingX, g.bearingY, IsColored(g.buffer))), true, p')
  }

  /** The placements a miss adds: one padded rectangle when it allocated. */
  ghost function MissPlaced(raster: Option<RasterizedGlyph>, p: Packer, size: nat, placed: seq<Rect>): seq<Rect>
  {
    if raster.Some? && raster.value.width > 0 && raster.value.height > 0
       && AllocateStep(p, size, raster.value.width, raster.value.height).0.Some?
    then
      var pos := AllocateStep(p, size, raster.value.width, raster.value.height).0.value;
      placed + [Rect(pos.0, pos.1, raster.value.width + AtlasPadding, raster.value.height + AtlasPadding)]
    else placed
  }

  /** A miss keeps the packing invariant. */
  lemma MissKeepsPacked(raster: Option<RasterizedGlyph>, p: Packer, size: nat, placed: seq<Rect>)
    requires Packed(p, placed)
    ensures Packed(Miss(raster, p, size).2, MissPlaced(raster, p, size, placed))
  {
    if raster.Some? && raster.value.width > 0 && raster.value.height > 0
       && AllocateStep(p, size, raster.value.width, raster.value.height).0.Some? {
      AllocateKeepsDisjoint(p, placed, size, raster.value.width, raster.value.height);
    }
  }

  /** One RGBA pixel from a coverage bitmap: white with the mean of the three
      channels as alpha, or transparent black when the data runs short. */
  function RgbPixel(data: seq<bv8>, i: nat): (px: seq<bv8>)
    ensures |px| == 4
  {
    if i * 3 + 2 < |data| then [255, 255, 255, CoverageAlpha(data[i * 3], data[i * 3 + 1], data[i * 3 + 2])]
    else [0, 0, 0, 0]
  }

  /** The mean of the three coverage channels. */
  function CoverageAlpha(r: bv8, g: bv8, b: bv8): bv8
  {
    ((r as bv32 + g as bv32 + b as bv32) / 3) as bv8
  }

  /** The first `n` converted pixels. */
  function RgbPixels(data: seq<bv8>, n: nat): (r: seq<bv8>)
    ensures |r| == 4 * n
  {
    if n == 0 then [] else RgbPixels(data, n - 1) + RgbPixel(data, n - 1)
  }

  /** Pixel `i` of the conversion is the conversion of source pixel `i`. */
  lemma {:induction false} RgbPixelsAt(data: seq<bv8>, n: nat, i: nat)
    requires i < n
    ensures RgbPixels(data, n)[4 * i..4 * i + 4] == RgbPixel(data, i)
  {
    if i < n - 1 {
      RgbPixelsAt(data, n - 1, i);
      PixelInFront(data, n, i);
    } else {
      PixelAtEnd(data, n, i);
    }
  }

  /** Converting one more pixel leaves the earlier pixels where they were. */
  lemma PixelInFront(data: seq<bv8>, n: nat, i: nat)
    requires i < n - 1
    ensures RgbPixels(data, n)[4 * i..4 * i + 4] == RgbPixels(data, n - 1)[4 * i..4 * i + 4]
  {
    BlockInside(i, n - 1);
    SliceOfFront(RgbPixels(data, n - 1), RgbPixel(data, n - 1), 4 * i, 4 * i + 4);
  }

  /** The last converted pixel is the conversion of the last source pixel. */
  lemma PixelAtEnd(data: seq<bv8>, n: nat, i: nat)
    requires i + 1 == n
    ensures RgbPixels(data, n)[4 * i..4 * i + 4] == RgbPixel(data, i)
  {
    SliceOfBack(RgbPixels(data, n - 1), RgbPixel(data, n - 1));
  }

  /** Pixel `i` of `m` pixels ends within them. */
  lemma BlockInside(i: nat, m: nat)
    requires i < m
    ensures 4 * i + 4 <= 4 * m
  {
  }

  /** The second part of a concatenation is the slice after the first part. */
  lemma SliceOfBack(a: seq<bv8>, b: seq<bv8>)
    ensures (a + b)[|a|..|a| + |b|] == b
  {
  }

  /** A slice that lies within the first part of a concatenation is a slice of that part. */
  lemma SliceOfFront(a: seq<bv8>, b: seq<bv8>, lo: nat, hi: nat)
    requires lo <= hi <= |a|
    ensures (a + b)[lo..hi] == a[lo..hi]
  {
  }

  /** `to_rgba` as a value. */
  function ToRgbaSpec(buffer: GlyphBuffer, pixelCount: nat): seq<bv8>
  {
    match buffer
    case Rgb(data) => RgbPixels(data, pixelCount)
    case Rgba(data) => if |data| == pixelCount * 4 then data else seq(pixelCount * 4, _ => 0)
  }

  /** The converted bitmap always has four bytes per pixel; an RGBA bitmap of
      the right length passes through, one of the wrong length becomes all zeros. */
  lemma ToRgbaShape(buffer: GlyphBuffer, pixelCount: nat)
    ensures |ToRgbaSpec(buffer, pixelCount)| == 4 * pixelCount
    ensures buffer.Rgba? && |buffer.data| == 4 * pixelCount ==> ToRgbaSpec(buffer, pixelCount) == buffer.data
    ensures buffer.Rgba? && |buffer.data| != 4 * pixelCount ==> forall k :: 0 <= k < 4 * pixelCount ==> ToRgbaSpec(buffer, pixelCount)[k] == 0
  {
  }

  /** `to_rgba`: converts a glyph bitmap to RGBA, one pixel at a time for coverage bitmaps. */
  method ToRgba(buffer: GlyphBuffer, width: nat, height: nat) returns (rgba: seq<bv8>)
    ensures rgba == ToRgbaSpec(buffer, width * height)
    ensures |rgba| == 4 * (width * height)
    ensures buffer.Rgb? ==> forall i :: 0 <= i < width * height ==> rgba[4 * i..4 * i + 4] == RgbPixel(buffer.data, i)
  {
    var pixelCount := width * height;
    match buffer {
      case Rgb(data) =>
        rgba := CoverageToRgba(data, pixelCount);
        RgbPixelsEach(data, pixelCount);
      case Rgba(data) =>
        if |data| == pixelCount * 4 {
          rgba := data;
        } else {
          rgba := seq(pixelCount * 4, _ => 0);
        }
    }
  }

  /** The coverage-bitmap loop of `to_rgba`. */
  method CoverageToRgba(data: seq<bv8>, pixelCount: nat) returns (rgba: seq<bv8>)
    ensures rgba == RgbPixels(data, pixelCount)
  {
    rgba := [];
    for i := 0 to pixelCount
      invariant rgba == RgbPixels(data, i)
    {
      var px: seq<bv8>;
      if i * 3 + 2 < |data| {
        px := [255, 255, 255, CoverageAlpha(data[i * 3], data[i * 3 + 1], data[i * 3 + 2])];
      } else {
        px := [0, 0, 0, 0];
      }
      rgba := rgba + px;
    }
  }

  /** Every pixel of the conversion is the conversion of the source pixel at the same position. */
  lemma RgbPixelsEach(data: seq<bv8>, n: nat)
    ensures forall i :: 0 <= i < n ==> RgbPixels(data, n)[4 * i..4 * i + 4] == RgbPixel(data, i)
  {
    forall i | 0 <= i < n
      ensures RgbPixels(data, n)[4 * i..4 * i + 4] == RgbPixel(data, i)
    {
      RgbPixelsAt(data, n, i);
    }
  }

  class GlyphAtlas {
    const size: nat
    var rowX: nat
    var rowY: nat
    var rowHeight: nat
    /** The per-character cache: `None` remembers a rasterisation failure. */
    var cache: map<GlyphKey, Option<CachedGlyph>>
    const shapedCache: ShapedGlyphCache
    /** Every padded rectangle handed out since the last `clear`. */
    ghost var placed: seq<Rect>

    function PackerState(): Packer
      reads this
    {
      Packer(rowX, rowY, rowHeight)
    }

    ghost predicate Valid()
      reads this
    {
      Packed(PackerState(), placed)
    }

    /** `new`: an empty atlas of the fixed size with empty caches. */
    constructor()
      ensures Valid() && size == AtlasSize && PackerState() == EmptyPacker
      ensures cache == map[] && shapedCache.cache == map[] && placed == []
      ensures fresh(shapedCache)
    {
      size := AtlasSize;
      rowX, rowY, rowHeight := 0, 0, 0;
      cache := map[];
      shapedCache := new ShapedGlyphCache();
      placed := [];
    }

    /** `allocate`. */
    method Allocate(w: nat, h: nat) returns (r: Option<(nat, nat)>)
      requires Valid()
      modifies this
      ensures Valid() && cache == old(cache)
      ensures (r, PackerState()) == AllocateStep(old(PackerState()), size, w, h)
      ensures r.Some? ==> placed == old(placed) + [Rect(r.value.0, r.value.1, w + AtlasPadding, h + AtlasPadding)]
      ensures r.None? ==> placed == old(placed)
    {
      ghost var step := AllocateStep(PackerState(), size, w, h);
      if step.0.Some? {
        AllocateKeepsDisjoint(PackerState(), placed, size, w, h);
      }
      var paddedWidth := w + AtlasPadding;
      var paddedHeight := h + AtlasPadding;
      if rowX + paddedWidth <= size {
        var x, y := rowX, rowY;
        rowX := rowX + paddedWidth;
        rowHeight := Max(rowHeight, paddedHeight);
        placed := placed + [Rect(x, y, paddedWidth, paddedHeight)];
        return Some((x, y));
      }
      var newRowY := rowY + rowHeight;
      if newRowY + paddedHeight > size {
        return None;
      }
      rowY := newRowY;
      rowX := paddedWidth;
      rowHeight := paddedHeight;
      placed := placed + [Rect(0, newRowY, paddedWidth, paddedHeight)];
      return Some((0, newRowY));
    }

    /** The shared miss path of `get_glyph` and `get_glyph_by_id`: cached
        failure, zero-size glyph, or allocation. */
    method MissPath(raster: Option<RasterizedGlyph>) returns (g: Option<CachedGlyph>, remember: bool)
      requires Valid()
      modifies this
      ensures Valid() && cache == old(cache)
      ensures (g, remember, PackerState()) == Miss(raster, old(PackerState()), size)
      ensures placed == MissPlaced(raster, old(PackerState()), size, old(placed))
    {
      if raster.None? {
        return None, true;
      }
      var glyph := raster.value;
      if glyph.width == 0 || glyph.height == 0 {
        return Some(CachedGlyph(0, 0, 0, 0, glyph.bearingX, glyph.bearingY, IsColored(glyph.buffer))), true;
      }
      var pos := Allocate(glyph.width, glyph.height);
      if pos.None? {
        return None, false;
      }
      var (x, y) := pos.value;
      return Some(CachedGlyph(x, y, glyph.width, glyph.height, glyph.bearingX, glyph.bearingY, IsColored(glyph.buffer))), true;
    }

    /** `get_glyph`: a cached answer (glyph or failure) is returned without
        rasterising; on a miss `raster` is the rasteriser's answer for the key. */
    method GetGlyph(key: GlyphKey, raster: Option<RasterizedGlyph>) returns (r: Option<CachedGlyph>)
      requires Valid()
      modifies this
      ensures Valid()
      ensures key in old(cache) ==> r == old(cache)[key] && cache == old(cache) && PackerState() == old(PackerState())
      ensures key !in old(cache) ==>
        var (g, remember, p') := Miss(raster, old(PackerState()), size);
        r == g && PackerState() == p' && cache == (if remember then old(cache)[key := g] else old(cache))
      ensures forall k :: k in old(cache) ==> k in cache && cache[k] == old(cache)[k]
    {
      if key in cache {
        return cache[key];
      }
      var remember;
      r, remember := MissPath(raster);
      if remember {
        cache := cache[key := r];
      }
    }

    /** `get_glyph_by_id`: the same policy over the shaped-glyph cache; a key
        whose face the collection does not have yields `None` and is not
        remembered. `face` is the collection's face for the key, `raster` the
        face's rendering of the glyph. */
    method GetGlyphById(key: GlyphCacheKey, hasFace: bool, raster: Option<RasterizedGlyph>) returns (r: Option<CachedGlyph>)
      requires Valid()
      modifies this, shapedCache
      ensures Valid() && cache == old(cache)
      ensures old(shapedCache.Get(key)).Some? ==>
        r == old(shapedCache.cache[key]) && shapedCache.cache == old(shapedCache.cache) && PackerState() == old(PackerState())
      ensures old(shapedCache.Get(key)).None? && !hasFace ==>
        r.None? && shapedCache.cache == old(shapedCache.cache) && PackerState() == old(PackerState())
      ensures old(shapedCache.Get(key)).None? && hasFace ==>
        var (g, remember, p') := Miss(raster, old(PackerState()), size);
        r == g && PackerState() == p'
        && shapedCache.cache == (if remember then old(shapedCache.cache)[key := g] else old(shapedCache.cache))
    {
      var cached := shapedCache.Get(key);
      if cached.Some? {
        return cached.value;
      }
      if !hasFace {
        return None;
      }
      var remember;
      r, remember := MissPath(raster);
      if remember {
        shapedCache.Insert(key, r);
      }
    }

    /** `clear`: empties both caches and restarts packing at the top-left
        (the texture is recreated, so nothing placed before survives). */
    method Clear()
      modifies this, shapedCache
      ensures Valid() && PackerState() == EmptyPacker && placed == []
      ensures cache == map[] && shapedCache.cache == map[]
    {
      cache := map[];
      shapedCache.Clear();
      rowX, rowY, rowHeight := 0, 0, 0;
      placed := [];
    }

    /** `prepopulate_ascii`: looks up every printable ASCII character (space
        to tilde) in the regular font. Afterwards each of them is cached,
        except one whose non-empty glyph found no room; earlier entries are kept. */
    method PrepopulateAscii(fontKey: FontKey, fontSize: nat, raster: char -> Option<RasterizedGlyph>)
      requires Valid()
      modifies this
      ensures Valid()
      ensures forall k :: k in old(cache) ==> k in cache && cache[k] == old(cache)[k]
      ensures forall code :: 32 <= code < 127 ==> AsciiSettled(cache, fontKey, fontSize, raster, code)
    {
      for code := 32 to 127
        invariant Valid()
        invariant forall k :: k in old(cache) ==> k in cache && cache[k] == old(cache)[k]
        invariant forall c :: 32 <= c < code ==> AsciiSettled(cache, fontKey, fontSize, raster, c)
      {
        var ch := code as char;
        ghost var before := cache;
        var _ := GetGlyph(GlyphKey(fontKey, ch, fontSize), raster(ch));
        forall c | 32 <= c < code
          ensures AsciiSettled(cache, fontKey, fontSize, raster, c)
        {
          assert AsciiSettled(before, fontKey, fontSize, raster, c);
        }
        assert AsciiSettled(cache, fontKey, fontSize, raster, code);
      }
    }
  }

  /** After prepopulation, character `code` is cached, unless it has a
      non-empty glyph (which may have found no room in the atlas). */
  predicate AsciiSettled(cache: map<GlyphKey, Option<CachedGlyph>>, fontKey: FontKey, fontSize: nat,
                         raster: char -> Option<RasterizedGlyph>, code: nat)
    requires 32 <= code < 127
  {
    GlyphKey(fontKey, code as char, fontSize) in cache
    || (raster(code as char).Some? && raster(code as char).value.width > 0 && raster(code as char).value.height > 0)
  }
}
