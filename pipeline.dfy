/**
 * The per-instance record the quad shader reads: where a quad goes, which
 * part of the atlas it samples, its colour, and two flag bits telling the
 * shader whether to sample the atlas and whether the sampled texel already
 * carries its own colour. Coordinates are modelled as reals and colours as
 * opaque linear RGBA values compared by equality.
 */
module Pipeline {
  /** A linear-space RGBA colour (`[f32; 4]`). */
  datatype Rgba = Rgba(r: real, g: real, b: real, a: real)

  /** `QuadInstance`: position, size, atlas offset and size, colour, flags
      and three words of padding. */
  datatype QuadInstance = QuadInstance(
    x: real, y: real, width: real, height: real,
    uvX: real, uvY: real, uvW: real, uvH: real,
    color: Rgba,
    flags: bv32,
    padding: seq<bv32>)

  /** `FLAG_TEXTURED`: sample the glyph atlas. */
  const FlagTextured: bv32 := 1
  /** `FLAG_COLORED_GLYPH`: the atlas texel is already coloured (emoji). */
  const FlagColoredGlyph: bv32 := 2

  predicate IsTextured(q: QuadInstance)
  {
    q.flags & FlagTextured != 0
  }

  predicate IsColoredGlyph(q: QuadInstance)
  {
    q.flags & FlagColoredGlyph != 0
  }

  /** The two flags are distinct single bits, so each can be set and tested
      without disturbing the other. */
  lemma FlagsDisjoint()
    ensures FlagTextured & FlagColoredGlyph == 0
    ensures FlagTextured != 0 && FlagColoredGlyph != 0
    ensures FlagTextured | FlagColoredGlyph == 3
  {
  }

  /** `QuadInstance::background`: a solid quad with no texture sampling. */
  function Background(x: real, y: real, width: real, height: real, color: Rgba): (q: QuadInstance)
    ensures q.x == x && q.y == y && q.width == width && q.height == height && q.color == color
    ensures q.uvX == 0.0 && q.uvY == 0.0 && q.uvW == 0.0 && q.uvH == 0.0
    ensures !IsTextured(q) && !IsColoredGlyph(q) && q.flags == 0
    ensures q.padding == [0, 0, 0]
  {
    QuadInstance(x, y, width, height, 0.0, 0.0, 0.0, 0.0, color, 0, [0, 0, 0])
  }

  /** `QuadInstance::glyph`: a quad sampling the atlas, always textured and
      flagged coloured exactly when the glyph is. */
  function Glyph(x: real, y: real, width: real, height: real,
                 uvX: real, uvY: real, uvW: real, uvH: real,
                 color: Rgba, isColored: bool): (q: QuadInstance)
    ensures q.x == x && q.y == y && q.width == width && q.height == height && q.color == color
    ensures q.uvX == uvX && q.uvY == uvY && q.uvW == uvW && q.uvH == uvH
    ensures IsTextured(q)
    ensures IsColoredGlyph(q) <==> isColored
    ensures q.flags & !3 == 0
    ensures q.padding == [0, 0, 0]
  {
    var flags := FlagTextured | if isColored then FlagColoredGlyph else 0;
    QuadInstance(x, y, width, height, uvX, uvY, uvW, uvH, color, flags, [0, 0, 0])
  }

  /** The shader can tell the two kinds apart: no background quad is ever
      equal to a glyph quad. */
  lemma BackgroundIsNotGlyph(x: real, y: real, width: real, height: real, color: Rgba,
                             x': real, y': real, width': real, height': real,
                             uvX: real, uvY: real, uvW: real, uvH: real, color': Rgba, isColored: bool)
    ensures Background(x, y, width, height, color) != Glyph(x', y', width', height', uvX, uvY, uvW, uvH, color', isColored)
  {
    assert IsTextured(Glyph(x', y', width', height', uvX, uvY, uvW, uvH, color', isColored));
  }
}
