/**
 * The grid renderer: each frame it empties the three quad batches, walks the
 * main grid row by row and cell by cell emitting a background quad, a glyph
 * quad and decoration quads for each cell as its highlight calls for, adds
 * the cursor, and uploads the batches.
 *
 * The frame's quads are specified by pure functions of the grid, the
 * highlight table and the renderer's fixed configuration; the methods that
 * push them are proved to produce exactly those quads.
 */
module GridRendering {
  import opened Wrappers
  import opened Cells
  import opened Highlight
  import opened EditorStates
  import opened Fonts
  import opened GlyphCaches
  import opened Pipeline
  import opened Batches
  import opened Geometry
  import Grids
  import Atlas

  /** `u64::MAX`, the "no highlight yet" value the per-row colour cache starts from. */
  const U64Max: nat := 0xFFFF_FFFF_FFFF_FFFF

  /** What a frame is drawn with: the cell size, the font's line metrics, its
      style variants and size, and the colour conversion `u32_to_linear_rgba`,
      none of which change during the frame; and a snapshot of the atlas's
      answer for each glyph key. The atlas itself can still allocate during
      the frame, so the snapshot stands for the answers it gives in it. */
  datatype RenderConfig = RenderConfig(
    cellWidth: real,
    cellHeight: real,
    metrics: LineMetrics,
    fontKeys: FontKeys,
    fontSize: nat,
    toLinear: bv32 -> Rgba,
    atlasGlyph: GlyphKey -> Option<CachedGlyph>)

  /** A highlight colour (`0xRRGGBBAA`) as the linear colour of its RGB part. */
  function LinearOf(cfg: RenderConfig, c: Color): Rgba
  {
    cfg.toLinear(c.value >> 8)
  }

  /** The colour an optional highlight colour stands for, or `otherwise`. */
  function ColorOr(cfg: RenderConfig, c: Option<Color>, otherwise: Rgba): (r: Rgba)
    ensures c.None? ==> r == otherwise
    ensures c.Some? ==> r == LinearOf(cfg, c.value)
  {
    match c
    case Some(v) => LinearOf(cfg, v)
    case None => otherwise
  }

  /** `resolve_colors`: the attribute colours, or the defaults where unset,
      exchanged under REVERSE. Returns (background, foreground). */
  function ResolveColors(cfg: RenderConfig, attrs: HighlightAttributes, defaultBg: Rgba, defaultFg: Rgba): (r: (Rgba, Rgba))
    ensures !Contains(attrs.style, REVERSE) ==>
      r == (ColorOr(cfg, attrs.background, defaultBg), ColorOr(cfg, attrs.foreground, defaultFg))
    ensures Contains(attrs.style, REVERSE) ==>
      r == (ColorOr(cfg, attrs.foreground, defaultFg), ColorOr(cfg, attrs.background, defaultBg))
  {
    var bg := ColorOr(cfg, attrs.background, defaultBg);
    var fg := ColorOr(cfg, attrs.foreground, defaultFg);
    if Contains(attrs.style, REVERSE) then (fg, bg) else (bg, fg)
  }

  /** With the table's default colours as the defaults, the renderer draws
      each highlight in the highlight table's effective colours. */
  lemma ResolveMatchesEffective(cfg: RenderConfig, attrs: HighlightAttributes, d: DefaultColors)
    ensures ResolveColors(cfg, attrs, LinearOf(cfg, d.background), LinearOf(cfg, d.foreground))
         == (LinearOf(cfg, EffectiveBg(attrs, d)), LinearOf(cfg, EffectiveFg(attrs, d)))
  {
  }

  /** The default highlight is drawn in the default colours. */
  lemma ResolveDefault(cfg: RenderConfig, defaultBg: Rgba, defaultFg: Rgba)
    ensures ResolveColors(cfg, DefaultAttrs, defaultBg, defaultFg) == (defaultBg, defaultFg)
  {
    assert !Contains(DefaultAttrs.style, REVERSE);
  }

  /** `push_cell_background`'s quads: one cell-sized quad, only when the
      cell's background differs from the default one (which the clear
      colour already paints). */
  function BackgroundQuads(cfg: RenderConfig, x: real, y: real, bg: Rgba, defaultBg: Rgba): (r: seq<QuadInstance>)
    ensures |r| == (if bg != defaultBg then 1 else 0)
    ensures bg != defaultBg ==> r[0] == Background(x, y, cfg.cellWidth, cfg.cellHeight, bg)
  {
    if bg != defaultBg then [Background(x, y, cfg.cellWidth, cfg.cellHeight, bg)] else []
  }

  /** The atlas's side length, by which texel coordinates are divided to give UV coordinates. */
  const AtlasExtent: real := Atlas.AtlasSize as real

  /** A cell that may carry a glyph: not blank, not the right half of a wide
      character, and with at least one character. */
  predicate HasGlyphText(cell: Cell)
  {
    !IsEmpty(cell) && !IsWideSpacer(cell) && |cell.text| > 0
  }

  /** The atlas's answer for a cell's first character in the font variant of
      its highlight. */
  function GlyphFor(cfg: RenderConfig, cell: Cell, attrs: HighlightAttributes): Option<CachedGlyph>
    requires |cell.text| > 0
  {
    cfg.atlasGlyph(GlyphKey(FontKeyForStyle(cfg.fontKeys, IsBold(attrs), IsItalic(attrs)), cell.text[0], cfg.fontSize))
  }

  /** `push_cell_glyph`'s quads: the cell's first character, when the atlas
      has a non-empty glyph for it, placed at its bearing from the cell's
      left edge and baseline and sampled from its atlas rectangle. */
  function GlyphQuads(cfg: RenderConfig, x: real, y: real, cell: Cell, attrs: HighlightAttributes, fg: Rgba): (r: seq<QuadInstance>)
    ensures |r| <= 1
    ensures |r| == 1 <==>
      HasGlyphText(cell) && GlyphFor(cfg, cell, attrs).Some?
      && GlyphFor(cfg, cell, attrs).value.width > 0 && GlyphFor(cfg, cell, attrs).value.height > 0
    ensures |r| == 1 ==>
      var g := GlyphFor(cfg, cell, attrs).value;
      && IsTextured(r[0]) && (IsColoredGlyph(r[0]) <==> g.isColored) && r[0].color == fg
      && r[0].x == x + g.bearingX as real
      && r[0].y + g.bearingY as real == Baseline(y, cfg.cellHeight, cfg.metrics)
      && r[0].width == g.width as real && r[0].height == g.height as real
      && r[0].uvX == g.atlasX as real / AtlasExtent && r[0].uvY == g.atlasY as real / AtlasExtent
      && r[0].uvW == g.width as real / AtlasExtent && r[0].uvH == g.height as real / AtlasExtent
  {
    if !HasGlyphText(cell) then []
    else
      match GlyphFor(cfg, cell, attrs)
      case None => []
      case Some(g) =>
        if g.width > 0 && g.height > 0 then
          var size := AtlasExtent;
          [Glyph(x + g.bearingX as real, y + (cfg.cellHeight - Abs(cfg.metrics.descent) - g.bearingY as real),
                 g.width as real, g.height as real,
                 g.atlasX as real / size, g.atlasY as real / size, g.width as real / size, g.height as real / size,
                 fg, g.isColored)]
        else []
  }

  /** The colour of underlines: the highlight's special colour, else the foreground. */
  function SpecialColor(cfg: RenderConfig, attrs: HighlightAttributes, fg: Rgba): Rgba
  {
    ColorOr(cfg, attrs.special, fg)
  }

  /** `push_cell_decorations`'s quads: one untextured quad per decoration
      line, underlines in the special colour and the strikethrough in the
      foreground. */
  function DecorationQuads(cfg: RenderConfig, x: real, y: real, attrs: HighlightAttributes, fg: Rgba): (r: seq<QuadInstance>)
    ensures UnderlineOf(attrs) == NoUnderline && !HasStrikethrough(attrs) ==> r == []
    ensures |r| == UnderlineCount(UnderlineOf(attrs)) + (if HasStrikethrough(attrs) then 1 else 0)
    ensures forall i :: 0 <= i < |r| ==> !IsTextured(r[i]) && r[i].x == x && r[i].width == cfg.cellWidth
    ensures forall i :: 0 <= i < |r| ==>
      r[i].color == (if i < UnderlineCount(UnderlineOf(attrs)) then SpecialColor(cfg, attrs, fg) else fg)
  {
    var lines := DecorationGeometry(x, y, cfg.cellWidth, cfg.cellHeight, cfg.metrics, UnderlineOf(attrs), HasStrikethrough(attrs));
    var count := UnderlineCount(UnderlineOf(attrs));
    seq(|lines|, i requires 0 <= i < |lines| =>
      Background(lines[i].x, lines[i].y, lines[i].width, lines[i].height,
                 if i < count then SpecialColor(cfg, attrs, fg) else fg))
  }

  /** The left edge of column `col`. */
  function CellX(cfg: RenderConfig, col: nat): real
  {
    col as real * cfg.cellWidth
  }

  /** The top edge of row `row`. */
  function CellY(cfg: RenderConfig, row: nat): real
  {
    row as real * cfg.cellHeight
  }

  /** What a cell at `(x, y)` contributes given its attributes and resolved
      colours: its background, then its glyph, then its decorations. */
  function CellQuadsAt(cfg: RenderConfig, x: real, y: real, cell: Cell, attrs: HighlightAttributes,
                       bg: Rgba, fg: Rgba, defaultBg: Rgba): Quads
  {
    Quads(BackgroundQuads(cfg, x, y, bg, defaultBg), GlyphQuads(cfg, x, y, cell, attrs, fg), DecorationQuads(cfg, x, y, attrs, fg))
  }

  /** Everything one grid cell contributes, in its highlight's resolved colours. */
  function CellQuads(cfg: RenderConfig, row: nat, col: nat, cell: Cell, m: map<nat, HighlightAttributes>,
                     defaultBg: Rgba, defaultFg: Rgba): Quads
  {
    var attrs := Lookup(m, cell.highlightId);
    var colors := ResolveColors(cfg, attrs, defaultBg, defaultFg);
    CellQuadsAt(cfg, CellX(cfg, col), CellY(cfg, row), cell, attrs, colors.0, colors.1, defaultBg)
  }

  /** The quads of one row's cells, left to right. */
  function RowQuads(cfg: RenderConfig, rowCells: seq<Cell>, row: nat, m: map<nat, HighlightAttributes>,
                    defaultBg: Rgba, defaultFg: Rgba): Quads
    decreases |rowCells|
  {
    if |rowCells| == 0 then NoQuads
    else
      var last := |rowCells| - 1;
      RowQuads(cfg, rowCells[..last], row, m, defaultBg, defaultFg)
        .Then(CellQuads(cfg, row, last, rowCells[last], m, defaultBg, defaultFg))
  }

  /** The quads of the first `rows` rows of a grid `width` cells wide, top to bottom. */
  function GridRows(cfg: RenderConfig, cells: seq<Cell>, width: nat, rows: nat, m: map<nat, HighlightAttributes>,
                    defaultBg: Rgba, defaultFg: Rgba): Quads
    requires rows * width <= |cells|
  {
    if rows == 0 then NoQuads
    else
      Grids.MulMono(rows - 1, rows, width);
      GridRows(cfg, cells, width, rows - 1, m, defaultBg, defaultFg)
        .Then(RowQuads(cfg, cells[(rows - 1) * width..rows * width], rows - 1, m, defaultBg, defaultFg))
  }

  /** Row `row` of a grid `width` cells wide and `height` rows tall lies
      inside its cells. */
  lemma RowSpan(row: nat, height: nat, width: nat)
    requires row < height
    ensures (row + 1) * width == row * width + width && row * width + width <= width * height
  {
    Grids.MulMono(row + 1, height, width);
  }

  /** One more row appends that row's quads. */
  lemma GridRowsStep(cfg: RenderConfig, cells: seq<Cell>, width: nat, row: nat, m: map<nat, HighlightAttributes>,
                     defaultBg: Rgba, defaultFg: Rgba)
    requires (row + 1) * width <= |cells| && (row + 1) * width == row * width + width
    ensures GridRows(cfg, cells, width, row + 1, m, defaultBg, defaultFg)
         == GridRows(cfg, cells, width, row, m, defaultBg, defaultFg)
              .Then(RowQuads(cfg, cells[row * width..row * width + width], row, m, defaultBg, defaultFg))
  {
  }

  /** A blank cell draws nothing: it has the default highlight, so the
      default background, no decoration and no glyph. */
  lemma BlankCellDrawsNothing(cfg: RenderConfig, row: nat, col: nat, cell: Cell, m: map<nat, HighlightAttributes>,
                              defaultBg: Rgba, defaultFg: Rgba)
    requires IsEmpty(cell)
    ensures CellQuads(cfg, row, col, cell, m, defaultBg, defaultFg) == NoQuads
  {
    ResolveDefault(cfg, defaultBg, defaultFg);
    DefaultAttrsColours(InitialDefaults());
  }

  /** A row of blank cells draws nothing. */
  lemma {:induction false} BlankRowDrawsNothing(cfg: RenderConfig, rowCells: seq<Cell>, row: nat,
                                                m: map<nat, HighlightAttributes>, defaultBg: Rgba, defaultFg: Rgba)
    requires forall i :: 0 <= i < |rowCells| ==> IsEmpty(rowCells[i])
    ensures RowQuads(cfg, rowCells, row, m, defaultBg, defaultFg) == NoQuads
    decreases |rowCells|
  {
    if |rowCells| > 0 {
      var last := |rowCells| - 1;
      BlankRowDrawsNothing(cfg, rowCells[..last], row, m, defaultBg, defaultFg);
      BlankCellDrawsNothing(cfg, row, last, rowCells[last], m, defaultBg, defaultFg);
      ThenNoQuads(NoQuads);
    }
  }

  /** A grid of blank cells (a cleared grid) draws nothing at all. */
  lemma {:induction false} BlankGridDrawsNothing(cfg: RenderConfig, cells: seq<Cell>, width: nat, rows: nat,
                                                 m: map<nat, HighlightAttributes>, defaultBg: Rgba, defaultFg: Rgba)
    requires rows * width <= |cells|
    requires forall i :: 0 <= i < |cells| ==> IsEmpty(cells[i])
    ensures GridRows(cfg, cells, width, rows, m, defaultBg, defaultFg) == NoQuads
    decreases rows
  {
    if rows > 0 {
      var row := rows - 1;
      RowSpan(row, rows, width);
      BlankGridDrawsNothing(cfg, cells, width, row, m, defaultBg, defaultFg);
      var rowCells := cells[row * width..row * width + width];
      forall i | 0 <= i < |rowCells|
        ensures IsEmpty(rowCells[i])
      {
        assert rowCells[i] == cells[row * width + i];
      }
      BlankRowDrawsNothing(cfg, rowCells, row, m, defaultBg, defaultFg);
      GridRowsStep(cfg, cells, width, row, m, defaultBg, defaultFg);
      ThenNoQuads(NoQuads);
    }
  }

  /** `prepare_cursor`'s colour: the foreground of the mode's highlight when
      the mode names one and it sets a foreground, else the default foreground. */
  function CursorColor(cfg: RenderConfig, mode: ModeInfo, m: map<nat, HighlightAttributes>, defaultFg: Rgba): (c: Rgba)
    ensures mode.attrId == 0 || Lookup(m, mode.attrId).foreground.None? ==> c == defaultFg
    ensures mode.attrId > 0 && Lookup(m, mode.attrId).foreground.Some? ==> c == LinearOf(cfg, Lookup(m, mode.attrId).foreground.value)
  {
    if mode.attrId > 0 then ColorOr(cfg, Lookup(m, mode.attrId).foreground, defaultFg) else defaultFg
  }

  /** Whether the cursor is drawn: visible, on the main grid, and inside it. */
  predicate CursorShown(cursor: Cursor, width: nat, height: nat)
  {
    cursor.visible && cursor.grid == 1 && cursor.row < height && cursor.col < width
  }

  /** The cell under a shown cursor, as `grid.get(cursor.row, cursor.col)` finds it. */
  function CursorCell(cursor: Cursor, cells: seq<Cell>, width: nat, height: nat): (c: Cell)
    requires |cells| == width * height && CursorShown(cursor, width, height)
    ensures c in cells
  {
    Grids.IndexBound(width, height, cursor.row, cursor.col);
    cells[cursor.row * width + cursor.col]
  }

  /** `prepare_cursor`'s quads: nothing for a hidden, off-grid or
      out-of-bounds cursor; otherwise one cursor-coloured quad on the
      backgrounds batch and, for a block cursor over a character, that
      character's glyph in the cell's own background colour (or the default
      background) on top of it. */
  function CursorQuads(cfg: RenderConfig, cursor: Cursor, mode: ModeInfo, cells: seq<Cell>, width: nat, height: nat,
                       m: map<nat, HighlightAttributes>, defaultBg: Rgba, defaultFg: Rgba): (q: Quads)
    requires |cells| == width * height
    ensures !CursorShown(cursor, width, height) ==> q == NoQuads
    ensures CursorShown(cursor, width, height) ==>
      var g := CursorGeometryOf(mode.cursorShape, cursor.row, cursor.col, cfg.cellWidth, cfg.cellHeight, mode.cellPercentage);
      q.backgrounds == [Background(g.x, g.y, g.width, g.height, CursorColor(cfg, mode, m, defaultFg))]
      && q.decorations == [] && |q.glyphs| <= 1
    ensures |q.glyphs| == 1 ==> mode.cursorShape == Block && CursorShown(cursor, width, height)
    ensures CursorShown(cursor, width, height) && mode.cursorShape == Block ==>
      var g := CursorGeometryOf(Block, cursor.row, cursor.col, cfg.cellWidth, cfg.cellHeight, mode.cellPercentage);
      var cell := CursorCell(cursor, cells, width, height);
      var attrs := Lookup(m, cell.highlightId);
      (IsEmpty(cell) || IsWideSpacer(cell) ==> q.glyphs == [])
      && (!IsEmpty(cell) && !IsWideSpacer(cell) ==>
            q.glyphs == GlyphQuads(cfg, g.x, g.y, cell, attrs, ColorOr(cfg, attrs.background, defaultBg)))
  {
    if !CursorShown(cursor, width, height) then NoQuads
    else
      var g := CursorGeometryOf(mode.cursorShape, cursor.row, cursor.col, cfg.cellWidth, cfg.cellHeight, mode.cellPercentage);
      var bar := [Background(g.x, g.y, g.width, g.height, CursorColor(cfg, mode, m, defaultFg))];
      if mode.cursorShape != Block then Quads(bar, [], [])
      else
        var cell := CursorCell(cursor, cells, width, height);
        var attrs := Lookup(m, cell.highlightId);
        if IsEmpty(cell) || IsWideSpacer(cell) then Quads(bar, [], [])
        else Quads(bar, GlyphQuads(cfg, g.x, g.y, cell, attrs, ColorOr(cfg, attrs.background, defaultBg)), [])
  }

  /** The row loop's colour cache is right: the attributes are those of the
      cached highlight id and the colours are their resolved colours. */
  ghost predicate CacheHolds(cfg: RenderConfig, m: map<nat, HighlightAttributes>, hlId: nat, attrs: HighlightAttributes,
                             bg: Rgba, fg: Rgba, defaultBg: Rgba, defaultFg: Rgba)
  {
    attrs == Lookup(m, hlId)
    && bg == ResolveColors(cfg, attrs, defaultBg, defaultFg).0 && fg == ResolveColors(cfg, attrs, defaultBg, defaultFg).1
  }

  /** Appending a cell's quads, drawn in its highlight's resolved colours, to
      the quads of the cells before it gives the quads of the longer row. */
  lemma RowStep(cfg: RenderConfig, rowCells: seq<Cell>, row: nat, col: nat, m: map<nat, HighlightAttributes>,
                defaultBg: Rgba, defaultFg: Rgba, start: Quads, attrs: HighlightAttributes, bg: Rgba, fg: Rgba)
    requires col < |rowCells|
    requires attrs == Lookup(m, rowCells[col].highlightId)
    requires bg == ResolveColors(cfg, attrs, defaultBg, defaultFg).0 && fg == ResolveColors(cfg, attrs, defaultBg, defaultFg).1
    ensures
      start.Then(RowQuads(cfg, rowCells[..col], row, m, defaultBg, defaultFg)).Then(
        CellQuadsAt(cfg, CellX(cfg, col), CellY(cfg, row), rowCells[col], attrs, bg, fg, defaultBg))
      == start.Then(RowQuads(cfg, rowCells[..col + 1], row, m, defaultBg, defaultFg))
  {
    var cell := rowCells[col];
    RowQuadsSnoc(cfg, rowCells, row, col, m, defaultBg, defaultFg);
    CellQuadsResolved(cfg, row, col, cell, m, defaultBg, defaultFg, attrs, bg, fg);
    ThenAssoc(start, RowQuads(cfg, rowCells[..col], row, m, defaultBg, defaultFg),
              CellQuads(cfg, row, col, cell, m, defaultBg, defaultFg));
  }

  /** A row prefix one cell longer appends that cell's quads. */
  lemma RowQuadsSnoc(cfg: RenderConfig, rowCells: seq<Cell>, row: nat, col: nat, m: map<nat, HighlightAttributes>,
                     defaultBg: Rgba, defaultFg: Rgba)
    requires col < |rowCells|
    ensures RowQuads(cfg, rowCells[..col + 1], row, m, defaultBg, defaultFg)
         == RowQuads(cfg, rowCells[..col], row, m, defaultBg, defaultFg).Then(CellQuads(cfg, row, col, rowCells[col], m, defaultBg, defaultFg))
  {
    assert rowCells[..col + 1][..col] == rowCells[..col] && rowCells[..col + 1][col] == rowCells[col];
  }

  /** A cell's quads in terms of its resolved attributes and colours. */
  lemma CellQuadsResolved(cfg: RenderConfig, row: nat, col: nat, cell: Cell, m: map<nat, HighlightAttributes>,
                          defaultBg: Rgba, defaultFg: Rgba, attrs: HighlightAttributes, bg: Rgba, fg: Rgba)
    requires attrs == Lookup(m, cell.highlightId)
    requires bg == ResolveColors(cfg, attrs, defaultBg, defaultFg).0 && fg == ResolveColors(cfg, attrs, defaultBg, defaultFg).1
    ensures CellQuads(cfg, row, col, cell, m, defaultBg, defaultFg)
         == CellQuadsAt(cfg, CellX(cfg, col), CellY(cfg, row), cell, attrs, bg, fg, defaultBg)
  {
  }

  /** Appending one cell's quads piecewise is appending them at once. */
  lemma CellPieces(before: Quads, b: seq<QuadInstance>, g: seq<QuadInstance>, d: seq<QuadInstance>)
    ensures before.Then(Quads(b, [], [])).Then(Quads([], g, [])).Then(Quads([], [], d)) == before.Then(Quads(b, g, d))
  {
    assert before.backgrounds + b + [] + [] == before.backgrounds + b;
    assert before.glyphs + [] + g + [] == before.glyphs + g;
    assert before.decorations + [] + [] + d == before.decorations + d;
  }

  /** Extending a batch one quad at a time. */
  lemma ThenDecoration(before: Quads, s: seq<QuadInstance>, q: QuadInstance)
    ensures before.Then(Quads([], [], s)).Then(Quads([], [], [q])) == before.Then(Quads([], [], s + [q]))
  {
    assert before.backgrounds + [] + [] == before.backgrounds;
    assert before.glyphs + [] + [] == before.glyphs;
    assert before.decorations + s + [q] == before.decorations + (s + [q]);
  }

  class GridRenderer {
    const batcher: RenderBatcher
    const cfg: RenderConfig

    ghost predicate Valid()
      reads this, batcher, batcher.backgrounds, batcher.glyphs, batcher.decorations
    {
      batcher.Valid()
    }

    /** `new`: fresh batches for a renderer with the given configuration. */
    constructor (cfg: RenderConfig)
      ensures Valid() && this.cfg == cfg
      ensures batcher.Contents() == NoQuads
    {
      this.cfg := cfg;
      batcher := new RenderBatcher();
    }

    /** `cell_size`. */
    function CellSize(): (r: (real, real))
      reads this
      ensures r == (cfg.cellWidth, cfg.cellHeight)
    {
      (cfg.cellWidth, cfg.cellHeight)
    }

    /** `prepare`: the batches end up holding exactly this frame's quads: the
        grid's, then the cursor's. The upload leaves every non-empty batch's
        buffer large enough for it. */
    method Prepare(cells: seq<Cell>, width: nat, height: nat, cursor: Cursor, mode: ModeInfo,
                   m: map<nat, HighlightAttributes>, defaultBg: Rgba, defaultFg: Rgba)
      requires Valid() && width > 0 && |cells| == width * height
      modifies batcher.backgrounds, batcher.glyphs, batcher.decorations
      ensures Valid()
      ensures U64Max !in m ==>
        batcher.Contents() == GridRows(cfg, cells, width, height, m, defaultBg, defaultFg)
                                .Then(CursorQuads(cfg, cursor, mode, cells, width, height, m, defaultBg, defaultFg))
      ensures batcher.backgrounds.instances != [] ==> batcher.backgrounds.capacity >= |batcher.backgrounds.instances|
      ensures batcher.glyphs.instances != [] ==> batcher.glyphs.capacity >= |batcher.glyphs.instances|
      ensures batcher.decorations.instances != [] ==> batcher.decorations.capacity >= |batcher.decorations.instances|
    {
      batcher.Clear();
      PrepareGridCells(cells, width, height, m, defaultBg, defaultFg);
      PrepareCursor(cells, width, height, cursor, mode, m, defaultBg, defaultFg);
      ThenNoQuads(GridRows(cfg, cells, width, height, m, defaultBg, defaultFg));
      batcher.Upload();
    }

    /** `prepare_grid_cells`: every row, top to bottom, every cell left to
        right, with the colours of the last highlight id seen in the row
        reused until the id changes. */
    method PrepareGridCells(cells: seq<Cell>, width: nat, height: nat, m: map<nat, HighlightAttributes>,
                            defaultBg: Rgba, defaultFg: Rgba)
      requires Valid() && width > 0 && |cells| == width * height
      modifies batcher.backgrounds, batcher.glyphs, batcher.decorations
      ensures Valid()
      ensures U64Max !in m ==>
        batcher.Contents() == old(batcher.Contents()).Then(GridRows(cfg, cells, width, height, m, defaultBg, defaultFg))
    {
      ghost var start := batcher.Contents();
      ThenNoQuads(start);
      var row := 0;
      while row < height
        invariant 0 <= row <= height
        invariant Valid()
        invariant U64Max !in m ==> batcher.Contents() == start.Then(GridRows(cfg, cells, width, row, m, defaultBg, defaultFg))
      {
        RowSpan(row, height, width);
        PrepareGridRow(cells, width, row, m, defaultBg, defaultFg, start);
        row := row + 1;
      }
    }

    /** One pass of `prepare_grid_cells`'s outer loop: row `row` joins the
        rows drawn before it. */
    method PrepareGridRow(cells: seq<Cell>, width: nat, row: nat, m: map<nat, HighlightAttributes>,
                          defaultBg: Rgba, defaultFg: Rgba, ghost start: Quads)
      requires Valid() && (row + 1) * width == row * width + width && row * width + width <= |cells|
      requires U64Max !in m ==> batcher.Contents() == start.Then(GridRows(cfg, cells, width, row, m, defaultBg, defaultFg))
      modifies batcher.backgrounds, batcher.glyphs, batcher.decorations
      ensures Valid()
      ensures U64Max !in m ==> batcher.Contents() == start.Then(GridRows(cfg, cells, width, row + 1, m, defaultBg, defaultFg))
    {
      var rowCells := cells[row * width..row * width + width];
      PrepareRow(rowCells, row, m, defaultBg, defaultFg);
      GridRowsStep(cfg, cells, width, row, m, defaultBg, defaultFg);
      ThenAssoc(start, GridRows(cfg, cells, width, row, m, defaultBg, defaultFg),
                RowQuads(cfg, rowCells, row, m, defaultBg, defaultFg));
    }

    /** One row of `prepare_grid_cells`, with its colour cache. */
    method PrepareRow(rowCells: seq<Cell>, row: nat, m: map<nat, HighlightAttributes>, defaultBg: Rgba, defaultFg: Rgba)
      requires Valid()
      modifies batcher.backgrounds, batcher.glyphs, batcher.decorations
      ensures Valid()
      ensures U64Max !in m ==>
        batcher.Contents() == old(batcher.Contents()).Then(RowQuads(cfg, rowCells, row, m, defaultBg, defaultFg))
    {
      ghost var start := batcher.Contents();
      ThenNoQuads(start);
      var lastHlId := U64Max;
      var lastBg := defaultBg;
      var lastFg := defaultFg;
      var lastAttrs := Lookup(m, 0);
      ResolveDefault(cfg, defaultBg, defaultFg);
      var col := 0;
      while col < |rowCells|
        invariant 0 <= col <= |rowCells|
        invariant Valid()
        invariant U64Max !in m ==> CacheHolds(cfg, m, lastHlId, lastAttrs, lastBg, lastFg, defaultBg, defaultFg)
        invariant U64Max !in m ==>
          batcher.Contents() == start.Then(RowQuads(cfg, rowCells[..col], row, m, defaultBg, defaultFg))
      {
        lastHlId, lastAttrs, lastBg, lastFg :=
          PrepareRowCell(rowCells, row, col, m, defaultBg, defaultFg, start, lastHlId, lastAttrs, lastBg, lastFg);
        col := col + 1;
      }
      assert rowCells[..|rowCells|] == rowCells;
    }

    /** One pass of the row loop: refresh the colour cache when the cell's
        highlight id differs from the last one, then draw the cell with the
        cached attributes and colours. */
    method PrepareRowCell(rowCells: seq<Cell>, row: nat, col: nat, m: map<nat, HighlightAttributes>,
                          defaultBg: Rgba, defaultFg: Rgba, ghost start: Quads,
                          lastHlId: nat, lastAttrs: HighlightAttributes, lastBg: Rgba, lastFg: Rgba)
      returns (hlId: nat, attrs: HighlightAttributes, bg: Rgba, fg: Rgba)
      requires Valid() && col < |rowCells|
      requires U64Max !in m ==> CacheHolds(cfg, m, lastHlId, lastAttrs, lastBg, lastFg, defaultBg, defaultFg)
      requires U64Max !in m ==>
        batcher.Contents() == start.Then(RowQuads(cfg, rowCells[..col], row, m, defaultBg, defaultFg))
      modifies batcher.backgrounds, batcher.glyphs, batcher.decorations
      ensures Valid()
      ensures hlId == rowCells[col].highlightId
      ensures U64Max !in m ==> CacheHolds(cfg, m, hlId, attrs, bg, fg, defaultBg, defaultFg)
      ensures U64Max !in m ==>
        batcher.Contents() == start.Then(RowQuads(cfg, rowCells[..col + 1], row, m, defaultBg, defaultFg))
    {
      var cell := rowCells[col];
      hlId, attrs, bg, fg := lastHlId, lastAttrs, lastBg, lastFg;
      if cell.highlightId != lastHlId {
        hlId := cell.highlightId;
        attrs := Lookup(m, hlId);
        var colors := ResolveColors(cfg, attrs, defaultBg, defaultFg);
        bg := colors.0;
        fg := colors.1;
      }
      PushCell(row, col, cell, attrs, bg, fg, defaultBg);
      if U64Max !in m {
        RowStep(cfg, rowCells, row, col, m, defaultBg, defaultFg, start, attrs, bg, fg);
      }
    }

    /** The body of `prepare_grid_cells`'s inner loop: a cell's background,
        glyph and decorations, at the cell's top-left corner. */
    method PushCell(row: nat, col: nat, cell: Cell, attrs: HighlightAttributes, bg: Rgba, fg: Rgba, defaultBg: Rgba)
      requires Valid()
      modifies batcher.backgrounds, batcher.glyphs, batcher.decorations
      ensures Valid()
      ensures batcher.Contents() == old(batcher.Contents()).Then(
        CellQuadsAt(cfg, CellX(cfg, col), CellY(cfg, row), cell, attrs, bg, fg, defaultBg))
    {
      var x := CellX(cfg, col);
      var y := CellY(cfg, row);
      ghost var before := batcher.Contents();
      PushCellBackground(x, y, bg, defaultBg);
      PushCellGlyph(x, y, cell, attrs, fg);
      PushCellDecorations(x, y, attrs, fg);
      CellPieces(before, BackgroundQuads(cfg, x, y, bg, defaultBg), GlyphQuads(cfg, x, y, cell, attrs, fg),
                 DecorationQuads(cfg, x, y, attrs, fg));
    }

    /** `push_cell_background`. */
    method PushCellBackground(x: real, y: real, bg: Rgba, defaultBg: Rgba)
      requires Valid()
      modifies batcher.backgrounds
      ensures Valid()
      ensures batcher.Contents() == old(batcher.Contents()).Then(Quads(BackgroundQuads(cfg, x, y, bg, defaultBg), [], []))
    {
      if bg != defaultBg {
        batcher.PushBackground(x, y, cfg.cellWidth, cfg.cellHeight, bg);
      } else {
        ThenNoQuads(batcher.Contents());
      }
    }

    /** `push_cell_glyph`. */
    method PushCellGlyph(x: real, y: real, cell: Cell, attrs: HighlightAttributes, fg: Rgba)
      requires Valid()
      modifies batcher.glyphs
      ensures Valid()
      ensures batcher.Contents() == old(batcher.Contents()).Then(Quads([], GlyphQuads(cfg, x, y, cell, attrs, fg), []))
    {
      ThenNoQuads(batcher.Contents());
      if IsEmpty(cell) || IsWideSpacer(cell) {
        return;
      }
      if |cell.text| == 0 {
        return;
      }
      var character := cell.text[0];
      var fontKey := FontKeyForStyle(cfg.fontKeys, IsBold(attrs), IsItalic(attrs));
      var cached := cfg.atlasGlyph(GlyphKey(fontKey, character, cfg.fontSize));
      if cached.Some? {
        var g := cached.value;
        if g.width > 0 && g.height > 0 {
          var atlasSize := AtlasExtent;
          var uvX := g.atlasX as real / atlasSize;
          var uvY := g.atlasY as real / atlasSize;
          var uvW := g.width as real / atlasSize;
          var uvH := g.height as real / atlasSize;
          var glyphX := x + g.bearingX as real;
          var glyphY := y + (cfg.cellHeight - Abs(cfg.metrics.descent) - g.bearingY as real);
          batcher.PushGlyph(glyphX, glyphY, g.width as real, g.height as real, uvX, uvY, uvW, uvH, fg, g.isColored);
        }
      }
    }

    /** `push_cell_decorations`. */
    method PushCellDecorations(x: real, y: real, attrs: HighlightAttributes, fg: Rgba)
      requires Valid()
      modifies batcher.decorations
      ensures Valid()
      ensures batcher.Contents() == old(batcher.Contents()).Then(Quads([], [], DecorationQuads(cfg, x, y, attrs, fg)))
    {
      ghost var start := batcher.Contents();
      ThenNoQuads(start);
      var underlineStyle := UnderlineOf(attrs);
      var hasStrikethrough := HasStrikethrough(attrs);
      if underlineStyle == NoUnderline && !hasStrikethrough {
        return;
      }
      var special := ColorOr(cfg, attrs.special, fg);
      var lines := DecorationGeometry(x, y, cfg.cellWidth, cfg.cellHeight, cfg.metrics, underlineStyle, hasStrikethrough);
      var underlineCount := UnderlineCount(underlineStyle);
      ghost var quads := DecorationQuads(cfg, x, y, attrs, fg);
      for i := 0 to |lines|
        invariant Valid()
        invariant batcher.Contents() == start.Then(Quads([], [], quads[..i]))
      {
        var color := if i < underlineCount then special else fg;
        batcher.PushDecoration(lines[i].x, lines[i].y, lines[i].width, lines[i].height, color);
        ThenDecoration(start, quads[..i], quads[i]);
        assert quads[..i] + [quads[i]] == quads[..i + 1];
      }
      assert quads[..|lines|] == quads;
    }

    /** `prepare_cursor`. */
    method PrepareCursor(cells: seq<Cell>, width: nat, height: nat, cursor: Cursor, mode: ModeInfo,
                         m: map<nat, HighlightAttributes>, defaultBg: Rgba, defaultFg: Rgba)
      requires Valid() && |cells| == width * height
      modifies batcher.backgrounds, batcher.glyphs
      ensures Valid()
      ensures batcher.Contents() == old(batcher.Contents()).Then(CursorQuads(cfg, cursor, mode, cells, width, height, m, defaultBg, defaultFg))
    {
      ghost var start := batcher.Contents();
      ThenNoQuads(start);
      if !cursor.visible || cursor.grid != 1 {
        return;
      }
      if cursor.row >= height || cursor.col >= width {
        return;
      }
      var g := CursorGeometryOf(mode.cursorShape, cursor.row, cursor.col, cfg.cellWidth, cfg.cellHeight, mode.cellPercentage);
      var cursorColor := defaultFg;
      if mode.attrId > 0 {
        var fgAttr := Lookup(m, mode.attrId).foreground;
        if fgAttr.Some? {
          cursorColor := LinearOf(cfg, fgAttr.value);
        }
      }
      batcher.PushBackground(g.x, g.y, g.width, g.height, cursorColor);
      if mode.cursorShape == Block {
        Grids.IndexBound(width, height, cursor.row, cursor.col);
        var cell := cells[cursor.row * width + cursor.col];
        var attrs := Lookup(m, cell.highlightId);
        if !IsEmpty(cell) && !IsWideSpacer(cell) {
          var textColor := ColorOr(cfg, attrs.background, defaultBg);
          ghost var mid := batcher.Contents();
          PushCellGlyph(g.x, g.y, cell, attrs, textColor);
          ThenAssoc(start, Quads([Background(g.x, g.y, g.width, g.height, cursorColor)], [], []),
                    Quads([], GlyphQuads(cfg, g.x, g.y, cell, attrs, textColor), []));
        }
      }
    }
  }
}
