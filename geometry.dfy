/**
 * Where the renderer draws decorations and the cursor inside a cell.
 * Underlines and the strikethrough are full-width horizontal lines placed
 * relative to the cell's baseline; the cursor is the whole cell (block), a
 * bar on its left edge (vertical) or a bar along its bottom (horizontal).
 * Arithmetic is over reals; `f32` rounding is not modelled.
 */
module Geometry {
  import opened Highlight
  import opened EditorStates

  function Abs(r: real): real { if r < 0.0 then -r else r }

  function MaxReal(a: real, b: real): (m: real)
    ensures m >= a && m >= b && (m == a || m == b)
  {
    if a >= b then a else b
  }

  /** `DecorationLine`. */
  datatype DecorationLine = DecorationLine(x: real, y: real, width: real, height: real)

  /** The font's vertical metrics the decorations are placed with. */
  datatype LineMetrics = LineMetrics(
    descent: real,
    underlinePosition: real,
    underlineThickness: real,
    strikeoutPosition: real,
    strikeoutThickness: real)

  /** How many underline lines a style draws: none, two for a double
      underline, one for every other kind. */
  function UnderlineCount(style: UnderlineStyle): (n: nat)
    ensures n <= 2
    ensures n == 0 <==> style == NoUnderline
    ensures n == 2 <==> style == Double
  {
    match style
    case NoUnderline => 0
    case Double => 2
    case _ => 1
  }

  /** The baseline of a cell whose top is `y`: one descent above its bottom. */
  function Baseline(y: real, cellHeight: real, m: LineMetrics): real
  {
    y + cellHeight - Abs(m.descent)
  }

  /** `compute_decoration_geometry`: the underline lines first (two, one
      thickness above and below the underline position, for a double
      underline), then the strikethrough; each spans the whole cell width. */
  function DecorationGeometry(x: real, y: real, cellWidth: real, cellHeight: real, m: LineMetrics,
                              style: UnderlineStyle, hasStrikethrough: bool): (lines: seq<DecorationLine>)
    ensures |lines| == UnderlineCount(style) + (if hasStrikethrough then 1 else 0)
    ensures forall i :: 0 <= i < |lines| ==> lines[i].x == x && lines[i].width == cellWidth
    ensures forall i :: 0 <= i < UnderlineCount(style) ==> lines[i].height == m.underlineThickness
    ensures UnderlineCount(style) == 1 ==> lines[0].y == Baseline(y, cellHeight, m) - m.underlinePosition
    ensures style == Double ==>
      && lines[0].y == Baseline(y, cellHeight, m) - m.underlinePosition - m.underlineThickness
      && lines[1].y == Baseline(y, cellHeight, m) - m.underlinePosition + m.underlineThickness
    ensures hasStrikethrough ==>
      && lines[|lines| - 1].y == Baseline(y, cellHeight, m) - m.strikeoutPosition
      && lines[|lines| - 1].height == m.strikeoutThickness
  {
    var baseline := Baseline(y, cellHeight, m);
    var underlineY := baseline - m.underlinePosition;
    var underlines :=
      match style
      case NoUnderline => []
      case Double =>
        [DecorationLine(x, underlineY - m.underlineThickness, cellWidth, m.underlineThickness),
         DecorationLine(x, underlineY + m.underlineThickness, cellWidth, m.underlineThickness)]
      case _ => [DecorationLine(x, underlineY, cellWidth, m.underlineThickness)];
    if hasStrikethrough then
      underlines + [DecorationLine(x, baseline - m.strikeoutPosition, cellWidth, m.strikeoutThickness)]
    else underlines
  }

  /** The two lines of a double underline are two thicknesses apart, so they
      are distinct whenever the thickness is not zero. */
  lemma DoubleUnderlineApart(x: real, y: real, cellWidth: real, cellHeight: real, m: LineMetrics, hasStrikethrough: bool)
    ensures var lines := DecorationGeometry(x, y, cellWidth, cellHeight, m, Double, hasStrikethrough);
      lines[1].y - lines[0].y == 2.0 * m.underlineThickness
      && (m.underlineThickness != 0.0 ==> lines[0] != lines[1])
  {
  }

  /** `CursorGeometry`. */
  datatype CursorGeometry = CursorGeometry(x: real, y: real, width: real, height: real)

  /** The fraction of the cell a cursor covers: the mode's percentage (at
      most 100) when it gives one, else a quarter for bars and all of it for
      a block. */
  function CursorPercentage(shape: CursorShape, cellPercentage: nat): (p: real)
    ensures 0.0 < p <= 1.0
    ensures cellPercentage > 0 ==> p == (if cellPercentage < 100 then cellPercentage else 100) as real / 100.0
    ensures cellPercentage == 0 ==> p == (if shape == Block then 1.0 else 0.25)
  {
    if cellPercentage > 0 then
      (if cellPercentage < 100 then cellPercentage else 100) as real / 100.0
    else
      match shape
      case Vertical => 0.25
      case Horizontal => 0.25
      case Block => 1.0
  }

  /** `compute_cursor_geometry`: anchored at the cell's top-left corner
      `(col * cellWidth, row * cellHeight)`; a bar is at least one unit thick. */
  function CursorGeometryOf(shape: CursorShape, row: nat, col: nat, cellWidth: real, cellHeight: real,
                            cellPercentage: nat): (g: CursorGeometry)
    ensures g.x == col as real * cellWidth
    ensures shape == Block ==> g == CursorGeometry(col as real * cellWidth, row as real * cellHeight, cellWidth, cellHeight)
    ensures shape == Vertical ==>
      && g.y == row as real * cellHeight && g.height == cellHeight
      && g.width == MaxReal(cellWidth * CursorPercentage(shape, cellPercentage), 1.0)
    ensures shape == Horizontal ==>
      && g.width == cellWidth
      && g.height == MaxReal(cellHeight * CursorPercentage(shape, cellPercentage), 1.0)
      && g.y + g.height == row as real * cellHeight + cellHeight
  {
    var x := col as real * cellWidth;
    var y := row as real * cellHeight;
    var p := CursorPercentage(shape, cellPercentage);
    match shape
    case Block => CursorGeometry(x, y, cellWidth, cellHeight)
    case Vertical => CursorGeometry(x, y, MaxReal(cellWidth * p, 1.0), cellHeight)
    case Horizontal =>
      var barHeight := MaxReal(cellHeight * p, 1.0);
      CursorGeometry(x, y + cellHeight - barHeight, cellWidth, barHeight)
  }

  /** In a cell at least one unit wide and tall, every cursor shape is at
      least one unit thick and stays inside its cell. */
  lemma CursorInsideCell(shape: CursorShape, row: nat, col: nat, cellWidth: real, cellHeight: real, cellPercentage: nat)
    requires cellWidth >= 1.0 && cellHeight >= 1.0
    ensures var g := CursorGeometryOf(shape, row, col, cellWidth, cellHeight, cellPercentage);
      && 1.0 <= g.width <= cellWidth && 1.0 <= g.height <= cellHeight
      && g.x == col as real * cellWidth && g.y >= row as real * cellHeight
      && g.y + g.height == row as real * cellHeight + cellHeight
  {
    var p := CursorPercentage(shape, cellPercentage);
    assert cellWidth * p <= cellWidth * 1.0;
    assert cellHeight * p <= cellHeight * 1.0;
  }
}
