/**
 * The row-major cell grid of one Neovim window (grid 1 is the main screen).
 * Cell (r, c) lives at flat index r * width + c of `cells`.
 */
module Grids {
  import opened Wrappers
  import opened Cells

  function Min(a: nat, b: nat): nat { if a <= b then a else b }

  function Max(a: nat, b: nat): nat { if a >= b then a else b }

  function Abs(x: int): nat { if x < 0 then -x else x }

  /** Row and column of a flat index (total: width 0 maps everything to (0, 0)). */
  function RowOf(i: nat, w: nat): nat { if w == 0 then 0 else i / w }

  function ColOf(i: nat, w: nat): nat { if w == 0 then 0 else i % w }

  // ---------------------------------------------------------------------
  // Flat-index arithmetic
  // ---------------------------------------------------------------------

  lemma MulMono(a: nat, b: nat, w: nat)
    requires a <= b
    ensures a * w <= b * w
  {
    var d := b - a;
    assert b * w == a * w + d * w;
  }

  /** Cell (r, c) of a w-by-h grid is inside the flat vector. */
  lemma IndexBound(w: nat, h: nat, r: nat, c: nat)
    requires r < h && c < w
    ensures r * w + c < w * h
  {
    MulMono(r + 1, h, w);
  }

  /** The flat index r * w + c decodes back to (r, c). */
  lemma IndexDivMod(w: nat, r: nat, c: nat)
    requires c < w
    ensures RowOf(r * w + c, w) == r && ColOf(r * w + c, w) == c
  {
    var i := r * w + c;
    var q, m := i / w, i % w;
    assert i == q * w + m;
    if q > r {
      MulMono(r + 1, q, w);
      assert false;
    } else if q < r {
      MulMono(q + 1, r, w);
      assert false;
    }
  }

  /** A flat index equals r * w + c exactly when it decodes to (r, c). */
  lemma FlatIndex(w: nat, i: nat, r: nat, c: nat)
    requires c < w
    ensures i == r * w + c <==> RowOf(i, w) == r && ColOf(i, w) == c
  {
    IndexDivMod(w, r, c);
    assert i == (i / w) * w + i % w;
  }

  /** Every flat index of a w-by-h grid decodes to an in-range (row, column). */
  lemma DecodeBound(w: nat, h: nat, i: nat)
    requires i < w * h
    ensures w > 0 && RowOf(i, w) < h && ColOf(i, w) < w
    ensures i == RowOf(i, w) * w + ColOf(i, w)
  {
    if RowOf(i, w) >= h {
      MulMono(h, RowOf(i, w), w);
      assert false;
    }
  }

  /** Writing flat index r * w + c changes exactly the cell that decodes to (r, c). */
  lemma UpdateAt(s: seq<Cell>, w: nat, r: nat, c: nat, x: Cell)
    requires c < w && r * w + c < |s|
    ensures |s[r * w + c := x]| == |s|
    ensures forall i :: 0 <= i < |s| ==>
      s[r * w + c := x][i] == if RowOf(i, w) == r && ColOf(i, w) == c then x else s[i]
  {
    forall i | 0 <= i < |s|
      ensures s[r * w + c := x][i] == if RowOf(i, w) == r && ColOf(i, w) == c then x else s[i]
    {
      FlatIndex(w, i, r, c);
    }
  }

  // ---------------------------------------------------------------------
  // Specification functions
  // ---------------------------------------------------------------------

  /** The cell stored at (r, c) of a flat vector of width w, or the default cell off the end. */
  function CellAt(s: seq<Cell>, w: nat, r: nat, c: nat): Cell
  {
    if c < w && r * w + c < |s| then s[r * w + c] else Default()
  }

  /** The cell `d` positions away from flat index i, or the default cell off the end. */
  function Shifted(s: seq<Cell>, i: nat, d: int): Cell
  {
    if 0 <= i + d < |s| then s[i + d] else Default()
  }

  /** The cells of a new grid after `resize`: the overlapping corner is kept, the rest is default. */
  function ResizedCells(s: seq<Cell>, ow: nat, oh: nat, nw: nat, nh: nat): (r: seq<Cell>)
    ensures |r| == nw * nh
  {
    seq(nw * nh, i requires 0 <= i < nw * nh =>
      if RowOf(i, nw) < Min(oh, nh) && ColOf(i, nw) < Min(ow, nw)
      then CellAt(s, ow, RowOf(i, nw), ColOf(i, nw))
      else Default())
  }

  /** Every cell of rows [lo, hi) and columns [left, right) reset to the default cell. */
  function ClearedRect(s: seq<Cell>, w: nat, lo: nat, hi: nat, left: nat, right: nat): (r: seq<Cell>)
    ensures |r| == |s|
  {
    seq(|s|, i requires 0 <= i < |s| =>
      if lo <= RowOf(i, w) < hi && left <= ColOf(i, w) < right then Default() else s[i])
  }

  /** Rows [lo, hi) of columns [left, right) take the cell `delta` rows further down. */
  function CopiedRows(s: seq<Cell>, w: nat, lo: nat, hi: nat, left: nat, right: nat, delta: int): (r: seq<Cell>)
    ensures |r| == |s|
  {
    seq(|s|, i requires 0 <= i < |s| =>
      if lo <= RowOf(i, w) < hi && left <= ColOf(i, w) < right then Shifted(s, i, delta * w) else s[i])
  }

  /** The cells after `scroll(top, bot, left, right, rows)`, as the sequence of its loops. */
  function ScrolledCells(s: seq<Cell>, w: nat, h: nat, top: nat, bot: nat, left: nat, right: nat, rows: int): (r: seq<Cell>)
    ensures |r| == |s|
  {
    if top >= bot || left >= right || top >= h || left >= w then s
    else
      var b, rt := Min(bot, h), Min(right, w);
      if Abs(rows) >= b - top then ClearedRect(s, w, top, b, left, rt)
      else if rows > 0 then ClearedRect(CopiedRows(s, w, top, b - rows, left, rt, rows), w, b - rows, b, left, rt)
      else ClearedRect(CopiedRows(s, w, top - rows, b, left, rt, rows), w, top, top - rows, left, rt)
  }

  /** One `grid_line` item: text, optional highlight id and repeat count. */
  datatype LineItem = LineItem(text: string, hlId: Option<nat>, repeat: nat)

  /** The highlight id in force after the items: a missing id repeats the previous one, starting from 0. */
  function LastHl(items: seq<LineItem>): nat
  {
    if items == [] then 0 else items[|items| - 1].hlId.GetOr(LastHl(items[..|items| - 1]))
  }

  /** What update_line does to one cell it writes: empty text makes a wide-character spacer. */
  function WriteCell(c: Cell, text: string, hl: nat): Cell
  {
    if text == "" then SetWide(SetWideSpacer(c.(text := ""), true), false).(highlightId := hl)
    else c.(text := text, flags := NoFlags, highlightId := hl)
  }

  /** The written cell does not depend on what the cell held before. */
  lemma WriteCellOverwrites(a: Cell, b: Cell, text: string, hl: nat)
    ensures WriteCell(a, text, hl) == WriteCell(b, text, hl)
    ensures text == "" ==> WriteCell(a, text, hl) == Cell("", hl, CellFlags(false, true))
    ensures text != "" ==> WriteCell(a, text, hl) == Cell(text, hl, NoFlags)
  {
  }

  /** The cells one `grid_line` call writes, in order, before clipping at the grid's width. */
  function Expand(items: seq<LineItem>): seq<Cell>
  {
    if items == [] then []
    else
      var k := |items| - 1;
      Expand(items[..k]) + Rep(WriteCell(Default(), items[k].text, LastHl(items)), Max(items[k].repeat, 1))
  }

  /** n copies of one cell. */
  function Rep(x: Cell, n: nat): (r: seq<Cell>)
    ensures |r| == n && forall i :: 0 <= i < n ==> r[i] == x
  {
    seq(n, _ => x)
  }

  lemma RepSplit(pre: seq<Cell>, x: Cell, a: nat, b: nat)
    ensures pre + Rep(x, a) + Rep(x, b) == pre + Rep(x, a + b)
    ensures b == 1 ==> pre + Rep(x, a) + [x] == pre + Rep(x, a + 1)
  {
    assert pre + Rep(x, a) + Rep(x, b) == pre + Rep(x, a + b);
  }

  /** Expanding one more item appends its max(repeat, 1) written cells, with the highlight in force after it. */
  lemma ExpandSnoc(items: seq<LineItem>, k: nat)
    requires k < |items|
    ensures LastHl(items[..k + 1]) == items[k].hlId.GetOr(LastHl(items[..k]))
    ensures Expand(items[..k + 1]) == Expand(items[..k]) + Rep(WriteCell(Default(), items[k].text, items[k].hlId.GetOr(LastHl(items[..k]))), Max(items[k].repeat, 1))
  {
    assert items[..k + 1][..k] == items[..k];
  }

  /** Row `row` gets `e` from column colStart on (clipped at the width); every other cell is kept. */
  function LineWritten(s: seq<Cell>, w: nat, row: nat, colStart: nat, e: seq<Cell>): (r: seq<Cell>)
    ensures |r| == |s|
  {
    seq(|s|, i requires 0 <= i < |s| =>
      if RowOf(i, w) == row && colStart <= ColOf(i, w) < colStart + |e| then e[ColOf(i, w) - colStart] else s[i])
  }

  /** Column reached after writing n cells from colStart: writing stops at the width. */
  function Reach(colStart: nat, n: nat, w: nat): nat
  {
    if colStart >= w then colStart else Min(w, colStart + n)
  }

  // ---------------------------------------------------------------------
  // The grid
  // ---------------------------------------------------------------------

  class Grid {
    const id: nat
    var width: nat
    var height: nat
    var cells: seq<Cell>

    ghost predicate Valid()
      reads this
    {
      |cells| == width * height
    }

    /** A width-by-height grid of default cells. */
    constructor (id: nat, width: nat, height: nat)
      ensures Valid()
      ensures this.id == id && this.width == width && this.height == height
      ensures cells == seq(width * height, _ => Default())
    {
      this.id := id;
      this.width := width;
      this.height := height;
      cells := seq(width * height, _ => Default());
    }

    /** The cell at (row, col), present exactly when both are in range. */
    function Get(row: nat, col: nat): (r: Option<Cell>)
      reads this
      requires Valid()
      ensures r.Some? <==> row < height && col < width
      ensures r.Some? ==> row * width + col < |cells| && r.value == cells[row * width + col]
    {
      if row < height && col < width then
        IndexBound(width, height, row, col);
        Some(cells[row * width + col])
      else None
    }

    /** Indexing by (row, col): valid whenever the flat index is in range. */
    function Index(row: nat, col: nat): (r: Cell)
      reads this
      requires Valid()
      requires row * width + col < |cells|
      ensures row < height && col < width ==> Get(row, col) == Some(r)
    {
      cells[row * width + col]
    }

    /** The cells of one row, present exactly when the row is in range. */
    function Row(row: nat): (r: Option<seq<Cell>>)
      reads this
      requires Valid()
      ensures r.Some? <==> row < height
      ensures r.Some? ==> |r.value| == width && forall c :: 0 <= c < width ==> Get(row, c) == Some(r.value[c])
    {
      if row < height then
        MulMono(row + 1, height, width);
        Some(cells[row * width..row * width + width])
      else None
    }

    /** All rows, top to bottom. */
    function Rows(): (rs: seq<seq<Cell>>)
      reads this
      requires Valid()
      ensures |rs| == height
      ensures forall r :: 0 <= r < height ==> Row(r) == Some(rs[r])
    {
      seq(height, r requires 0 <= r < height && Valid() reads this => Row(r).value)
    }

    /** Resets every cell to the default cell. */
    method Clear()
      requires Valid()
      modifies this
      ensures Valid() && width == old(width) && height == old(height)
      ensures cells == seq(|old(cells)|, _ => Default())
    {
      var i := 0;
      while i < |cells|
        invariant 0 <= i <= |cells| == |old(cells)| && width == old(width) && height == old(height)
        invariant forall k :: 0 <= k < i ==> cells[k] == Default()
        invariant forall k :: i <= k < |cells| ==> cells[k] == old(cells)[k]
      {
        cells := cells[i := Cells.Clear(cells[i])];
        i := i + 1;
      }
    }

    /** Changes the dimensions, keeping the overlapping corner and filling the rest with default cells. */
    method Resize(newWidth: nat, newHeight: nat)
      requires Valid()
      modifies this
      ensures Valid() && width == newWidth && height == newHeight
      ensures cells == ResizedCells(old(cells), old(width), old(height), newWidth, newHeight)
      ensures newWidth == old(width) && newHeight == old(height) ==> cells == old(cells)
    {
      if newWidth == width && newHeight == height {
        ResizeSameSize(cells, width, height);
        return;
      }
      var newCells := CopyOverlap(cells, width, height, newWidth, newHeight);
      width, height, cells := newWidth, newHeight, newCells;
    }

    /** Processes one grid_line event: writes the expanded items into `row` from colStart on. */
    method UpdateLine(row: nat, colStart: nat, items: seq<LineItem>)
      requires Valid()
      modifies this
      ensures Valid() && width == old(width) && height == old(height)
      ensures row >= height ==> cells == old(cells)
      ensures row < height ==> cells == LineWritten(old(cells), width, row, colStart, Expand(items))
    {
      if row >= height {
        return;
      }
      var col := colStart;
      var lastHl := 0;
      var k := 0;
      while k < |items|
        invariant 0 <= k <= |items|
        invariant |cells| == width * height && width == old(width) && height == old(height)
        invariant lastHl == LastHl(items[..k])
        invariant col == Reach(colStart, |Expand(items[..k])|, width)
        invariant cells == LineWritten(old(cells), width, row, colStart, Expand(items[..k]))
      {
        var item := items[k];
        var hl := item.hlId.GetOr(lastHl);
        lastHl := hl;
        ExpandSnoc(items, k);
        ghost var before := Expand(items[..k]);
        ghost var run := Rep(WriteCell(Default(), item.text, hl), Max(item.repeat, 1));
        LineWrittenAppend(old(cells), width, height, row, colStart, before, run);
        col := WriteRun(row, col, item.text, hl, Max(item.repeat, 1));
        k := k + 1;
      }
      assert items[..|items|] == items;
    }

    /** The inner loop of update_line: writes one item n times from `col`, stopping at the width. */
    method WriteRun(row: nat, col: nat, text: string, hl: nat, n: nat) returns (next: nat)
      requires Valid() && row < height
      modifies this
      ensures Valid() && width == old(width) && height == old(height)
      ensures next == Reach(col, n, width)
      ensures cells == LineWritten(old(cells), width, row, col, Rep(WriteCell(Default(), text, hl), n))
    {
      var cur, w, h := cells, width, height;
      ghost var orig := cells;
      var written := WriteCell(Default(), text, hl);
      next := col;
      var j := 0;
      while j < n
        invariant 0 <= j <= n
        invariant |cur| == w * h
        invariant next == Reach(col, j, w)
        invariant cur == LineWritten(orig, w, row, col, Rep(written, j))
        modifies {}
      {
        if next >= w {
          WriteRunClipped(orig, w, h, row, col, written, j, n, next, cur);
          break;
        }
        WriteRunStep(orig, w, h, row, col, text, hl, written, j, next, cur);
        cur := cur[row * w + next := WriteCell(cur[row * w + next], text, hl)];
        next := next + 1;
        j := j + 1;
      }
      cells := cur;
    }

    /** Processes one grid_scroll event over rows [top, bot) and columns [left, right). */
    method Scroll(top: nat, bot: nat, left: nat, right: nat, rows: int)
      requires Valid()
      modifies this
      ensures Valid() && width == old(width) && height == old(height)
      ensures cells == ScrolledCells(old(cells), width, height, top, bot, left, right, rows)
    {
      if top >= bot || left >= right || top >= height || left >= width {
        return;
      }
      var b := Min(bot, height);
      var rt := Min(right, width);
      var regionHeight := b - top;
      if Abs(rows) >= regionHeight {
        ClearRect(top, b, left, rt);
        return;
      }
      if rows > 0 {
        CopyRowsForward(top, b - rows, left, rt, rows);
        ClearRect(b - rows, b, left, rt);
      } else {
        var n := -rows;
        CopyRowsBackward(top + n, b, left, rt, n);
        ClearRect(top, top + n, left, rt);
      }
    }

    /** The clearing loops of `scroll`: every cell of rows [lo, hi), columns [left, right). */
    method ClearRect(lo: nat, hi: nat, left: nat, right: nat)
      requires Valid() && hi <= height && right <= width
      modifies this
      ensures Valid() && width == old(width) && height == old(height)
      ensures cells == ClearedRect(old(cells), width, lo, hi, left, right)
    {
      var cur, w, h := cells, width, height;
      ghost var orig := cells;
      var r := lo;
      while r < hi
        invariant lo <= r && (r <= hi || r == lo)
        invariant |cur| == w * h
        modifies {}
        invariant ClearedUpTo(cur, orig, w, lo, r, r, left, left, right)
      {
        var c := left;
        while c < right
          invariant left <= c && (c <= right || c == left)
          invariant |cur| == w * h
          modifies {}
          invariant ClearedUpTo(cur, orig, w, lo, r, r, c, left, right)
        {
          ClearStep(cur, orig, w, h, lo, r, r, c, left, right);
          cur := cur[r * w + c := Cells.Clear(cur[r * w + c])];
          c := c + 1;
        }
        ClearRowFinished(cur, orig, w, lo, r, r, c, left, right);
        r := r + 1;
      }
      ClearDone(cur, orig, w, lo, r, lo, hi, left, right);
      cells := cur;
    }

    /** The copy loop of `scroll` for rows > 0: top to bottom, row r takes row r + n. */
    method CopyRowsForward(lo: nat, hi: nat, left: nat, right: nat, n: nat)
      requires Valid() && hi + n <= height && right <= width
      modifies this
      ensures Valid() && width == old(width) && height == old(height)
      ensures cells == CopiedRows(old(cells), width, lo, hi, left, right, n)
    {
      var cur, w, h := cells, width, height;
      ghost var orig := cells;
      ghost var d := n * w;
      var r := lo;
      while r < hi
        invariant lo <= r && (r <= hi || r == lo)
        invariant |cur| == w * h
        modifies {}
        invariant CopiedUpTo(cur, orig, w, lo, r, r, left, left, right, d)
      {
        var c := left;
        while c < right
          invariant left <= c && (c <= right || c == left)
          invariant |cur| == w * h
          modifies {}
          invariant CopiedUpTo(cur, orig, w, lo, r, r, c, left, right, d)
        {
          CopyStep(cur, orig, w, h, lo, r, r, c, left, right, n, d, r * w + c, (r + n) * w + c);
          cur := cur[r * w + c := cur[(r + n) * w + c]];
          c := c + 1;
        }
        CopyRowFinished(cur, orig, w, lo, r, r, c, left, right, d);
        r := r + 1;
      }
      CopyDone(cur, orig, w, lo, r, lo, hi, left, right, n, d);
      cells := cur;
    }

    /** The copy loop of `scroll` for rows < 0: bottom to top, row r takes row r - n. */
    method CopyRowsBackward(lo: nat, hi: nat, left: nat, right: nat, n: nat)
      requires Valid() && n <= lo && hi <= height && right <= width
      modifies this
      ensures Valid() && width == old(width) && height == old(height)
      ensures cells == CopiedRows(old(cells), width, lo, hi, left, right, -(n as int))
    {
      var cur, w, h := cells, width, height;
      ghost var orig := cells;
      ghost var d := -(n as int) * w;
      var r := hi;
      while r > lo
        invariant r <= hi && (lo <= r || r == hi)
        invariant |cur| == w * h
        modifies {}
        invariant CopiedUpTo(cur, orig, w, r, hi, r, left, left, right, d)
      {
        r := r - 1;
        var c := left;
        while c < right
          invariant left <= c && (c <= right || c == left)
          invariant |cur| == w * h
          modifies {}
          invariant CopiedUpTo(cur, orig, w, r + 1, hi, r, c, left, right, d)
        {
          var srcRow: nat := r - n;
          CopyStep(cur, orig, w, h, r + 1, hi, r, c, left, right, -(n as int), d, r * w + c, srcRow * w + c);
          cur := cur[r * w + c := cur[srcRow * w + c]];
          c := c + 1;
        }
        CopyRowFinished(cur, orig, w, r + 1, hi, r, c, left, right, d);
      }
      CopyDone(cur, orig, w, r, hi, lo, hi, left, right, -(n as int), d);
      cells := cur;
    }
  }

  /** Flat index i lies in rows [lo, hi) and columns [left, right). */
  ghost predicate InRect(i: nat, w: nat, lo: nat, hi: nat, left: nat, right: nat)
  {
    lo <= RowOf(i, w) < hi && left <= ColOf(i, w) < right
  }

  /** Progress of a row-by-row loop: rows [lo, hi) are done, and columns [left, c) of row r. */
  ghost predicate Visited(i: nat, w: nat, lo: nat, hi: nat, r: nat, c: nat, left: nat, right: nat)
  {
    InRect(i, w, lo, hi, left, right) || (RowOf(i, w) == r && left <= ColOf(i, w) < c)
  }

  /** The loops of `resize`: a default-filled vector of the new size with the
      overlapping corner of the old grid copied in, row by row. */
  method CopyOverlap(orig: seq<Cell>, w: nat, h: nat, nw: nat, nh: nat) returns (cur: seq<Cell>)
    requires |orig| == w * h
    ensures cur == ResizedCells(orig, w, h, nw, nh)
  {
    cur := seq(nw * nh, _ => Default());
    var copyWidth, copyHeight := Min(w, nw), Min(h, nh);
    ResizeStart(cur, orig, w, nw, copyWidth);
    var r := 0;
    while r < copyHeight
      invariant 0 <= r <= copyHeight && |cur| == nw * nh
      invariant ResizedUpTo(cur, orig, w, nw, r, 0, copyWidth)
    {
      var c := 0;
      while c < copyWidth
        invariant 0 <= c <= copyWidth && |cur| == nw * nh
        invariant ResizedUpTo(cur, orig, w, nw, r, c, copyWidth)
      {
        ResizeStep(cur, orig, w, h, nw, nh, r, c, copyWidth);
        cur := cur[r * nw + c := orig[r * w + c]];
        c := c + 1;
      }
      ResizeRowFinished(cur, orig, w, nw, r, copyWidth);
      r := r + 1;
    }
    ResizeDone(cur, orig, w, h, nw, nh);
  }

  /** Before the loop nothing is visited and every cell is default. */
  lemma ResizeStart(cur: seq<Cell>, orig: seq<Cell>, ow: nat, nw: nat, cw: nat)
    requires forall i :: 0 <= i < |cur| ==> cur[i] == Default()
    ensures ResizedUpTo(cur, orig, ow, nw, 0, 0, cw)
  {
  }

  /** A resize loop's progress: the cells it has reached hold the old grid's
      cell at the same (row, column), the others are still default. */
  ghost predicate ResizedUpTo(cur: seq<Cell>, orig: seq<Cell>, ow: nat, nw: nat, r: nat, c: nat, cw: nat)
  {
    forall i :: 0 <= i < |cur| ==>
      cur[i] == if Visited(i, nw, 0, r, r, c, 0, cw) then CellAt(orig, ow, RowOf(i, nw), ColOf(i, nw)) else Default()
  }

  /** One step of the resize loop: copying cell (r, c) extends the visited part by that cell. */
  lemma ResizeStep(cur: seq<Cell>, orig: seq<Cell>, ow: nat, oh: nat, nw: nat, nh: nat, r: nat, c: nat, cw: nat)
    requires |cur| == nw * nh && |orig| == ow * oh
    requires r < Min(oh, nh) && c < cw <= Min(ow, nw)
    requires ResizedUpTo(cur, orig, ow, nw, r, c, cw)
    ensures r * nw + c < |cur| && r * ow + c < |orig|
    ensures ResizedUpTo(cur[r * nw + c := orig[r * ow + c]], orig, ow, nw, r, c + 1, cw)
  {
    IndexBound(nw, nh, r, c);
    IndexBound(ow, oh, r, c);
    UpdateAt(cur, nw, r, c, orig[r * ow + c]);
  }

  /** A finished row joins the finished rows. */
  lemma ResizeRowFinished(cur: seq<Cell>, orig: seq<Cell>, ow: nat, nw: nat, r: nat, cw: nat)
    requires ResizedUpTo(cur, orig, ow, nw, r, cw, cw)
    ensures ResizedUpTo(cur, orig, ow, nw, r + 1, 0, cw)
  {
    forall i | 0 <= i < |cur|
      ensures cur[i] == if Visited(i, nw, 0, r + 1, r + 1, 0, 0, cw) then CellAt(orig, ow, RowOf(i, nw), ColOf(i, nw)) else Default()
    {
      RowFinished(i, nw, 0, r, r, cw, 0, cw, r + 1);
    }
  }

  /** When every overlapping row is copied, the vector is the resized grid. */
  lemma ResizeDone(cur: seq<Cell>, orig: seq<Cell>, ow: nat, oh: nat, nw: nat, nh: nat)
    requires |cur| == nw * nh
    requires ResizedUpTo(cur, orig, ow, nw, Min(oh, nh), 0, Min(ow, nw))
    ensures cur == ResizedCells(orig, ow, oh, nw, nh)
  {
  }

  /** A clearing loop's progress: the cells it has reached are default, the others untouched. */
  ghost predicate ClearedUpTo(cur: seq<Cell>, orig: seq<Cell>, w: nat, lo: nat, hi: nat, r: nat, c: nat, left: nat, right: nat)
  {
    |cur| == |orig| && forall i :: 0 <= i < |cur| ==> cur[i] == if Visited(i, w, lo, hi, r, c, left, right) then Default() else orig[i]
  }

  /** A copy loop's progress: the cells it has reached hold the cell `d` places on, the others are untouched. */
  ghost predicate CopiedUpTo(cur: seq<Cell>, orig: seq<Cell>, w: nat, lo: nat, hi: nat, r: nat, c: nat, left: nat, right: nat, d: int)
  {
    |cur| == |orig| && forall i :: 0 <= i < |cur| ==> cur[i] == if Visited(i, w, lo, hi, r, c, left, right) then Shifted(orig, i, d) else orig[i]
  }

  /** One step of a clearing loop: clearing (r, c) extends the visited part by that cell. */
  lemma ClearStep(cur: seq<Cell>, orig: seq<Cell>, w: nat, h: nat, lo: nat, hi: nat, r: nat, c: nat, left: nat, right: nat)
    requires |cur| == w * h && r < h && left <= c < w
    requires ClearedUpTo(cur, orig, w, lo, hi, r, c, left, right)
    ensures r * w + c < |cur|
    ensures ClearedUpTo(cur[r * w + c := Cells.Clear(cur[r * w + c])], orig, w, lo, hi, r, c + 1, left, right)
  {
    IndexBound(w, h, r, c);
    UpdateAt(cur, w, r, c, Default());
  }

  /** One step of a copy loop: cell j = (r, c) takes cell src = (r + delta, c), a row not written yet. */
  lemma CopyStep(cur: seq<Cell>, orig: seq<Cell>, w: nat, h: nat, lo: nat, hi: nat, r: nat, c: nat, left: nat, right: nat,
                 delta: int, d: int, j: nat, src: nat)
    requires |cur| == w * h && r < h && left <= c < w
    requires 0 <= r + delta < h && !(lo <= r + delta < hi)
    requires d == delta * w && j == r * w + c && src == (r + delta) * w + c
    requires CopiedUpTo(cur, orig, w, lo, hi, r, c, left, right, d)
    ensures j < |cur| && src < |cur|
    ensures CopiedUpTo(cur[j := cur[src]], orig, w, lo, hi, r, c + 1, left, right, d)
  {
    IndexBound(w, h, r, c);
    IndexBound(w, h, r + delta, c);
    IndexDivMod(w, r + delta, c);
    assert src == j + d;
    assert !Visited(src, w, lo, hi, r, c, left, right);
    assert cur[src] == Shifted(orig, j, d);
    forall i | 0 <= i < |cur|
      ensures cur[j := cur[src]][i] == if Visited(i, w, lo, hi, r, c + 1, left, right) then Shifted(orig, i, d) else orig[i]
    {
      FlatIndex(w, i, r, c);
    }
  }

  /** A finished row r just below (or just above) the finished rows [lo, hi)
      joins them; the new partial row is empty. */
  lemma RowFinished(i: nat, w: nat, lo: nat, hi: nat, r: nat, c: nat, left: nat, right: nat, r': nat)
    requires c == right || (c == left && right <= left)
    requires lo <= hi && (r == hi || r + 1 == lo)
    ensures Visited(i, w, lo, hi, r, c, left, right)
         == Visited(i, w, if r == hi then lo else r, if r == hi then hi + 1 else hi, r', left, left, right)
  {
  }

  lemma ClearRowFinished(cur: seq<Cell>, orig: seq<Cell>, w: nat, lo: nat, hi: nat, r: nat, c: nat, left: nat, right: nat)
    requires c == right || (c == left && right <= left)
    requires lo <= hi && r == hi
    requires ClearedUpTo(cur, orig, w, lo, hi, r, c, left, right)
    ensures ClearedUpTo(cur, orig, w, lo, hi + 1, hi + 1, left, left, right)
  {
    forall i | 0 <= i < |cur| ensures cur[i] == if Visited(i, w, lo, hi + 1, hi + 1, left, left, right) then Default() else orig[i]
    {
      RowFinished(i, w, lo, hi, r, c, left, right, hi + 1);
    }
  }

  lemma CopyRowFinished(cur: seq<Cell>, orig: seq<Cell>, w: nat, lo: nat, hi: nat, r: nat, c: nat, left: nat, right: nat, d: int)
    requires c == right || (c == left && right <= left)
    requires lo <= hi && (r == hi || r + 1 == lo)
    requires CopiedUpTo(cur, orig, w, lo, hi, r, c, left, right, d)
    ensures r == hi ==> CopiedUpTo(cur, orig, w, lo, hi + 1, hi + 1, left, left, right, d)
    ensures r + 1 == lo ==> CopiedUpTo(cur, orig, w, r, hi, r, left, left, right, d)
  {
    var r' := if r == hi then hi + 1 else r;
    forall i | 0 <= i < |cur|
      ensures cur[i] == if Visited(i, w, if r == hi then lo else r, if r == hi then hi + 1 else hi, r', left, left, right)
                        then Shifted(orig, i, d) else orig[i]
    {
      RowFinished(i, w, lo, hi, r, c, left, right, r');
    }
  }

  /** When the loop stops, the rows it finished are the rows [lo, hi) asked
      for (or both ranges are empty). */
  lemma ClearDone(cur: seq<Cell>, orig: seq<Cell>, w: nat, a: nat, b: nat, lo: nat, hi: nat, left: nat, right: nat)
    requires (a == lo && b == hi) || (b <= a && hi <= lo)
    requires ClearedUpTo(cur, orig, w, a, b, b, left, left, right)
    ensures cur == ClearedRect(orig, w, lo, hi, left, right)
  {
  }

  lemma CopyDone(cur: seq<Cell>, orig: seq<Cell>, w: nat, a: nat, b: nat, lo: nat, hi: nat, left: nat, right: nat, delta: int, d: int)
    requires (a == lo && b == hi) || (b <= a && hi <= lo)
    requires d == delta * w
    requires CopiedUpTo(cur, orig, w, a, b, a, left, left, right, d)
    ensures cur == CopiedRows(orig, w, lo, hi, left, right, delta)
  {
  }

  // ---------------------------------------------------------------------
  // Lemmas connecting the loops to their specifications, and what they mean
  // ---------------------------------------------------------------------

  /** One pass of `WriteRun`'s loop: the next cell of the run is written at the current column. */
  lemma WriteRunStep(orig: seq<Cell>, w: nat, h: nat, row: nat, col: nat, text: string, hl: nat,
                     written: Cell, j: nat, next: nat, cur: seq<Cell>)
    requires |orig| == w * h && row < h && next < w && next == Reach(col, j, w)
    requires written == WriteCell(Default(), text, hl)
    requires cur == LineWritten(orig, w, row, col, Rep(written, j))
    ensures row * w + next < |cur|
    ensures cur[row * w + next := WriteCell(cur[row * w + next], text, hl)] == LineWritten(orig, w, row, col, Rep(written, j + 1))
    ensures next + 1 == Reach(col, j + 1, w)
  {
    IndexBound(w, h, row, next);
    var e := Rep(written, j);
    assert next == col + |e|;
    WriteCellOverwrites(cur[row * w + next], Default(), text, hl);
    LineWrittenStep(orig, w, h, row, col, e, written);
    assert e + [written] == Rep(written, j + 1);
  }

  /** Once the run reaches the right edge, the rest of it writes nothing. */
  lemma WriteRunClipped(orig: seq<Cell>, w: nat, h: nat, row: nat, col: nat, written: Cell, j: nat, n: nat,
                        next: nat, cur: seq<Cell>)
    requires |orig| == w * h && j <= n && next >= w && next == Reach(col, j, w)
    requires cur == LineWritten(orig, w, row, col, Rep(written, j))
    ensures cur == LineWritten(orig, w, row, col, Rep(written, n)) && next == Reach(col, n, w)
  {
    LineWrittenClipped(orig, w, h, row, col, Rep(written, j), Rep(written, n - j));
    RepSplit([], written, j, n - j);
  }

  /** Writing one more cell at the current column is the same as extending the written run. */
  lemma LineWrittenStep(s: seq<Cell>, w: nat, h: nat, row: nat, colStart: nat, e: seq<Cell>, x: Cell)
    requires |s| == w * h && row < h && colStart + |e| < w
    ensures row * w + colStart + |e| < |s|
    ensures LineWritten(s, w, row, colStart, e)[row * w + colStart + |e| := x] == LineWritten(s, w, row, colStart, e + [x])
  {
    IndexBound(w, h, row, colStart + |e|);
    UpdateAt(LineWritten(s, w, row, colStart, e), w, row, colStart + |e|, x);
  }

  /** Writing e and then, from where that stopped, more, is the same as writing e + more. */
  lemma LineWrittenAppend(s: seq<Cell>, w: nat, h: nat, row: nat, colStart: nat, e: seq<Cell>, more: seq<Cell>)
    requires |s| == w * h
    ensures LineWritten(LineWritten(s, w, row, colStart, e), w, row, Reach(colStart, |e|, w), more) == LineWritten(s, w, row, colStart, e + more)
  {
    var col := Reach(colStart, |e|, w);
    forall i | 0 <= i < |s|
      ensures LineWritten(LineWritten(s, w, row, colStart, e), w, row, col, more)[i] == LineWritten(s, w, row, colStart, e + more)[i]
    {
      DecodeBound(w, h, i);
    }
  }

  /** Cells past the right edge are never written. */
  lemma LineWrittenClipped(s: seq<Cell>, w: nat, h: nat, row: nat, colStart: nat, e: seq<Cell>, more: seq<Cell>)
    requires |s| == w * h && Reach(colStart, |e|, w) >= w
    ensures LineWritten(s, w, row, colStart, e + more) == LineWritten(s, w, row, colStart, e)
  {
    forall i | 0 <= i < |s|
      ensures LineWritten(s, w, row, colStart, e + more)[i] == LineWritten(s, w, row, colStart, e)[i]
    {
      DecodeBound(w, h, i);
    }
  }

  /** Resizing to the same dimensions keeps every cell. */
  lemma ResizeSameSize(s: seq<Cell>, w: nat, h: nat)
    requires |s| == w * h
    ensures ResizedCells(s, w, h, w, h) == s
  {
    forall i | 0 <= i < |s| ensures ResizedCells(s, w, h, w, h)[i] == s[i] {
      DecodeBound(w, h, i);
    }
  }

  /**
   * After a resize, cell (r, c) of the new grid is the old cell (r, c) when that lies in both
   * grids, and the default cell otherwise.
   */
  lemma ResizeAt(s: seq<Cell>, ow: nat, oh: nat, nw: nat, nh: nat, r: nat, c: nat)
    requires |s| == ow * oh && r < nh && c < nw
    ensures r * nw + c < |ResizedCells(s, ow, oh, nw, nh)|
    ensures r < oh && c < ow ==> r * ow + c < |s|
    ensures ResizedCells(s, ow, oh, nw, nh)[r * nw + c] ==
      if r < oh && c < ow then s[r * ow + c] else Default()
  {
    var i := r * nw + c;
    IndexBound(nw, nh, r, c);
    IndexDivMod(nw, r, c);
    var cells := ResizedCells(s, ow, oh, nw, nh);
    assert cells[i] == if r < Min(oh, nh) && c < Min(ow, nw) then CellAt(s, ow, r, c) else Default();
    if r < oh && c < ow {
      IndexBound(ow, oh, r, c);
      assert CellAt(s, ow, r, c) == s[r * ow + c];
    }
  }

  /** update_line: cell (r, c) holds the written cell when on the row and inside the written span; otherwise it is untouched. */
  lemma UpdateLineAt(s: seq<Cell>, w: nat, h: nat, row: nat, colStart: nat, items: seq<LineItem>, r: nat, c: nat)
    requires |s| == w * h && r < h && c < w
    ensures r * w + c < |s|
    ensures LineWritten(s, w, row, colStart, Expand(items))[r * w + c] ==
      if r == row && colStart <= c < colStart + |Expand(items)| then Expand(items)[c - colStart] else s[r * w + c]
  {
    IndexBound(w, h, r, c);
    IndexDivMod(w, r, c);
  }

  /** Each item contributes max(repeat, 1) cells, so the expansion's length is the sum of those counts. */
  lemma {:induction false} ExpandLength(items: seq<LineItem>)
    ensures |Expand(items)| == RepeatTotal(items)
  {
    if items != [] {
      ExpandLength(items[..|items| - 1]);
    }
  }

  function RepeatTotal(items: seq<LineItem>): nat
  {
    if items == [] then 0 else RepeatTotal(items[..|items| - 1]) + Max(items[|items| - 1].repeat, 1)
  }

  /** A missing highlight id inherits the previous item's; the first item falls back to 0. */
  lemma LastHlInherits(items: seq<LineItem>, x: LineItem)
    ensures LastHl([x]) == (if x.hlId.Some? then x.hlId.value else 0)
    ensures LastHl(items + [x]) == (if x.hlId.Some? then x.hlId.value else LastHl(items))
  {
    assert (items + [x])[..|items|] == items;
    assert [x][..0] == [];
  }

  /** Every cell the last item writes carries that item's text and resolved highlight. */
  lemma {:induction false} ExpandLastItem(items: seq<LineItem>, x: LineItem, j: nat)
    requires j < Max(x.repeat, 1)
    ensures |Expand(items)| + j < |Expand(items + [x])|
    ensures Expand(items + [x])[|Expand(items)| + j] ==
      if x.text == "" then Cell("", LastHl(items + [x]), CellFlags(false, true)) else Cell(x.text, LastHl(items + [x]), NoFlags)
  {
    assert (items + [x])[..|items|] == items;
  }

  /** Cell (r, c) after clearing a rectangle: default inside it, unchanged outside. */
  lemma ClearedRectAt(s: seq<Cell>, w: nat, h: nat, lo: nat, hi: nat, left: nat, right: nat, r: nat, c: nat)
    requires |s| == w * h && r < h && c < w
    ensures r * w + c < |s|
    ensures ClearedRect(s, w, lo, hi, left, right)[r * w + c] == if lo <= r < hi && left <= c < right then Default() else s[r * w + c]
  {
    IndexBound(w, h, r, c);
    IndexDivMod(w, r, c);
  }

  /** Cell (r, c) after copying rows: inside the rectangle it is the old cell (r + delta, c). */
  lemma CopiedRowsAt(s: seq<Cell>, w: nat, h: nat, lo: nat, hi: nat, left: nat, right: nat, delta: int, r: nat, c: nat)
    requires |s| == w * h && r < h && c < w
    requires 0 <= lo + delta && hi + delta <= h
    ensures r * w + c < |s|
    ensures CopiedRows(s, w, lo, hi, left, right, delta)[r * w + c] ==
      if lo <= r < hi && left <= c < right then CellAt(s, w, r + delta, c) else s[r * w + c]
  {
    IndexBound(w, h, r, c);
    IndexDivMod(w, r, c);
    if lo <= r < hi && left <= c < right {
      var src: nat := r + delta;
      IndexBound(w, h, src, c);
      assert src * w + c == r * w + c + delta * w;
    }
  }

  /**
   * scroll, cell by cell. Outside the clamped region nothing changes. Inside it, when the shift
   * covers the whole region everything is cleared; with rows > 0 row r takes row r + rows and the
   * last `rows` rows are cleared; with rows < 0 row r takes row r + rows and the first -rows rows
   * are cleared.
   */
  lemma ScrollAt(s: seq<Cell>, w: nat, h: nat, top: nat, bot: nat, left: nat, right: nat, rows: int, r: nat, c: nat)
    requires |s| == w * h && r < h && c < w
    ensures r * w + c < |s|
    ensures ScrolledCells(s, w, h, top, bot, left, right, rows)[r * w + c] ==
      if top >= bot || left >= right || top >= h || left >= w then s[r * w + c]
      else if !(top <= r < Min(bot, h) && left <= c < Min(right, w)) then s[r * w + c]
      else if Abs(rows) >= Min(bot, h) - top then Default()
      else if rows > 0 then (if r + rows < Min(bot, h) then CellAt(s, w, r + rows, c) else Default())
      else (if r >= top - rows then CellAt(s, w, r + rows, c) else Default())
  {
    IndexBound(w, h, r, c);
    if top >= bot || left >= right || top >= h || left >= w {
      return;
    }
    var b, rt := Min(bot, h), Min(right, w);
    if Abs(rows) >= b - top {
      ClearedRectAt(s, w, h, top, b, left, rt, r, c);
    } else if rows > 0 {
      var t := CopiedRows(s, w, top, b - rows, left, rt, rows);
      ClearedRectAt(t, w, h, b - rows, b, left, rt, r, c);
      CopiedRowsAt(s, w, h, top, b - rows, left, rt, rows, r, c);
    } else {
      var t := CopiedRows(s, w, top - rows, b, left, rt, rows);
      ClearedRectAt(t, w, h, top, top - rows, left, rt, r, c);
      CopiedRowsAt(s, w, h, top - rows, b, left, rt, rows, r, c);
    }
  }

  /** Rows scrolled by zero are left exactly as they were. */
  lemma ScrollByZero(s: seq<Cell>, w: nat, h: nat, top: nat, bot: nat, left: nat, right: nat)
    requires |s| == w * h
    ensures ScrolledCells(s, w, h, top, bot, left, right, 0) == s
  {
    forall i | 0 <= i < |s| ensures ScrolledCells(s, w, h, top, bot, left, right, 0)[i] == s[i] {
      DecodeBound(w, h, i);
    }
  }
}
