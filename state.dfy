/**
 * The editor state that redraw events are applied to: the grids by id (the
 * main grid is id 1 and always exists), the highlight table, the cursor, the
 * cursor modes, and the dirty-row tracker of the main grid.
 */
module EditorStates {
  import opened Wrappers
  import opened Cells
  import opened Grids
  import opened Dirty
  import opened Highlight

  datatype CursorShape = Block | Horizontal | Vertical

  /** One entry of `mode_info_set`. `cellPercentage` is a u8 and the blink times u32s. */
  datatype ModeInfo = ModeInfo(
    cursorShape: CursorShape,
    cellPercentage: nat,
    attrId: nat,
    blinkWait: nat,
    blinkOn: nat,
    blinkOff: nat)

  const DefaultMode := ModeInfo(Block, 0, 0, 0, 0, 0)

  datatype Cursor = Cursor(grid: nat, row: nat, col: nat, visible: bool)

  /** The mode in force: the selected entry, or the first one when the index is out of range. */
  function ModeAt(modes: seq<ModeInfo>, index: nat): (m: ModeInfo)
    requires |modes| > 0
    ensures m in modes
    ensures index < |modes| ==> m == modes[index]
    ensures index >= |modes| ==> m == modes[0]
  {
    if index < |modes| then modes[index] else modes[0]
  }

  /** The mode list after `mode_info_set`: the given list, or one default mode when it is empty. */
  function ModesAfterSet(modes: seq<ModeInfo>): (r: seq<ModeInfo>)
    ensures |r| > 0
    ensures |modes| > 0 ==> r == modes
    ensures |modes| == 0 ==> r == [DefaultMode]
  {
    if |modes| == 0 then [DefaultMode] else modes
  }

  class EditorState {
    var grids: map<nat, Grid>
    const highlights: HighlightMap
    var cursor: Cursor
    var modes: seq<ModeInfo>
    var currentMode: nat
    const dirty: DirtyTracker
    const defaultCols: nat
    const defaultRows: nat

    /** Grid 1 exists; every grid is stored under its own id and is well formed;
        the tracker has one row per main-grid row; the mode list is never empty. */
    ghost predicate Valid()
      reads this, grids.Values, dirty, highlights
    {
      && 1 in grids
      && (forall k :: k in grids ==> grids[k].id == k && grids[k].Valid())
      && dirty.Valid() && highlights.Valid()
      && dirty.rowCount == grids[1].height
      && |modes| > 0
    }

    /** `new(cols, rows)`: a main grid of cols x rows, cursor visible at (0, 0) on
        grid 1, one default mode, every row dirty. */
    constructor(cols: nat, rows: nat)
      ensures Valid()
      ensures grids.Keys == {1} && grids[1].width == cols && grids[1].height == rows
      ensures grids[1].cells == seq(cols * rows, _ => Default())
      ensures cursor == Cursor(1, 0, 0, true)
      ensures modes == [DefaultMode] && currentMode == 0
      ensures dirty.fullDirty && dirty.chunks == Filled(ChunkCount(rows))
      ensures highlights.attributes == map[] && highlights.defaults == InitialDefaults()
    {
      var main := new Grid(1, cols, rows);
      grids := map[1 := main];
      highlights := new HighlightMap();
      cursor := Cursor(1, 0, 0, true);
      modes := [DefaultMode];
      currentMode := 0;
      dirty := new DirtyTracker(rows);
      defaultCols := cols;
      defaultRows := rows;
    }

    /** `main_grid`: grid 1, which always exists. */
    function MainGrid(): (g: Grid)
      reads this, grids.Values, dirty, highlights
      requires Valid()
      ensures g == grids[1] && g.id == 1 && g.Valid() && g.height == dirty.rowCount
    {
      grids[1]
    }

    /** `grid(id)`: the grid with that id, if any. */
    function GridById(id: nat): (g: Option<Grid>)
      reads this
      ensures g.Some? <==> id in grids
      ensures g.Some? ==> g.value == grids[id]
    {
      if id in grids then Some(grids[id]) else None
    }

    /** `current_mode`. */
    function CurrentMode(): (m: ModeInfo)
      reads this
      requires |modes| > 0
      ensures m in modes
    {
      ModeAt(modes, currentMode)
    }

    /** `grid_resize`: resizes an existing grid or creates a new one; for the main
        grid the tracker is resized, which marks every row dirty. */
    method GridResize(id: nat, width: nat, height: nat)
      requires Valid()
      modifies this, grids.Values, dirty
      ensures Valid()
      ensures grids.Keys == old(grids.Keys) + {id}
      ensures grids[id].width == width && grids[id].height == height
      ensures id in old(grids) ==> grids[id] == old(grids[id]) && grids[id].cells == ResizedCells(old(grids[id].cells), old(grids[id].width), old(grids[id].height), width, height)
      ensures id !in old(grids) ==> fresh(grids[id]) && grids[id].cells == seq(width * height, _ => Default())
      ensures forall k :: k in old(grids) && k != id ==> grids[k] == old(grids[k]) && unchanged(grids[k])
      ensures id == 1 ==> dirty.rowCount == height && dirty.fullDirty && dirty.chunks == Filled(ChunkCount(height))
      ensures id != 1 ==> unchanged(dirty)
      ensures cursor == old(cursor) && modes == old(modes) && currentMode == old(currentMode)
    {
      if id in grids {
        grids[id].Resize(width, height);
      } else {
        var g := new Grid(id, width, height);
        grids := grids[id := g];
      }
      if id == 1 {
        dirty.Resize(height);
      }
    }

    /** `grid_clear`: clears a known grid; for the main grid every row becomes dirty. */
    method GridClear(id: nat)
      requires Valid()
      modifies grids.Values, dirty
      ensures Valid()
      ensures id in grids ==> grids[id].width == old(grids[id].width) && grids[id].height == old(grids[id].height)
      ensures id in grids ==> grids[id].cells == seq(|old(grids[id].cells)|, _ => Default())
      ensures forall k :: k in grids && k != id ==> unchanged(grids[k])
      ensures dirty.rowCount == old(dirty.rowCount)
      ensures id == 1 ==> dirty.fullDirty && dirty.chunks == Filled(|old(dirty.chunks)|)
      ensures id != 1 ==> unchanged(dirty)
    {
      if id in grids {
        grids[id].Clear();
        if id == 1 {
          dirty.MarkAll();
        }
      }
    }

    /** `grid_line`: writes the items into a known grid; for the main grid the row is marked. */
    method GridLine(id: nat, row: nat, colStart: nat, items: seq<LineItem>)
      requires Valid()
      modifies grids.Values, dirty
      ensures Valid()
      ensures id in grids ==> grids[id].width == old(grids[id].width) && grids[id].height == old(grids[id].height)
      ensures id in grids && row < old(grids[id].height) ==> grids[id].cells == LineWritten(old(grids[id].cells), old(grids[id].width), row, colStart, Expand(items))
      ensures id in grids && row >= old(grids[id].height) ==> grids[id].cells == old(grids[id].cells)
      ensures forall k :: k in grids && k != id ==> unchanged(grids[k])
      ensures dirty.rowCount == old(dirty.rowCount) && dirty.fullDirty == old(dirty.fullDirty)
      ensures forall r: nat :: RowDirty(dirty.chunks, dirty.rowCount, r) == (RowDirty(old(dirty.chunks), dirty.rowCount, r) || (id == 1 && r == row && row < dirty.rowCount))
    {
      if id in grids {
        grids[id].UpdateLine(row, colStart, items);
        if id == 1 {
          MarkOne(row);
        }
      }
    }

    /** `grid_scroll`: scrolls a region of a known grid; for the main grid rows [top, bot) are marked. */
    method GridScroll(id: nat, top: nat, bot: nat, left: nat, right: nat, rows: int)
      requires Valid()
      modifies grids.Values, dirty
      ensures Valid()
      ensures id in grids ==> grids[id].width == old(grids[id].width) && grids[id].height == old(grids[id].height)
      ensures id in grids ==> grids[id].cells == ScrolledCells(old(grids[id].cells), old(grids[id].width), old(grids[id].height), top, bot, left, right, rows)
      ensures forall k :: k in grids && k != id ==> unchanged(grids[k])
      ensures dirty.rowCount == old(dirty.rowCount) && dirty.fullDirty == old(dirty.fullDirty)
      ensures forall r: nat :: RowDirty(dirty.chunks, dirty.rowCount, r) == (RowDirty(old(dirty.chunks), dirty.rowCount, r) || (id == 1 && top <= r < bot && r < dirty.rowCount))
    {
      if id in grids {
        grids[id].Scroll(top, bot, left, right, rows);
        if id == 1 {
          dirty.MarkRows(top, bot);
        }
      }
    }

    /** `grid_cursor_goto`: marks the old cursor row (if on grid 1), moves the
        cursor, and marks the new row (if on grid 1). */
    method GridCursorGoto(id: nat, row: nat, col: nat)
      requires Valid()
      modifies this, dirty
      ensures Valid() && grids == old(grids) && modes == old(modes) && currentMode == old(currentMode)
      ensures cursor == old(cursor).(grid := id, row := row, col := col)
      ensures dirty.rowCount == old(dirty.rowCount) && dirty.fullDirty == old(dirty.fullDirty)
      ensures forall r: nat :: RowDirty(dirty.chunks, dirty.rowCount, r) == (RowDirty(old(dirty.chunks), dirty.rowCount, r) || (old(cursor.grid) == 1 && r == old(cursor.row) && r < dirty.rowCount) || (id == 1 && r == row && r < dirty.rowCount))
    {
      if cursor.grid == 1 {
        MarkOne(cursor.row);
      }
      cursor := cursor.(grid := id, row := row, col := col);
      if id == 1 {
        MarkOne(row);
      }
    }

    /** `hl_attr_define`: only the highlight table changes; no row is marked. */
    method HlAttrDefine(id: nat, attrs: HighlightAttributes)
      requires Valid()
      modifies highlights
      ensures Valid() && unchanged(dirty) && highlights.defaults == old(highlights.defaults)
      ensures highlights.attributes == Defined(old(highlights.attributes), id, attrs)
    {
      highlights.Define(id, attrs);
    }

    /** `default_colors_set`: stores the three colours (through `from_u24`) and marks every row. */
    method DefaultColorsSet(fg: bv32, bg: bv32, sp: bv32)
      requires Valid()
      modifies highlights, dirty
      ensures Valid() && highlights.attributes == old(highlights.attributes)
      ensures highlights.defaults == DefaultColors(FromU24(fg), FromU24(bg), FromU24(sp))
      ensures dirty.rowCount == old(dirty.rowCount) && dirty.fullDirty && dirty.chunks == Filled(|old(dirty.chunks)|)
    {
      highlights.SetDefaults(FromU24(fg), FromU24(bg), FromU24(sp));
      dirty.MarkAll();
    }

    /** `mode_info_set`: replaces the mode list, never leaving it empty. */
    method ModeInfoSet(newModes: seq<ModeInfo>)
      requires Valid()
      modifies this
      ensures Valid() && grids == old(grids) && cursor == old(cursor) && currentMode == old(currentMode)
      ensures modes == ModesAfterSet(newModes)
    {
      modes := newModes;
      if |modes| == 0 {
        modes := modes + [DefaultMode];
      }
    }

    /** `mode_change`: selects a mode by index and marks the cursor row. */
    method ModeChange(mode: string, index: nat)
      requires Valid()
      modifies this, dirty
      ensures Valid() && grids == old(grids) && cursor == old(cursor) && modes == old(modes)
      ensures currentMode == index
      ensures dirty.rowCount == old(dirty.rowCount) && dirty.fullDirty == old(dirty.fullDirty)
      ensures forall r: nat :: RowDirty(dirty.chunks, dirty.rowCount, r) == (RowDirty(old(dirty.chunks), dirty.rowCount, r) || (r == cursor.row && r < dirty.rowCount))
    {
      currentMode := index;
      MarkOne(cursor.row);
    }

    /** `clear_dirty`: forgets all damage after a frame. */
    method ClearDirty()
      requires Valid()
      modifies dirty
      ensures Valid() && dirty.rowCount == old(dirty.rowCount) && !dirty.fullDirty
      ensures dirty.chunks == Zeroed(|old(dirty.chunks)|)
    {
      dirty.Clear();
    }

    /** `dirty.mark_row(row)`, stated row by row. */
    method MarkOne(row: nat)
      requires Valid()
      modifies dirty
      ensures Valid() && dirty.rowCount == old(dirty.rowCount) && dirty.fullDirty == old(dirty.fullDirty)
      ensures forall r: nat :: RowDirty(dirty.chunks, dirty.rowCount, r) == (RowDirty(old(dirty.chunks), dirty.rowCount, r) || (r == row && row < dirty.rowCount))
    {
      ghost var before := dirty.chunks;
      dirty.MarkRow(row);
      if row < dirty.rowCount {
        forall r: nat
          ensures RowDirty(dirty.chunks, dirty.rowCount, r) == (RowDirty(before, dirty.rowCount, r) || r == row)
        {
          SetRowBitRows(before, dirty.rowCount, row, r);
        }
      }
    }
  }
}
