# gui.nvim core, modelled in Dafny

gui.nvim is a GPU-accelerated Neovim front end. Neovim sends it msgpack
`redraw` notifications. It keeps the editor's grids, highlights, modes and
cursor in sync with them, turns each grid row into runs of text, shapes
those runs with the available fonts and packs the glyphs into a texture
atlas. It then emits one GPU quad per background, glyph, decoration and
cursor. In the other direction, it turns key presses, mouse events and
command-line arguments into Neovim's notation.

This project models the logic between a decoded redraw event and the list
of GPU quad records, plus the policy functions around it. Each Rust source
file has one Dafny module:

- **Editor state:** `Cells`, `Grids`, `Dirty`, `Highlight` and `EditorStates`.
  A grid is a class over a flat row-major sequence of cells. The dirty
  tracker is a class over a faithful bitmap of 64-bit words. The highlight
  map is a class over a map.
- **Redraw parser:** `Ui`, over a small msgpack `Value` datatype.
- **Input translation:** `Keyboard`, `Mouse` and `Cli`.
- **Fonts and caches:**
  - `Fallbacks`, the memoising fallback resolver.
  - `FontCollection`, the per-style face lists and the glyph search order.
  - `GlyphCaches` and `Fonts`.
  - `Atlas`, the shelf packer plus the glyph cache that also records failures.
  - `FeatureTags` and `Shaper`, for OpenType tags and run splitting.
  - `ShapingCaches`, the FIFO-evicting cache.
  - `Runs`, which groups cells into runs.
- **Instance building:** `Pipeline` (quad records and flags), `Batches`
  (instance lists and capacity growth), `Geometry` (decoration and cursor
  rectangles over reals) and `GridRendering` (the per-cell emission rules).
- **Surface and life cycle:** `GpuContexts` (present mode, frame latency,
  size guards) and `RenderLoops` (the renderer-initialisation state machine
  and the mapping of render errors).

Code that works by updating state in place becomes classes whose methods
state their whole new state in terms of specification functions. Those
functions carry the lemmas. Pure code becomes functions and lemmas.

Some things are inputs rather than code here:
- Rasterisation, `glyph_index`, HarfBuzz shaping and the system font
  fallback are function-valued parameters or `const` fields.
- Hashing is replaced by Dafny maps.
- Renderer colours are values produced by a conversion function that is
  not interpreted.

## Model

| member | source | states |
|---|---|---|
| Cells.Default | src/editor/cell.rs:31-39 | the default cell is a space with highlight 0 and no flags, and it is empty |
| Cells.New | src/editor/cell.rs:43-49 | a new cell holds the given text and highlight id, neither wide nor a spacer |
| Cells.SetWide | src/editor/cell.rs:69-71 | only the wide flag changes, to the given value; a wide cell is never empty |
| Cells.SetWideSpacer | src/editor/cell.rs:74-76 | only the spacer flag changes, to the given value; a spacer is never empty |
| Cells.Clear | src/editor/cell.rs:79-84 | whatever the cell held, it becomes the default (empty) cell |
| Cells.EmptyCells | src/editor/cell.rs:52-56 | `is_empty` holds exactly for the two blank cells, `" "` and `""` with highlight 0 and no flags |
| Grids.Grid.constructor | src/editor/grid.rs:22-31 | a new grid has the given id and size and width * height default cells |
| Grids.Grid.Get | src/editor/grid.rs:56-62 | a cell is returned exactly when row and column are in range, and it is the one at flat index row * width + col |
| Grids.Grid.Index | src/editor/grid.rs:232-236 | `grid[(row, col)]` returns the same cell `get` does for an in-range position |
| Grids.Grid.Row | src/editor/grid.rs:77-85 | a row is returned exactly when it is in range; it has `width` cells, cell c being `get(row, c)` |
| Grids.Grid.Rows | src/editor/grid.rs:99-101 | there is one row per grid row, row r being `row(r)` |
| Grids.Grid.Clear | src/editor/grid.rs:104-108 | every cell becomes the default cell; the size is kept |
| Grids.Grid.Resize | src/editor/grid.rs:112-135 | the grid takes the new size; the overlapping corner keeps its cells and the rest is default; the same size changes nothing |
| Grids.ResizeAt | src/editor/grid.rs:112-135 | after a resize, new cell (r, c) is old cell (r, c) when it lay in the old grid, otherwise the default cell |
| Grids.ResizeSameSize | src/editor/grid.rs:113-115 | resizing to the current size leaves every cell as it was |
| Grids.CopyOverlap | src/editor/grid.rs:117-129 | the copy loops build a default-filled vector of the new size holding every old cell of the overlapping corner at the same row and column, i.e. exactly `ResizedCells` |
| Grids.Grid.UpdateLine | src/editor/grid.rs:141-178 | a `grid_line` event on a row off the grid changes nothing; otherwise the row, from `col_start` up to the right edge, receives the expanded items and every other cell is kept |
| Grids.Grid.WriteRun | src/editor/grid.rs:160-176 | one item's repeat loop writes the same cell n times from the current column and stops at the right edge, returning the column reached |
| Grids.UpdateLineAt | src/editor/grid.rs:141-178 | cell by cell: on the row inside the written span a cell holds the expanded item for its column, and every other cell is untouched |
| Grids.WriteCellOverwrites | src/editor/grid.rs:165-174 | the written cell does not depend on the old cell: empty text gives a spacer (not wide) with the highlight, other text gives that text with no flags |
| Grids.ExpandLength | src/editor/grid.rs:160 | every item writes max(repeat, 1) cells |
| Grids.LastHlInherits | src/editor/grid.rs:151-156 | an item without a highlight id takes the previous item's, and the first item falls back to 0 |
| Grids.ExpandLastItem | src/editor/grid.rs:155-175 | every cell written for an item carries its text (or is a spacer) and the highlight resolved for it |
| Grids.LineWrittenClipped | src/editor/grid.rs:160-163 | once the right edge is reached, further cells of the line write nothing |
| Grids.LineWrittenAppend | src/editor/grid.rs:150-177 | writing one run and then the next from where it stopped is writing both runs together |
| Grids.Grid.Scroll | src/editor/grid.rs:180-229 | a `grid_scroll` event leaves the cells as `ScrolledCells` describes: an empty or off-grid region changes nothing, a shift at least the region's height clears it, otherwise rows move by `rows` and the vacated rows are cleared |
| Grids.ScrollAt | src/editor/grid.rs:180-229 | cell by cell: outside the clamped region nothing changes; inside it cell (r, c) takes cell (r + rows, c) when that row is still in the region, and the default cell otherwise |
| Grids.ScrollByZero | src/editor/grid.rs:180-229 | a scroll by zero rows leaves every cell as it was |
| Grids.Grid.ClearRect | src/editor/grid.rs:190-194 | every cell of the rectangle becomes the default cell and every other cell is kept |
| Grids.ClearedRectAt | src/editor/grid.rs:190-194 | cell by cell: default inside the rectangle, unchanged outside |
| Grids.Grid.CopyRowsForward | src/editor/grid.rs:199-207 | for rows > 0, each row of the rectangle takes the cells `rows` rows below it, although the copy runs top to bottom in place |
| Grids.Grid.CopyRowsBackward | src/editor/grid.rs:214-222 | for rows < 0, each row of the rectangle takes the cells -rows rows above it, although the copy runs bottom to top in place |
| Grids.CopiedRowsAt | src/editor/grid.rs:199-222 | cell by cell: inside the rectangle a cell is the old cell `delta` rows away, outside it is unchanged |
| Dirty.ChunkCount | src/editor/dirty.rs:19 | `(rows + 63) / 64` chunks are exactly enough 64-bit chunks for the rows: none for no rows, and no chunk wholly unused |
| Dirty.DirtyTracker.constructor | src/editor/dirty.rs:18-25 | `new` (and `default`, which is `new(0)`) fills every chunk with ones and sets the full flag |
| Dirty.AllRowsDirtyAfterFill | src/editor/dirty.rs:18-25 | after `new`, `resize` or `mark_all` every tracked row is dirty |
| Dirty.FilledAllDirty | src/editor/dirty.rs:52-57 | all-ones chunks keep the bitmap invariant and make every tracked row dirty |
| Dirty.DirtyTracker.IsRowDirty | src/editor/dirty.rs:69-77 | a row is reported dirty exactly when it is tracked and its bit is set; an untracked row never is |
| Dirty.DirtyTracker.HasDirty | src/editor/dirty.rs:80-82 | "some chunk is non-zero" holds exactly when some tracked row is dirty |
| Dirty.AnyChunkSetIffDirtyRow | src/editor/dirty.rs:80-82 | on every bitmap that keeps the invariant (all chunks saturated, or no bit set past the row count), a non-zero chunk means a dirty tracked row and conversely |
| Dirty.DirtyTracker.MarkRow | src/editor/dirty.rs:34-40 | a tracked row gets its bit set; an untracked row changes nothing |
| Dirty.SetRowBitRows | src/editor/dirty.rs:34-40 | setting a row's bit makes exactly that row dirty and leaves every other row as it was |
| Dirty.SetRowBitRaw | src/editor/dirty.rs:36-38 | `chunk |= 1 << bit` sets the row's own raw bit and no other |
| Dirty.SetRowBitWellFormed | src/editor/dirty.rs:34-40 | marking a tracked row keeps the bitmap invariant |
| Dirty.BitOfInjective | src/editor/dirty.rs:36-37 | two rows in the same chunk have different bit positions |
| Dirty.DirtyTracker.MarkRows | src/editor/dirty.rs:43-49 | the rows dirty afterwards are those dirty before plus exactly the tracked rows of [start, end) |
| Dirty.DirtyTracker.MarkAll | src/editor/dirty.rs:52-57 | every chunk becomes all ones and the full flag is set |
| Dirty.DirtyTracker.Clear | src/editor/dirty.rs:60-65 | every chunk becomes zero and the full flag is reset |
| Dirty.NoRowDirtyAfterClear | src/editor/dirty.rs:60-65 | after `clear` no row is dirty and `has_dirty` is false |
| Dirty.ZeroedNoneDirty | src/editor/dirty.rs:60-65 | zeroed chunks keep the invariant and hold no dirty row and no set chunk |
| Dirty.DirtyTracker.DirtyRows | src/editor/dirty.rs:92-94 | the listed rows are exactly the dirty ones, in strictly increasing order |
| Dirty.DirtyTracker.Resize | src/editor/dirty.rs:98-103 | after a resize there are `(n + 63) / 64` chunks, all ones, the new row count and the full flag |
| Highlight.FromRgb | src/editor/highlight.rs:12-14 | the packed colour reads back the three channels it was built from, with alpha 0xFF |
| Highlight.FromRgbOfChannels | src/editor/highlight.rs:12-47 | every opaque colour is `from_rgb` of its own channel accessors, so packing and unpacking are inverse |
| Highlight.FromU24 | src/editor/highlight.rs:17-23 | a 24-bit 0xRRGGBB value becomes 0xRRGGBBFF; bits above 24 are dropped |
| Highlight.FromU24Low24 | src/editor/highlight.rs:17-23 | inputs that agree on their low 24 bits give the same colour |
| Highlight.UnderlineStyleOf | src/editor/highlight.rs:89-105 | each kind exactly when its bit is set and no bit earlier in the order curl, double, dotted, dashed, single is; no underline exactly when none of the five underline bits is set |
| Highlight.InitialDefaults | src/editor/highlight.rs:188-196 | the built-in default colours are opaque and the foreground differs from the background |
| Highlight.EffectiveFg | src/editor/highlight.rs:133-139 | without REVERSE the foreground (else the default foreground); with it the background (else the default background) |
| Highlight.EffectiveBg | src/editor/highlight.rs:143-149 | without REVERSE the background (else the default background); with it the foreground (else the default foreground) |
| Highlight.ReverseSwaps | src/editor/highlight.rs:133-149 | setting REVERSE exchanges the effective foreground and background |
| Highlight.EffectiveSpecial | src/editor/highlight.rs:153-155 | the special colour, else the foreground, else the default special colour |
| Highlight.DefaultAttrsColours | src/editor/highlight.rs:225-240 | the default attributes draw in the default colours, with no underline, strikethrough, bold or italic |
| Highlight.Defined | src/editor/highlight.rs:215-221 | `define` with id 0 leaves the table as it was; any other id becomes a key |
| Highlight.Lookup | src/editor/highlight.rs:225-240 | id 0 and unknown ids read as the default attributes; a stored id reads as its attributes |
| Highlight.LookupDefined | src/editor/highlight.rs:215-240 | after `define(id, attrs)` a lookup of a non-zero id gives attrs, and every other lookup is unchanged |
| Highlight.HighlightMap.constructor | src/editor/highlight.rs:210-212 | a new map holds no definitions and the built-in default colours |
| Highlight.HighlightMap.Define | src/editor/highlight.rs:215-221 | the table becomes `Defined(old table, id, attrs)`, id 0 is never stored, and the defaults are kept |
| Highlight.HighlightMap.Get | src/editor/highlight.rs:225-240 | the stored attributes of a non-zero id, else the default attributes |
| Highlight.HighlightMap.SetDefaults | src/editor/highlight.rs:243-249 | the three default colours are replaced and the table is kept |
| Highlight.HighlightMap.Clear | src/editor/highlight.rs:253-255 | every definition is dropped and the default colours are kept |
| EditorStates.ModeAt | src/editor/state.rs:115-117 | the current mode is the selected entry, or the first entry when the index is out of range; it is always one of the modes |
| EditorStates.ModesAfterSet | src/editor/state.rs:206-211 | `mode_info_set` stores the given list, or one default mode when the list is empty, so the list is never empty |
| EditorStates.EditorState.constructor | src/editor/state.rs:64-82 | a new state holds only main grid 1 of cols x rows default cells, the cursor visible at (0, 0) on grid 1, one default mode, an empty highlight table and a tracker with every row dirty |
| EditorStates.EditorState.MainGrid | src/editor/state.rs:85-87 | grid 1 always exists, and the tracker has one row per main-grid row |
| EditorStates.EditorState.GridById | src/editor/state.rs:95-97 | a grid is returned exactly when one is stored under the id |
| EditorStates.EditorState.CurrentMode | src/editor/state.rs:115-117 | the current mode is one of the defined modes |
| EditorStates.EditorState.GridResize | src/editor/state.rs:120-131 | an existing grid is resized in place and an unknown id gets a new default grid; other grids are untouched; for grid 1 the tracker follows the new height with every row dirty |
| EditorStates.EditorState.GridClear | src/editor/state.rs:134-141 | a known grid is reset to default cells and keeps its width and height; other grids are untouched; the tracker keeps its row count, and for grid 1 every row becomes dirty; an unknown id changes nothing |
| EditorStates.EditorState.GridLine | src/editor/state.rs:144-157 | the items are written into the row of a known grid as `update_line` does, against its unchanged width and height; for grid 1 exactly that row is added to the dirty rows |
| EditorStates.EditorState.GridScroll | src/editor/state.rs:160-175 | a known grid is scrolled as `scroll` does, within its unchanged width and height; for grid 1 exactly the tracked rows of [top, bot) are added to the dirty rows |
| EditorStates.EditorState.GridCursorGoto | src/editor/state.rs:178-188 | the cursor moves; the dirty rows gain the old cursor row when the cursor was on grid 1 and the new row when it is on grid 1, and nothing else |
| EditorStates.EditorState.HlAttrDefine | src/editor/state.rs:191-193 | only the highlight table changes, as `define` does; no row is marked dirty |
| EditorStates.EditorState.DefaultColorsSet | src/editor/state.rs:196-203 | the default colours become the three 24-bit values unpacked by `from_u24`, and every row becomes dirty |
| EditorStates.EditorState.ModeInfoSet | src/editor/state.rs:206-211 | the mode list becomes the given list, never empty |
| EditorStates.EditorState.ModeChange | src/editor/state.rs:214-217 | the mode index is stored unchecked and exactly the cursor row is added to the dirty rows |
| EditorStates.EditorState.ClearDirty | src/editor/state.rs:225-227 | every dirty bit and the full flag are cleared |
| EditorStates.EditorState.MarkOne | src/editor/dirty.rs:34-40 | marking one row adds exactly that row (when tracked) to the dirty rows |
| Ui.AsU64 | src/bridge/ui.rs:461-466 | an integer is accepted exactly when it lies in the u64 range, and is returned unchanged |
| Ui.AsI64 | src/bridge/ui.rs:468-473 | an integer is accepted exactly when it lies in the i64 range, and is returned unchanged |
| Ui.AsU32 | src/bridge/ui.rs:475-477 | accepted exactly when `as_u64` accepts; the result is the value truncated to 32 bits (below 2^32 and congruent modulo 2^32) |
| Ui.ParseGridResize | src/bridge/ui.rs:138-147 | an event exactly when there are at least three arguments and all three are u64 integers; it carries them in order |
| Ui.ParseGridClear | src/bridge/ui.rs:149-156 | an event exactly when the first argument is a u64 integer |
| Ui.ParseGridScroll | src/bridge/ui.rs:211-223 | an event exactly when there are six arguments, five u64 and then one i64 integer; it carries them in order |
| Ui.ParseGridCursorGoto | src/bridge/ui.rs:225-234 | an event exactly when there are three u64 integer arguments; it carries them in order |
| Ui.ParseGridDestroy | src/bridge/ui.rs:236-243 | an event exactly when the first argument is a u64 integer |
| Ui.ParseHlGroupSet | src/bridge/ui.rs:340-348 | an event exactly when a string name is followed by a u64 id |
| Ui.ParseDefaultColorsSet | src/bridge/ui.rs:350-359 | an event exactly when there are three u64 integers; each colour is its argument truncated to 32 bits |
| Ui.ParseModeChange | src/bridge/ui.rs:423-431 | an event exactly when a string mode name is followed by a u64 index |
| Ui.ParseSetTitle | src/bridge/ui.rs:433-440 | an event exactly when the first argument is a string |
| Ui.ParseSetIcon | src/bridge/ui.rs:442-449 | an event exactly when the first argument is a string |
| Ui.ParseOptionSet | src/bridge/ui.rs:451-459 | an event exactly when the first of two arguments is a string; the value is kept as is |
| Ui.CellOf | src/bridge/ui.rs:169-198 | a kept cell came from a non-empty array; its text is the first element if a string, else a space; its highlight is the second element if a u64; its repeat is the third element when that is a usize and 1 otherwise; the cell is kept exactly when the element is a non-empty array whose repeat is not 0 |
| Ui.LineCells | src/bridge/ui.rs:168-199 | the cell loop keeps at most one cell per element, each with a positive repeat |
| Ui.LineCellsKept | src/bridge/ui.rs:168-199 | the cells are exactly the kept elements' cells, in list order: each cell comes from an element whose cell it is, at strictly increasing positions, and every element that yields a cell is among them |
| Ui.GridLineOf | src/bridge/ui.rs:158-209 | fewer than four arguments give nothing; an event carries exactly the cells kept from the fourth argument |
| Ui.ParseGridLine | src/bridge/ui.rs:158-209 | the cell loop builds the same event as `GridLineOf` |
| Ui.StyleFlagFor | src/bridge/ui.rs:273-322 | a key sets one of the ten style bits or none |
| Ui.HlAttrDefineOf | src/bridge/ui.rs:245-338 | an event exactly when a u64 id is followed by a map; the attributes are those its entries build from the defaults |
| Ui.ParseHlAttrDefine | src/bridge/ui.rs:245-338 | the entry loop builds the same event as `HlAttrDefineOf` |
| Ui.AttrsFlagIff | src/bridge/ui.rs:250-337 | a style bit ends up set exactly when some entry names it with the boolean value true |
| Ui.OrStyleBit | src/bridge/ui.rs:273-322 | or-ing in one style bit leaves the other style bits unchanged |
| Ui.UnknownKeyIgnored | src/bridge/ui.rs:333 | an entry whose key names no attribute changes nothing |
| Ui.ShapeOf | src/bridge/ui.rs:373-380 | horizontal and vertical exactly for those two names; anything else is a block |
| Ui.ModesOf | src/bridge/ui.rs:368-417 | the mode list parses exactly when every element is a map, giving one mode per map in order |
| Ui.ModeInfoSetOf | src/bridge/ui.rs:361-421 | fewer than two arguments give nothing; an event carries the cursor-style flag (true unless a boolean says otherwise) and the parsed modes |
| Ui.ParseModeInfoSet | src/bridge/ui.rs:361-421 | the loops build the same event as `ModeInfoSetOf` |
| Ui.SingleEventOf | src/bridge/ui.rs:110-136 | the five argument-free events are recognised by name alone, and an unknown name yields nothing |
| Ui.ParseSingleEvent | src/bridge/ui.rs:110-136 | the dispatch gives the same event as `SingleEventOf` |
| Ui.ArgEvents | src/bridge/ui.rs:98-104 | each argument list yields at most one event |
| Ui.BatchEvents | src/bridge/ui.rs:86-105 | a non-array batch, an empty one or one without a string name yields nothing, and an array batch yields fewer events than it has elements |
| Ui.RedrawAppend | src/bridge/ui.rs:83-108 | parsing two runs of batches in turn gives their events in turn |
| Ui.ArgEventsAppend | src/bridge/ui.rs:98-104 | argument lists are processed in order |
| Ui.UnknownNameYieldsNothing | src/bridge/ui.rs:110-136 | an unknown event name yields no event, whatever its arguments |
| Ui.ParseRedraw | src/bridge/ui.rs:83-108 | the batch loops build exactly the events `Redraw` describes |
| Ui.ParseBatchArgs | src/bridge/ui.rs:98-104 | the loop over one batch's argument lists pushes exactly the events `ArgEvents` describes, in order, skipping non-array lists |
| Cli.ParseArgs | src/cli.rs:9-20 | no argument after the program name runs Neovim with nothing; a recognised first argument selects env, help or version; anything else runs Neovim with every argument after the program name |
| Cli.OnlyFirstArgumentDecides | src/cli.rs:9-20 | two argument lists with the same first argument choose the same kind of action, and the same action when it is not a run |
| Cli.RunPassesArguments | src/cli.rs:10-15 | a run passes the arguments after the program name through unchanged and in order |
| Keyboard.NamedKeyToStr | src/input/keyboard.rs:47-90 | a named key has a Neovim name exactly when it is not a modifier, a lock key or a key outside the table |
| Keyboard.NamedKeyNamesDistinct | src/input/keyboard.rs:47-90 | no two named keys share a Neovim name |
| Keyboard.NamedKeyNameRoundTrip | src/input/keyboard.rs:47-90 | every name the named-key table gives reads back, through the inverse table, as the key it came from |
| Keyboard.PhysicalKeycodeToStr | src/input/keyboard.rs:104-152 | a physical key code has a Neovim name exactly when it is in the table |
| Keyboard.PhysicalAgreesWithNamed | src/input/keyboard.rs:47-152 | each of the 27 keys both tables list (Enter to the arrows, and F1 to F12) gets the same name from its physical code as from its named key, and the numpad Enter is `CR` like Enter |
| Keyboard.NamedOnlyKeys | src/input/keyboard.rs:47-152 | Help and Undo are the only named keys with a Neovim name that have no physical counterpart |
| Keyboard.EscapeLiteral | src/input/keyboard.rs:183-190 | `<`, `\` and `|` become `<lt>`, `<Bslash>` and `<Bar>`; every other key is unchanged |
| Keyboard.EscapeRoundTrip | src/input/keyboard.rs:183-190 | reading the notation back recovers the key, for every key that is not itself one of the three escape names |
| Keyboard.FormatWithModifiers | src/input/keyboard.rs:154-181 | the prefix loop builds the same notation as `Formatted` |
| Keyboard.PrefixReadsBack | src/input/keyboard.rs:165-178 | the prefix spells exactly which of logo, ctrl, alt and a relevant shift were held, in the order D- C- M- S- |
| Keyboard.UnmodifiedKeys | src/input/keyboard.rs:158-164 | with nothing held a special key is written in angle brackets and a character key is escaped |
| Keyboard.ShiftedCharacterStaysLiteral | src/input/keyboard.rs:156-164 | Shift alone does not make a character key special |
| Keyboard.KeyEventToNeovim | src/input/keyboard.rs:23-45 | releases and dead keys give nothing; named keys and the physical fallback of unidentified keys are formatted as special when they have a name; a character key is formatted literally unless it is a single control character |
| Keyboard.TryPhysicalKey | src/input/keyboard.rs:96-102 | an unidentified physical key or a code with no name gives nothing; otherwise the code's name is formatted as a special key |
| Mouse.ActionName | src/input/mouse.rs:17-24 | press, release, drag and move are named `press`, `release`, `drag` and `move`, each name belonging to exactly one action; every name is a lower-case word |
| Mouse.ButtonName | src/input/mouse.rs:35-41 | the left, right and middle buttons are named `left`, `right` and `middle`, each name belonging to exactly one button; every name is a lower-case word |
| Mouse.DirectionName | src/input/mouse.rs:114-121 | up, down, left and right are named `up`, `down`, `left` and `right`, each name belonging to exactly one direction; every name is a lower-case word |
| Mouse.NamesDistinct | src/input/mouse.rs:17-41 | no two mouse actions share a name, and no two buttons do |
| Mouse.DirectionNamesDistinct | src/input/mouse.rs:114-121 | no two scroll directions share a name |
| Mouse.MouseButtonToType | src/input/mouse.rs:44-51 | only the left, right and middle buttons map, each to its own type |
| Mouse.ModifiersToString | src/input/mouse.rs:88-103 | the pushes build `ModifierLetters`, at most four letters |
| Mouse.ModifierLettersExact | src/input/mouse.rs:88-103 | each letter S, C, A, D appears exactly when its modifier is held, once each; the string is empty exactly when nothing is held |
| Mouse.ModifierLettersOrdered | src/input/mouse.rs:88-103 | the letters always appear in S, C, A, D order |
| Mouse.MouseState.constructor | src/input/mouse.rs:150-162 | a new state has no position and no pressed button, so it is not dragging |
| Mouse.MouseState.UpdatePosition | src/input/mouse.rs:164-166 | the position is recorded and the dragging state is unchanged |
| Mouse.MouseState.ButtonPressed | src/input/mouse.rs:168-170 | the button is recorded and the state is dragging |
| Mouse.MouseState.ButtonReleased | src/input/mouse.rs:172-174 | no button is held afterwards, so the state is not dragging |
| Mouse.MouseState.IsDragging | src/input/mouse.rs:176-178 | dragging exactly when a button is held |
| Fallbacks.FallbackResolver.constructor | src/renderer/font/fallback.rs:18-24 | a new resolver remembers nothing and has no Nerd Font |
| Fallbacks.FallbackResolver.WithNerdFont | src/renderer/font/fallback.rs:27-30 | the Nerd Font is installed and the remembered answers are kept |
| Fallbacks.FallbackResolver.Uncached | src/renderer/font/fallback.rs:46-54 | the Nerd Font when it is set and covers the codepoint, otherwise the system fallback's answer |
| Fallbacks.FallbackResolver.Discover | src/renderer/font/fallback.rs:35-43 | a remembered answer (found or not) is returned unchanged; otherwise the uncached answer is returned and remembered for that codepoint alone |
| Fallbacks.MemoStable | src/renderer/font/fallback.rs:35-43 | once remembered, an answer stays the same whatever the fonts later say, and other codepoints are unaffected |
| Fallbacks.FallbackResolver.ClearCache | src/renderer/font/fallback.rs:57-59 | every remembered answer is dropped and the Nerd Font is kept |
| FontStyles.FromFlags | src/renderer/font/collection.rs:13-20 | the style built from two flags is bold and italic exactly as the flags say |
| FontStyles.FromFlagsOnto | src/renderer/font/collection.rs:13-28 | every style is the style built from its own `is_bold` and `is_italic`, so the four cases are a bijection |
| FontStyles.NewIndex | src/renderer/font/collection.rs:38-40 | the index keeps the style, and the position is stored as a u16: unchanged below 65536, otherwise wrapped |
| FontStyles.Primary | src/renderer/font/collection.rs:42-44 | the primary index of a style is position 0 of that style |
| FontCollection.FirstHit | src/renderer/font/collection.rs:123-128 | the first entry whose face has a glyph for the codepoint, with that glyph id; no earlier entry has one, and none means no entry has one |
| FontCollection.FirstHitAt | src/renderer/font/collection.rs:123-128 | a position with a glyph and no earlier hit is the first hit |
| FontCollection.FirstHitNone | src/renderer/font/collection.rs:123-128 | a list none of whose faces has the glyph has no first hit |
| FontCollection.Collection.constructor | src/renderer/font/collection.rs:67-103 | each style starts with exactly one primary face, not marked as a fallback |
| FontCollection.Collection.GetFace | src/renderer/font/collection.rs:109-112 | a face is returned exactly when the position lies in the style's list, and it is the face stored there |
| FontCollection.Collection.PrimaryFace | src/renderer/font/collection.rs:119-122 | the primary face is the face `get_face` returns for the style's primary index |
| FontCollection.Collection.Push | src/renderer/font/collection.rs:143-147 | the entry is appended to that style's list and the other lists are unchanged |
| FontCollection.Collection.SearchEntries | src/renderer/font/collection.rs:123-128 | the scan returns the first hit of the list |
| FontCollection.Collection.ResolveGlyph | src/renderer/font/collection.rs:123-153 | the style's own faces come first, then for a non-regular style the regular faces, each hit leaving the collection and resolver unchanged; otherwise the resolver's (memoised) answer is asked, and a fallback face that has the glyph is appended to the style's list at the next position; else nothing is found and no list changes |
| FontCollection.Collection.AddFallback | src/renderer/font/collection.rs:154-162 | the face is appended to the style's list as a fallback; the returned index names it (while the position fits in a u16) and other lists are unchanged |
| FontCollection.Collection.ClearFallbackCache | src/renderer/font/collection.rs:182-184 | the resolver forgets every remembered answer |
| GlyphCaches.EmptyGlyph | src/renderer/font/cache.rs:52-62 | the empty glyph sits at the atlas origin with zero size and bearings and is not coloured |
| GlyphCaches.ShapedGlyphCache.constructor | src/renderer/font/cache.rs:74-78 | a new cache is empty |
| GlyphCaches.ShapedGlyphCache.Get | src/renderer/font/cache.rs:82-84 | nothing for a key never stored; otherwise the stored entry, which may be a remembered failure |
| GlyphCaches.ShapedGlyphCache.Insert | src/renderer/font/cache.rs:89-91 | the entry (glyph or failure) is stored under the key, overwriting any earlier one; every other key reads back as before; the length grows by one exactly when the key is new |
| GlyphCaches.InsertedSize | src/renderer/font/cache.rs:89-103 | storing under a key adds one key exactly when the key was absent |
| GlyphCaches.ShapedGlyphCache.Clear | src/renderer/font/cache.rs:112-114 | every entry is forgotten and the cache is empty |
| Fonts.AsBytes | src/renderer/font.rs:57-61 | the payload is returned whichever the layout |
| Fonts.LoadKeys | src/renderer/font.rs:76-146 | loading fails exactly when neither the configured nor the platform default family loads; the regular key is the configured family's when it loads; each variant that fails uses the regular key |
| Fonts.FontKeyForStyle | src/renderer/font.rs:179-186 | each of the four flag combinations selects its own key |
| Fonts.MissingVariantsUseRegular | src/renderer/font.rs:108-131 | when no variant loads, every style draws with the regular key |
| Fonts.Rasterize | src/renderer/font.rs:188-216 | a glyph exactly when the library returns one; a negative width or height becomes 0, and the character, bearings and bitmap are passed through |
| Fonts.GlyphCache.constructor | src/renderer/font.rs:235-239 | a new cache is empty |
| Fonts.GlyphCache.Get | src/renderer/font.rs:241-243 | a glyph is returned exactly when one is stored under the key |
| Fonts.GlyphCache.Insert | src/renderer/font.rs:245-247 | the glyph is stored under the key, overwriting any earlier one |
| Fonts.GlyphCache.Clear | src/renderer/font.rs:249-251 | every entry is forgotten |
| Atlas.AllocateStep | src/renderer/atlas.rs:217-240 | a padded glyph that fits the current row is placed at the free x on that row, which advances by the padded width while the row height becomes the larger of the two; otherwise it starts a new row at x 0 below the current row; `None` exactly when it fits neither the current row nor a new row, and then the packer is unchanged |
| Atlas.AllocateKeepsDisjoint | src/renderer/atlas.rs:217-240 | after a successful allocation every padded rectangle handed out so far is disjoint from every other one and lies behind the packer's free position |
| Atlas.Miss | src/renderer/atlas.rs:102-141 | a rasterisation failure returns `None` and is remembered; an empty glyph is returned at the origin without allocating; a non-empty glyph is placed where the packer allocates it and remembered, or, when the atlas is full, `None` is returned and nothing is remembered |
| Atlas.MissKeepsPacked | src/renderer/atlas.rs:102-141 | whatever the rasteriser answers, a cache miss keeps the packing invariant (all placements pairwise disjoint and behind the packer) |
| Atlas.RgbPixel | src/renderer/atlas.rs:272-282 | one converted coverage pixel is four bytes |
| Atlas.RgbPixels | src/renderer/atlas.rs:272-283 | converting `n` coverage pixels yields `4 * n` bytes |
| Atlas.RgbPixelsAt | src/renderer/atlas.rs:272-283 | byte block `i` of the conversion is white with the mean of source pixel `i`'s three channels as alpha, or transparent black when the source is too short |
| Atlas.RgbPixelsEach | src/renderer/atlas.rs:272-283 | every pixel of the conversion is the conversion of the source pixel at the same position |
| Atlas.ToRgbaShape | src/renderer/atlas.rs:266-295 | the RGBA output always has four bytes per pixel; an RGBA bitmap of the right length is copied unchanged, one of any other length becomes all zeros |
| Atlas.ToRgba | src/renderer/atlas.rs:266-295 | the converted buffer equals the conversion function, has `4 * width * height` bytes and, for a coverage bitmap, holds at each pixel the conversion of the matching source pixel |
| Atlas.CoverageToRgba | src/renderer/atlas.rs:271-284 | the pixel-by-pixel loop produces exactly the conversion of the first `pixelCount` coverage pixels |
| Atlas.GlyphAtlas.constructor | src/renderer/atlas.rs:26-68 | a new atlas is 1024 pixels square, its packer is at (0, 0) with row height 0, both caches are empty and nothing is placed |
| Atlas.GlyphAtlas.Allocate | src/renderer/atlas.rs:217-240 | the returned position and new packer state are those of the shelf-packing step, the placed rectangles grow by the padded glyph exactly on success, and the glyph cache is untouched |
| Atlas.GlyphAtlas.MissPath | src/renderer/atlas.rs:102-141 | the imperative miss path returns the glyph, the remember flag and the packer state of the miss function, and records the placement it made |
| Atlas.GlyphAtlas.GetGlyph | src/renderer/atlas.rs:83-142 | a cached key (glyph or remembered failure) returns the cached answer without touching the packer or the cache; an uncached key takes the miss path and is cached when the miss says so; no existing entry ever changes |
| Atlas.GlyphAtlas.GetGlyphById | src/renderer/atlas.rs:149-204 | the same policy over the shaped-glyph cache; a key whose font index names no face returns `None` and caches nothing |
| Atlas.GlyphAtlas.Clear | src/renderer/atlas.rs:298-322 | both caches become empty, the packer returns to the origin with row height 0 and no placements remain |
| Atlas.GlyphAtlas.PrepopulateAscii | src/renderer/atlas.rs:324-335 | after looking up every printable ASCII character, each one is cached unless its glyph is non-empty (it may have found no room), and no earlier entry changed |
| FeatureTags.TagBytes | src/renderer/font/shaper.rs:91-93 | a tag splits into exactly four bytes |
| FeatureTags.MakeTag | src/renderer/font/shaper.rs:91-93 | the packed tag's bytes, most significant first, are the four bytes given, so the packing loses nothing |
| FeatureTags.MakeTagOfBytes | src/renderer/font/shaper.rs:91-93 | every 32-bit tag is the packing of its own four bytes: packing and splitting are inverse |
| FeatureTags.AsciiBytes | src/renderer/font/shaper.rs:130 | an ASCII string has one byte per character |
| FeatureTags.ParseFeature | src/renderer/font/shaper.rs:128-140 | no feature exactly when the string has fewer than four bytes; otherwise the tag's bytes are the first four bytes and the feature is switched on (value 1) over the whole text |
| FeatureTags.CaltTagName | src/renderer/font/shaper.rs:145-150 | the first default tag spells `calt` |
| FeatureTags.LigaTagName | src/renderer/font/shaper.rs:152-157 | the second default tag spells `liga` |
| FeatureTags.DefaultFeatures | src/renderer/font/shaper.rs:142-159 | two features, `calt` then `liga`, each switched on over the whole text |
| FeatureTags.ParsedFeatures | src/renderer/font/shaper.rs:116-120 | no more features than strings |
| FeatureTags.WithFeatures | src/renderer/font/shaper.rs:113-127 | the feature list is the defaults followed by the parse of every feature string that parses, in order |
| FeatureTags.ParsedFeaturesExact | src/renderer/font/shaper.rs:116-120 | strings of at least four bytes each give one feature, in order, tagged with their own first four bytes; strings all shorter than four bytes give none |
| Shaper.SplitFrom | src/renderer/font/shaper.rs:214-222 | the end of the sub-run: no character between the start and it resolves to another face, and the character at it (if any) does |
| Shaper.FontRun | src/renderer/font/shaper.rs:201-231 | the sub-run and the rest together are as long as the text, and a non-empty text gives a sub-run of at least one character |
| Shaper.FontRunSplit | src/renderer/font/shaper.rs:201-231 | the sub-run and the rest concatenate to the text; the face is the first character's resolved face (the style's primary face when none resolves, or for an empty text); no later character of the sub-run resolves to another face, and the first character of the rest does |
| Shaper.FindFontRun | src/renderer/font/shaper.rs:201-231 | the scanning loop returns exactly the split `FontRun` describes |
| Shaper.OneFaceOneRun | src/renderer/font/shaper.rs:201-231 | a text in which no character resolves to a face other than the first one's is a single sub-run |
| Shaper.Offset | src/renderer/font/shaper.rs:183-186 | offsetting keeps the number of glyphs |
| Shaper.ShapeWithCollection | src/renderer/font/shaper.rs:167-199 | the result is the concatenation, sub-run by sub-run, of each sub-run's shaped glyphs on its face (none when the collection lacks the face) with clusters moved on by the characters before the sub-run |
| Shaper.ShapeSubRun | src/renderer/font/shaper.rs:175-196 | one loop turn consumes at least one character and keeps the glyphs pushed so far plus those still due equal to the whole result |
| Shaper.AppendOffset | src/renderer/font/shaper.rs:183-186 | the pushed glyphs are the shaped glyphs in order, each with its cluster moved on by the offset and nothing else changed |
| Shaper.SubRuns | src/renderer/font/shaper.rs:175-196 | every sub-run is non-empty |
| Shaper.SubRunsCoverText | src/renderer/font/shaper.rs:175-196 | the sub-runs, concatenated in order, are exactly the text |
| Shaper.NoFacesNoGlyphs | src/renderer/font/shaper.rs:178-193 | when the collection has none of the faces, shaping yields no glyphs |
| Shaper.ShapedTextStep | src/renderer/font/shaper.rs:175-196 | the result for a text is the first sub-run's glyphs followed by the result for the rest, offset by the sub-run's length |
| Shaper.ShapeLoopStep | src/renderer/font/shaper.rs:175-196 | pushing one sub-run's offset glyphs leaves what is pushed plus what is due unchanged |
| ShapingCaches.SubMapUpdate | src/renderer/font/shaping_cache.rs:89-109 | storing the same glyphs under the same key in a map and in a map that contains it keeps the containment |
| ShapingCaches.Evicted | src/renderer/font/shaping_cache.rs:96-104 | inserting a new key into a cache of `n` keys evicts no more than `n`, leaves fewer than 2048, and evicts none when the cache is not full |
| ShapingCaches.Survivors | src/renderer/font/shaping_cache.rs:96-104 | the keys kept are the newest ones, in order: all of them below capacity, otherwise the newest 2047 |
| ShapingCaches.RemovedSize | src/renderer/font/shaping_cache.rs:100 | removing a stored key leaves one key fewer |
| ShapingCaches.DropFirst | src/renderer/font/shaping_cache.rs:98-100 | dropping the oldest key of a duplicate-free order leaves exactly the other keys, still without duplicates |
| ShapingCaches.ShapingCache.constructor | src/renderer/font/shaping_cache.rs:68-75 | a new cache is empty, its order is empty and both counters are zero |
| ShapingCaches.ShapingCache.Get | src/renderer/font/shaping_cache.rs:78-86 | the stored glyphs exactly when the key is stored, counting a hit, else nothing, counting a miss; the entries and their order are unchanged |
| ShapingCaches.ShapingCache.Insert | src/renderer/font/shaping_cache.rs:89-109 | the key then holds the new glyphs; a stored key keeps its place and nothing else changes; a new key first evicts the oldest keys until fewer than 2048 remain and then becomes the newest; every other entry kept is unchanged, the cache never exceeds 2048 runs and the order lists each stored key once |
| ShapingCaches.ShapingCache.MakeRoom | src/renderer/font/shaping_cache.rs:96-104 | the eviction loop leaves the newest keys (`Survivors`), fewer than 2048 of them, each with its old glyphs |
| ShapingCaches.ShapingCache.AppendNewest | src/renderer/font/shaping_cache.rs:106-108 | the new key is stored and appended as the newest, which keeps the cache within capacity and the order exact |
| ShapingCaches.ShapingCache.EvictOldest | src/renderer/font/shaping_cache.rs:98-100 | one eviction drops the oldest key from the order and from the map and nothing else |
| ShapingCaches.ShapingCache.Clear | src/renderer/font/shaping_cache.rs:115-119 | all runs are forgotten while the hit and miss counters, which are cumulative, are kept |
| Runs.StyleFor | src/renderer/font/run.rs:53-59 | the run's style is bold exactly when the id's attributes are bold, and italic exactly when they are italic |
| Runs.UnknownIdRegular | src/renderer/font/run.rs:53-59 | id 0, and any id never defined, gives the regular style |
| Runs.SkipSpacers | src/renderer/font/run.rs:66-72 | the position reached is the first non-spacer at or after the start, or the row's end; everything passed over is a spacer |
| Runs.RunEnd | src/renderer/font/run.rs:87-104 | a run ends at the first non-spacer cell with another highlight id, or at the row's end; every cell it passes is a spacer or has the run's id |
| Runs.NextRun | src/renderer/font/run.rs:65-112 | the position never moves back and moves forward whenever a run is yielded |
| Runs.NextRunSpec | src/renderer/font/run.rs:65-112 | no run exactly when only spacers remain (the position then reaches the row's end); otherwise the run starts at the first non-spacer, takes its id and that id's style, its text is the texts of the cells it consumed, every consumed cell is a spacer or has the id, and the cell where it stops is a non-spacer of another id |
| Runs.RunsFrom | src/renderer/font/run.rs:62-112 | iterating yields no more runs than there are cells left |
| Runs.TextsStep | src/renderer/font/run.rs:102 | taking one more cell into a run appends that cell's text, none for a spacer |
| Runs.RunEndStep | src/renderer/font/run.rs:88-104 | a spacer or a cell of the run's id does not end the run |
| Runs.TextsAppend | src/renderer/font/run.rs:84-102 | the texts of two adjacent stretches of cells are the texts of their union |
| Runs.SpacersNoText | src/renderer/font/run.rs:66-72 | a stretch of spacers contributes no text |
| Runs.RunsCoverText | src/renderer/font/run.rs:62-112 | the runs' texts concatenated are exactly the texts of the non-spacer cells, in order: grouping loses, repeats and reorders nothing |
| Runs.NoRunNoText | src/renderer/font/run.rs:74-76 | when no run is left, no text is left either |
| Runs.RunsFromCons | src/renderer/font/run.rs:62-112 | the runs' text is the first run's text, which is the text of the cells it consumed, followed by the text of the later runs |
| Runs.RunTextSlice | src/renderer/font/run.rs:78-104 | a run's text is the text of all the cells consumed for it, leading spacers included |
| Runs.NoRunsIffSpacers | src/renderer/font/run.rs:65-76 | a row yields no runs exactly when every remaining cell is a spacer |
| Runs.NeighbourStep | src/renderer/font/run.rs:97-100 | the next run starts exactly where the previous one stopped and has another highlight id |
| Runs.RunsStartInOrder | src/renderer/font/run.rs:65-112 | every run starts at a non-spacer cell carrying the run's id, and start columns strictly increase |
| Runs.NeighboursDiffer | src/renderer/font/run.rs:87-104 | consecutive runs have different highlight ids, so spacers never split a run |
| Runs.RunIterator.constructor | src/renderer/font/run.rs:44-50 | a new iterator is positioned at the row's first cell |
| Runs.RunIterator.Next | src/renderer/font/run.rs:65-112 | the run returned and the new position are those of `NextRun`; after `None` no runs remain, otherwise the remaining runs are the returned one followed by the new remaining runs |
| Runs.RunIterator.SkipLeadingSpacers | src/renderer/font/run.rs:66-72 | the first loop stops at the first non-spacer at or after the position |
| Runs.RunIterator.GatherRun | src/renderer/font/run.rs:87-104 | the second loop stops where the run ends and has gathered the texts of every cell from the run's start to there |
| Pipeline.FlagsDisjoint | src/renderer/pipeline.rs:105-106 | the textured and coloured-glyph flags are distinct non-zero single bits whose union is 3 |
| Pipeline.Background | src/renderer/pipeline.rs:68-78 | a background quad keeps its position, size and colour, samples nothing (zero atlas offset and size), has no flag set and zero padding |
| Pipeline.Glyph | src/renderer/pipeline.rs:80-102 | a glyph quad keeps its position, size, atlas offset and size and colour, is always textured, is flagged coloured exactly when the glyph is, sets no other flag bit and has zero padding |
| Pipeline.BackgroundIsNotGlyph | src/renderer/pipeline.rs:68-102 | no background quad equals any glyph quad, since only glyph quads carry the textured flag |
| Batches.NextPowerOfTwo | src/renderer/batch.rs:88 | the new capacity is a power of two, at least the number of instances and at least 1 |
| Batches.NextPowerOfTwoLeast | src/renderer/batch.rs:88 | no power of two that is at least `n` is smaller than the chosen one: it is the least |
| Batches.CreateBuffer | src/renderer/batch.rs:33-41 | a fresh buffer has the requested capacity and holds nothing |
| Batches.WriteBuffer | src/renderer/batch.rs:98-99 | writing keeps the capacity, puts the data at the front of the buffer and leaves whatever lay beyond it |
| Batches.ThenAssoc | src/renderer/batch.rs:138-162 | pushing onto the three batches in two steps is the same as pushing the combined quads once |
| Batches.ThenNoQuads | src/renderer/batch.rs:132-136 | pushing nothing changes nothing, on either side |
| Batches.QuadBatch.constructor | src/renderer/batch.rs:19-21 | a new batch is empty with a buffer of 65536 instances |
| Batches.QuadBatch.WithCapacity | src/renderer/batch.rs:23-31 | a new batch is empty with a fresh buffer of exactly the requested capacity |
| Batches.QuadBatch.Clear | src/renderer/batch.rs:43-45 | the instances are dropped while the buffer and its capacity stay |
| Batches.QuadBatch.IsEmpty | src/renderer/batch.rs:47-49 | true exactly when no instance has been pushed since the last clear |
| Batches.QuadBatch.Len | src/renderer/batch.rs:51-54 | the number of instances pushed since the last clear |
| Batches.QuadBatch.PushBackground | src/renderer/batch.rs:56-60 | exactly one untextured quad is appended and the buffer is untouched |
| Batches.QuadBatch.PushGlyph | src/renderer/batch.rs:62-79 | exactly one textured quad is appended and the buffer is untouched |
| Batches.QuadBatch.Upload | src/renderer/batch.rs:81-100 | an empty batch changes nothing; a batch with more instances than its capacity gets a new buffer of the next power of two; capacity never shrinks and then covers the instances, which lie at the front of the buffer in order |
| Batches.QuadBatch.VertexCount | src/renderer/batch.rs:106-109 | a 32-bit count, six per instance while that fits in 32 bits |
| Batches.QuadBatch.InstanceCount | src/renderer/batch.rs:111-113 | a 32-bit count, the number of instances while that fits in 32 bits |
| Batches.QuadBatch.SixVerticesPerInstance | src/renderer/batch.rs:106-113 | while no count wraps, the vertex count is six times the instance count |
| Batches.RenderBatcher.Contents | src/renderer/batch.rs:117-121 | the batcher's contents are its three batches' instances: backgrounds, glyphs, decorations |
| Batches.RenderBatcher.constructor | src/renderer/batch.rs:124-130 | three distinct empty batches, each of 65536 instances |
| Batches.RenderBatcher.Clear | src/renderer/batch.rs:132-136 | all three batches are emptied and keep their capacities |
| Batches.RenderBatcher.PushBackground | src/renderer/batch.rs:138-140 | one background quad is appended to the backgrounds batch and the other batches are unchanged |
| Batches.RenderBatcher.PushGlyph | src/renderer/batch.rs:142-158 | one glyph quad is appended to the glyphs batch and the other batches are unchanged |
| Batches.RenderBatcher.PushDecoration | src/renderer/batch.rs:160-162 | one untextured quad is appended to the decorations batch and the other batches are unchanged |
| Batches.RenderBatcher.Upload | src/renderer/batch.rs:164-168 | each batch uploads its own instances: contents unchanged, capacities never shrink and each non-empty batch fits its buffer |
| Geometry.MaxReal | src/renderer/geometry.rs:116 | the larger of two values: at least both, and one of them |
| Geometry.UnderlineCount | src/renderer/geometry.rs:40-72 | no line exactly for no underline, two exactly for a double underline, one for every other kind |
| Geometry.DecorationGeometry | src/renderer/geometry.rs:24-85 | one line per underline plus one for a strikethrough, underlines first; every line spans the cell from its left edge; a single-line underline sits the underline position above the baseline (one descent above the cell's bottom), a double one a thickness above and below that, each with the underline thickness; the strikethrough sits the strikeout position above the baseline with the strikeout thickness |
| Geometry.DoubleUnderlineApart | src/renderer/geometry.rs:55-69 | the two lines of a double underline are two thicknesses apart, hence distinct whenever the thickness is non-zero |
| Geometry.CursorPercentage | src/renderer/geometry.rs:98-106 | the fraction covered lies in (0, 1]: the mode's percentage capped at 100 when it gives one, else a quarter for bars and the whole cell for a block |
| Geometry.CursorGeometryOf | src/renderer/geometry.rs:87-134 | every shape starts at the cell's left edge; a block is the whole cell; a vertical bar spans the cell's height with width the covered fraction of the cell width but at least 1; a horizontal bar spans the cell's width, with height the covered fraction of the cell height but at least 1, and sits on the cell's bottom |
| Geometry.CursorInsideCell | src/renderer/geometry.rs:87-134 | in a cell at least one unit wide and tall, every cursor shape is at least one unit thick and lies inside its cell, touching the bottom edge |
| GridRendering.ColorOr | src/renderer/grid_renderer.rs:225-232 | an unset highlight colour gives the fallback; a set one gives the linear colour of its RGB part |
| GridRendering.ResolveColors | src/renderer/grid_renderer.rs:219-239 | background and foreground are the attribute colours, or the defaults where unset, exchanged when the highlight is reversed |
| GridRendering.ResolveMatchesEffective | src/renderer/grid_renderer.rs:219-239 | with the table's default colours as the defaults, every highlight is drawn in the highlight table's effective background and foreground |
| GridRendering.ResolveDefault | src/renderer/grid_renderer.rs:219-239 | the default highlight is drawn in the default colours |
| GridRendering.BackgroundQuads | src/renderer/grid_renderer.rs:109-114 | one cell-sized quad in the cell's background at the cell's corner exactly when that background differs from the default one, else none |
| GridRendering.GlyphQuads | src/renderer/grid_renderer.rs:117-171 | at most one quad, present exactly when the cell is neither blank nor a wide spacer and the atlas has a non-empty glyph for its first character in the highlight's font variant; that quad is textured, coloured exactly when the glyph is, drawn in the foreground at the glyph's bearing from the cell's left edge and baseline, glyph-sized, and samples the glyph's atlas rectangle scaled by the atlas size |
| GridRendering.DecorationQuads | src/renderer/grid_renderer.rs:174-216 | nothing without underline or strikethrough; otherwise one untextured full-width quad per decoration line, underlines in the special colour (or the foreground when unset) and the strikethrough in the foreground |
| GridRendering.RowSpan | src/renderer/grid_renderer.rs:81 | each row of the grid lies within its cells |
| GridRendering.GridRowsStep | src/renderer/grid_renderer.rs:81-105 | drawing one more row appends exactly that row's quads |
| GridRendering.BlankCellDrawsNothing | src/renderer/grid_renderer.rs:89-104 | a blank cell (default highlight, a space) adds no quad at all |
| GridRendering.BlankRowDrawsNothing | src/renderer/grid_renderer.rs:89-104 | a row of blank cells adds no quad |
| GridRendering.BlankGridDrawsNothing | src/renderer/grid_renderer.rs:71-106 | a cleared grid draws nothing at all |
| GridRendering.CursorColor | src/renderer/grid_renderer.rs:278-286 | the foreground of the mode's highlight when the mode names a non-zero highlight that sets one, else the default foreground |
| GridRendering.CursorQuads | src/renderer/grid_renderer.rs:245-311 | nothing for a hidden cursor, one off the main grid or outside it; otherwise exactly one cursor-coloured quad of the cursor's geometry on the backgrounds batch, no decoration, and a glyph only for a block cursor; a block cursor over a cell that is neither blank nor a wide spacer draws that cell's glyph in the cell's background colour, or the default background, and over a blank or spacer cell draws no glyph |
| GridRendering.RowStep | src/renderer/grid_renderer.rs:89-104 | drawing a cell with its highlight's attributes and resolved colours extends the row's quads by that cell's quads |
| GridRendering.RowQuadsSnoc | src/renderer/grid_renderer.rs:89-104 | a row prefix one cell longer draws that cell's quads after the others |
| GridRendering.CellQuadsResolved | src/renderer/grid_renderer.rs:91-103 | a cell's quads are its background, glyph and decorations with its highlight's resolved colours at its top-left corner |
| GridRendering.CellPieces | src/renderer/grid_renderer.rs:101-103 | pushing background, glyph and decorations one after another adds them to their own batches, as one step would |
| GridRendering.ThenDecoration | src/renderer/grid_renderer.rs:207-215 | pushing decoration quads one at a time is pushing them all at once, in order |
| GridRendering.GridRenderer.constructor | src/renderer/grid_renderer.rs:22-43 | a new renderer keeps its configuration and starts with three empty batches |
| GridRendering.GridRenderer.CellSize | src/renderer/grid_renderer.rs:45-47 | the cell width and height the renderer was built with |
| GridRendering.GridRenderer.Prepare | src/renderer/grid_renderer.rs:58-69 | after a frame the batches hold exactly the grid's quads, row by row and cell by cell, followed by the cursor's; every non-empty batch fits its buffer |
| GridRendering.GridRenderer.PrepareGridCells | src/renderer/grid_renderer.rs:71-106 | the rows' quads, top to bottom, are appended to what the batches held |
| GridRendering.GridRenderer.PrepareGridRow | src/renderer/grid_renderer.rs:81-105 | one outer-loop pass appends the next row's quads |
| GridRendering.GridRenderer.PrepareRow | src/renderer/grid_renderer.rs:82-104 | with its colour cache, a row's loop appends exactly the row's quads as if each cell's colours were resolved afresh |
| GridRendering.GridRenderer.PrepareRowCell | src/renderer/grid_renderer.rs:89-103 | one inner-loop pass refreshes the cache only when the id changes, keeps the cache's attributes and colours those of the cell's id, and appends that cell's quads |
| GridRendering.GridRenderer.PushCell | src/renderer/grid_renderer.rs:99-103 | a cell's background, glyph and decoration quads are appended at its top-left corner |
| GridRendering.GridRenderer.PushCellBackground | src/renderer/grid_renderer.rs:109-114 | the backgrounds batch gains exactly the cell's background quads and nothing else changes |
| GridRendering.GridRenderer.PushCellGlyph | src/renderer/grid_renderer.rs:117-171 | the glyphs batch gains exactly the cell's glyph quads and nothing else changes |
| GridRendering.GridRenderer.PushCellDecorations | src/renderer/grid_renderer.rs:174-216 | the decorations batch gains exactly the cell's decoration quads, in order, and nothing else changes |
| GridRendering.GridRenderer.PrepareCursor | src/renderer/grid_renderer.rs:245-311 | the batches gain exactly the cursor's quads |
| GpuContexts.SelectPresentMode | src/renderer/context.rs:106-136 | vsync on gives automatic vsync, off gives automatic no-vsync; "mailbox if available" gives mailbox exactly when the surface offers it and automatic vsync otherwise; the display link gives automatic no-vsync on macOS and automatic vsync elsewhere |
| GpuContexts.SelectedModeOffered | src/renderer/context.rs:106-136 | only automatic vsync, automatic no-vsync or mailbox is ever chosen, and mailbox only when offered and asked for |
| GpuContexts.MaxFrameLatency | src/renderer/context.rs:53-58 | one frame in flight exactly for the vsync-waiting modes (automatic vsync, FIFO, mailbox), two otherwise |
| GpuContexts.LatencyOfSetting | src/renderer/context.rs:51-58 | every vsync setting ends with one frame in flight except vsync off and, on macOS, the display link, which get two |
| GpuContexts.FirstSrgb | src/renderer/context.rs:44-48 | nothing exactly when no format is sRGB; otherwise an sRGB format of the list with no sRGB format before it |
| GpuContexts.SurfaceFormat | src/renderer/context.rs:44-49 | a format of the list, sRGB exactly when the list has an sRGB format, and the first format when none is |
| GpuContexts.NewSurfaceConfig | src/renderer/context.rs:15-84 | a zero window side fails with the invalid-size error before anything else; otherwise a failure to create the surface or acquire an adapter or device is passed on; on success the configuration has the window's size, the chosen surface format and present mode, the first alpha mode, and a maximum frame latency of 1 when the mode waits for vsync and 2 otherwise |
| GpuContexts.CreatedSurfaceNonEmpty | src/renderer/context.rs:15-19 | a created surface always has a positive size |
| GpuContexts.Resized | src/renderer/context.rs:86-92 | a resize to a size with both sides positive takes that size and keeps everything else; a zero side leaves the configuration unchanged |
| GpuContexts.ResizedProperties | src/renderer/context.rs:86-92 | resizing to the same size twice is resizing once, and a surface with a positive size keeps one whatever the window reports |
| GpuContexts.GpuContext.constructor | src/renderer/context.rs:78-83 | the context holds the configuration it was created with, which has a positive size |
| GpuContexts.GpuContext.Resize | src/renderer/context.rs:86-92 | the configuration becomes its resize to the new size, and stays of positive size |
| GpuContexts.GpuContext.Size | src/renderer/context.rs:94-96 | the configured width and height |
| GpuContexts.GpuContext.Format | src/renderer/context.rs:98-100 | the configured surface format |
| RenderLoops.ResizeRenderer | src/renderer/mod.rs:64-69 | the renderer's surface follows the window's size unless a side is zero |
| RenderLoops.PollStep | src/window/render_loop.rs:73-111 | an initialising loop becomes ready with the renderer, failed, or stays initialising as the future answers; any other state is left as it was |
| RenderLoops.Report | src/window/render_loop.rs:113-118 | ready with the renderer exactly in the ready state, failed exactly in the failed state, pending while uninitialised or initialising |
| RenderLoops.RendererOf | src/window/render_loop.rs:121-126 | a renderer exactly when ready, and then the ready renderer |
| RenderLoops.FinalStatesAbsorb | src/window/render_loop.rs:76-111 | ready and failed are final: no run of polls leaves them |
| RenderLoops.FirstAnswerDecides | src/window/render_loop.rs:93-108 | from initialising, a run of pending answers keeps the loop initialising and the first answer that is not pending decides the outcome for good |
| RenderLoops.RenderOutcome | src/window/render_loop.rs:128-154 | a frame reports an error exactly when a ready renderer ran out of GPU memory |
| RenderLoops.RenderStep | src/window/render_loop.rs:128-154 | a ready renderer whose surface was lost or outdated is resized to the window; nothing else changes, and a loop that is not ready is untouched |
| RenderLoops.RenderKeepsStage | src/window/render_loop.rs:128-154 | a frame never changes whether the loop is ready or whether it has a renderer |
| RenderLoops.RenderLoop.constructor | src/window/render_loop.rs:51-63 | a new loop is uninitialised with no event-loop proxy |
| RenderLoops.RenderLoop.SetEventProxy | src/window/render_loop.rs:65-67 | the proxy is set and the state is unchanged |
| RenderLoops.RenderLoop.Initialize | src/window/render_loop.rs:69-71 | the loop is initialising whatever it was before, and the proxy is unchanged |
| RenderLoops.RenderLoop.Poll | src/window/render_loop.rs:73-119 | the state becomes its poll step, the answer is the report of the new state, and a redraw is requested exactly when an initialising loop's future is still pending |
| RenderLoops.RenderLoop.ReadyRenderer | src/window/render_loop.rs:121-126 | the renderer exactly when the loop is ready |
| RenderLoops.RenderLoop.Render | src/window/render_loop.rs:128-154 | the state becomes its render step and the result is the render outcome of the old state |

## Left out

- GPU resources and submission are foreign wgpu calls and are not modelled: texture, sampler, buffer and bind-group creation, `write_texture`, render passes and `present`. This covers the atlas's `upload`, `texture_view` and `sampler`, `RenderPipeline`, `get_current_texture` and the adapter and device requests in `GpuContext::new`. A batch's buffer is an opaque token, and the outcome of acquiring the GPU objects is a parameter.
- Font-system FFI (CoreText, the platform faces and loaders, HarfBuzz buffers) is not modelled. `glyph_index`, rasterisation, `shape_with_face` and the system fallback lookup are function-valued inputs. `Shaper::new` and `Shaper::shape`, which shapes a run with the primary face only, are not modelled, because both are thin wrappers around `shape_with_face`.
- `prepopulate_ascii_shaped` (macOS only) is not modelled. It goes through HarfBuzz shaping, and the model has no such input for it. `PrepopulateAscii` models the portable version.
- On macOS the generic memoising `FallbackResolver` wraps `CoreTextSystemFallback` (`src/renderer/font/platform/macos/fallback.rs`). `Fallbacks` models the generic resolver, and the CoreText lookup is its function-valued system answer. `src/renderer/font/fallback/macos.rs` is a separate copy of the same memo logic built on CoreText directly. It is represented by the same `Fallbacks` model and not modelled on its own. `update_base_font` and `Collection::metrics` are font-system calls. `get_face_mut` is left out because the model has no mutable handle on a face. The non-macOS `Collection` stub is left out because it has no logic. So is the non-macOS `GlyphAtlas::get_glyph_by_id` (src/renderer/atlas.rs:206-214), which always returns `None`. `Atlas.GlyphAtlas.GetGlyphById` models the macOS body.
- Floating point is left out:
  - `Color::to_f32_array` and the sRGB-to-linear conversion. The conversion is an uninterpreted function field, and renderer colours are compared only by equality.
  - `pixel_to_grid` and `scroll_delta_to_direction` in `src/input/mouse.rs`.
  - `CacheStats::hit_rate`.
  - The `Uniforms` orthographic projection, and the uniform update in `Renderer::resize` and `RenderPipeline::resize`/`update_cell_size`.
  - Font metrics (`cell_width`, `cell_height`, `descent`).
  - Geometry is computed over reals, not `f32`.
- Hashing is left out. `ShapingCacheKey::new` is a hash of text and style, and a key is represented by its 64-bit hash value. The property that equal inputs give equal keys is therefore left to the hasher. Every `HashMap` is a Dafny `map`.
- Async machinery is left out: futures, wakers, the event-loop proxy and the displaylink. The initialisation future is represented by its answer to each poll, the proxy by a flag and the renderer by its surface configuration.
- `src/config.rs` is not part of this model, and the vsync setting is an input. The same holds for `src/main.rs`, `print_help` (output only), logging, and the environment capture.
- `src/bridge/events.rs` and `src/window/window.rs` duplicate the event types and `RenderState`, and only one copy of each is modelled. The copy of the geometry functions inside `grid_renderer.rs` is the same: it is represented by `Geometry`.
- The accessors that only return a field or a reference are not modelled: `Grid::width/height/len/is_empty/get_mut/row_mut/index_mut`, `EditorState::dirty/dirty_mut/grid_mut/main_grid_mut`, `GridRenderer::font_system/atlas/batcher`, `QuadBatch::buffer` and `RenderBatcher::backgrounds/glyphs/decorations` (their contents are `RenderBatcher.Contents`). The same goes for `ShapingCache::stats` and `default`, which exist only for tests. The model's specification functions read the fields directly.
- `GlyphCaches.ShapedGlyphCache.Contains`, `Len` and `IsEmpty` are modelled without contracts of their own. Their meaning is stated through `Get`, `Insert` and `InsertedSize`.
- Several one-line accessors are modelled as definitions without contracts. They are the vocabulary that other members' contracts are written in, so they have no rows of their own:
  - `Cells.IsWide` and `Cells.IsWideSpacer` (`is_wide`, `is_wide_spacer`, src/editor/cell.rs:58-66);
  - `Highlight.IsBold`, `Highlight.IsItalic`, `Highlight.HasStrikethrough` and `Highlight.UnderlineOf` (`is_bold`, `is_italic`, `has_strikethrough`, `underline_style`, src/editor/highlight.rs:158-177). `UnderlineOf` is `UnderlineStyleOf` of the style flags, whose contract states the precedence;
  - `FontStyles.IsBold` and `FontStyles.IsItalic` (`Style::is_bold`, `Style::is_italic`, src/renderer/font/collection.rs:22-28);
  - `Fonts.IsColored` (`GlyphBuffer::is_colored`, src/renderer/font.rs:53-55);
  - `Runs.IsEmptyRun` (`TextRun::is_empty`, src/renderer/font/run.rs:23-25);
  - `Ui.AsUsize` (`as_usize`, src/bridge/ui.rs:479-481). This is `Ui.AsU64` unchanged, because `usize` is taken to be 64 bits wide.
- `EditorState::flush` changes nothing and is not modelled. `Default for EditorState` is `new(80, 24)`, which is the constructor with those arguments.
- `Modifiers::from(ModifiersState)` only copies four booleans out of a winit type, and it is not modelled.
- `Fonts.LoadKeys` does not model the failure to load the regular font or its metrics. Loading the 'm' probe glyph used for the cell size is not modelled either. Only the fallback of the missing variants to the regular key is.
- `Grids.Grid.Rows` requires a positive width, because the source's `chunks(0)` panics on a zero-width grid. For the same reason, `GridRendering.GridRenderer.Prepare` and `PrepareGridCells` require `width > 0`.
- `GridRendering.GridRenderer.PrepareGridCells` (and `Prepare`, `PrepareGridRow`, `PrepareRow`) states the emitted quads only when no highlight is defined under id `u64::MAX`, the value the per-row colour cache starts from. With such a highlight, leading cells of that id would be drawn with highlight 0's attributes and the default colours, and that case is not stated.
- `Batches.NextPowerOfTwo` does not model overflow of `usize::next_power_of_two`. Lengths and capacities are naturals, as are all `u64`/`usize` ids and sizes, except where the source casts them (`as u8`, `as u16`, `as u32`).
- `GpuContexts.NewSurfaceConfig` requires a non-empty list of formats and of alpha modes. This mirrors the source's `[0]` indexing, which panics on an empty list.
- Shaper.ShapeWithCollection (and `Shaper.FindFontRun`, `Shaper.FontRun`) takes glyph resolution as a fixed function `resolve` for the whole call. In the source, `Collection::resolve_glyph` can append a newly found fallback face to the style's list in the middle of a text. A later character can then resolve to that face even though an earlier, identical character could not. So the sub-run split is the program's only when resolution does not change during the call, which holds once every fallback the text needs has already been discovered.
- GridRendering.GridRenderer.Prepare (and `PrepareGridCells`, `PrepareGridRow`, `PrepareRow`, `PrepareRowCell`, `PushCell`, `PushCellGlyph`, `PrepareCursor`) reads the atlas through the fixed snapshot `RenderConfig.atlasGlyph`. In the source, `prepare` calls `GlyphAtlas::get_glyph`, which allocates and caches glyphs as it goes. An allocation that fails is not cached, and a later glyph's row wrap can free room, so the same key can fail and then succeed within one frame. That retry is not captured. The atlas's own policy is modelled in `Atlas.GlyphAtlas.GetGlyph`.
- Ui.AsStr: a msgpack string is a Dafny `string`, so strings are assumed to be valid UTF-8. In the source, `as_str` gives `None` for invalid UTF-8. A cell's text would then read as a space, and `set_title`, `set_icon`, `mode_change`, `hl_group_set`, `option_set` and the mode-info names would be dropped. That path is not modelled.
