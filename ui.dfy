/**
 * The redraw-notification parser: turns the msgpack arguments of Neovim's
 * `redraw` notification (the ui-linegrid events, `hl_attr_define` and
 * `mode_info_set` of Neovim's UI protocol) into typed events.
 *
 * The parser is lenient: a batch or an argument list of the wrong shape is
 * skipped, an event with too few or ill-typed arguments yields nothing, and
 * missing optional fields take defaults.
 */
module Ui {
  import opened Wrappers
  import opened Highlight
  import opened EditorStates
  import opened Seqs

  /** A msgpack value. Floats and extension values carry no payload: no parser reads them. */
  datatype Value =
    | Nil
    | Boolean(b: bool)
    | Integer(i: int)
    | Float
    | String(s: string)
    | Binary(bytes: seq<bv8>)
    | Array(items: seq<Value>)
    | Map(entries: seq<(Value, Value)>)
    | Ext

  const U64Limit: int := 0x1_0000_0000_0000_0000
  const I64Limit: int := 0x8000_0000_0000_0000
  const U32Limit: int := 0x1_0000_0000
  const U8Limit: int := 0x100

  // ---------------------------------------------------------------------
  // Casts
  // ---------------------------------------------------------------------

  /** `as_u64`: an integer in the u64 range; anything else is rejected. */
  function AsU64(v: Value): (r: Option<nat>)
    ensures r.Some? <==> v.Integer? && 0 <= v.i < U64Limit
    ensures r.Some? ==> r.value == v.i
  {
    if v.Integer? && 0 <= v.i < U64Limit then Some(v.i) else None
  }

  /** `as_i64`: an integer in the i64 range; anything else is rejected. */
  function AsI64(v: Value): (r: Option<int>)
    ensures r.Some? <==> v.Integer? && -I64Limit <= v.i < I64Limit
    ensures r.Some? ==> r.value == v.i
  {
    if v.Integer? && -I64Limit <= v.i < I64Limit then Some(v.i) else None
  }

  /** `as_u32`: `as_u64` followed by a truncating `as u32` cast (the high bits are dropped). */
  function AsU32(v: Value): (r: Option<nat>)
    ensures r.Some? <==> AsU64(v).Some?
    ensures r.Some? ==> r.value < U32Limit && (r.value - AsU64(v).value) % U32Limit == 0
  {
    match AsU64(v)
    case Some(x) => Some(x % U32Limit)
    case None => None
  }

  /** `as_usize`: `as_u64` followed by `as usize`, the identity on a 64-bit target. */
  function AsUsize(v: Value): Option<nat>
  {
    AsU64(v)
  }

  function AsStr(v: Value): Option<string>
  {
    if v.String? then Some(v.s) else None
  }

  function AsBool(v: Value): Option<bool>
  {
    if v.Boolean? then Some(v.b) else None
  }

  function AsArray(v: Value): Option<seq<Value>>
  {
    if v.Array? then Some(v.items) else None
  }

  function AsMap(v: Value): Option<seq<(Value, Value)>>
  {
    if v.Map? then Some(v.entries) else None
  }

  /** A map key as a string; a non-string key reads as "" and matches no field. */
  function KeyName(key: Value): string
  {
    AsStr(key).GetOr("")
  }

  // ---------------------------------------------------------------------
  // Events
  // ---------------------------------------------------------------------

  datatype GridCell = GridCell(text: string, hlId: Option<nat>, repeat: nat)

  datatype RedrawEvent =
    | GridResize(grid: nat, width: nat, height: nat)
    | GridClear(grid: nat)
    | GridLine(grid: nat, row: nat, colStart: nat, cells: seq<GridCell>)
    | GridScroll(grid: nat, top: nat, bot: nat, left: nat, right: nat, rows: int)
    | GridCursorGoto(grid: nat, row: nat, col: nat)
    | GridDestroy(grid: nat)
    | HlAttrDefine(id: nat, attrs: HighlightAttributes)
    | HlGroupSet(name: string, id: nat)
    | DefaultColorsSet(fg: nat, bg: nat, sp: nat)
    | ModeInfoSet(cursorStyleEnabled: bool, modes: seq<ModeInfo>)
    | ModeChange(mode: string, modeIdx: nat)
    | SetTitle(title: string)
    | SetIcon(icon: string)
    | OptionSet(name: string, value: Value)
    | Flush
    | Busy(busy: bool)
    | MouseOn
    | MouseOff

  // ---------------------------------------------------------------------
  // The small parsers
  // ---------------------------------------------------------------------

  /** `grid_resize`: needs three integer arguments. */
  function ParseGridResize(args: seq<Value>): (r: Option<RedrawEvent>)
    ensures r.Some? <==> |args| >= 3 && AsU64(args[0]).Some? && AsU64(args[1]).Some? && AsU64(args[2]).Some?
    ensures r.Some? ==> r.value == GridResize(args[0].i, args[1].i, args[2].i)
  {
    if |args| < 3 then None
    else
      var grid :- AsU64(args[0]);
      var width :- AsUsize(args[1]);
      var height :- AsUsize(args[2]);
      Some(GridResize(grid, width, height))
  }

  /** `grid_clear`: needs one integer argument. */
  function ParseGridClear(args: seq<Value>): (r: Option<RedrawEvent>)
    ensures r.Some? <==> |args| >= 1 && AsU64(args[0]).Some?
    ensures r.Some? ==> r.value == GridClear(args[0].i)
  {
    if |args| == 0 then None
    else
      var grid :- AsU64(args[0]);
      Some(GridClear(grid))
  }

  /** `grid_scroll`: needs five unsigned and one signed integer argument. */
  function ParseGridScroll(args: seq<Value>): (r: Option<RedrawEvent>)
    ensures r.Some? <==> |args| >= 6 && AsU64(args[0]).Some? && AsU64(args[1]).Some? && AsU64(args[2]).Some?
                         && AsU64(args[3]).Some? && AsU64(args[4]).Some? && AsI64(args[5]).Some?
    ensures r.Some? ==> r.value == GridScroll(args[0].i, args[1].i, args[2].i, args[3].i, args[4].i, args[5].i)
  {
    if |args| < 6 then None
    else
      var grid :- AsU64(args[0]);
      var top :- AsUsize(args[1]);
      var bot :- AsUsize(args[2]);
      var left :- AsUsize(args[3]);
      var right :- AsUsize(args[4]);
      var rows :- AsI64(args[5]);
      Some(GridScroll(grid, top, bot, left, right, rows))
  }

  /** `grid_cursor_goto`: needs three integer arguments. */
  function ParseGridCursorGoto(args: seq<Value>): (r: Option<RedrawEvent>)
    ensures r.Some? <==> |args| >= 3 && AsU64(args[0]).Some? && AsU64(args[1]).Some? && AsU64(args[2]).Some?
    ensures r.Some? ==> r.value == GridCursorGoto(args[0].i, args[1].i, args[2].i)
  {
    if |args| < 3 then None
    else
      var grid :- AsU64(args[0]);
      var row :- AsUsize(args[1]);
      var col :- AsUsize(args[2]);
      Some(GridCursorGoto(grid, row, col))
  }

  /** `grid_destroy`: needs one integer argument. */
  function ParseGridDestroy(args: seq<Value>): (r: Option<RedrawEvent>)
    ensures r.Some? <==> |args| >= 1 && AsU64(args[0]).Some?
    ensures r.Some? ==> r.value == GridDestroy(args[0].i)
  {
    if |args| == 0 then None
    else
      var grid :- AsU64(args[0]);
      Some(GridDestroy(grid))
  }

  /** `hl_group_set`: a string name and an integer id. */
  function ParseHlGroupSet(args: seq<Value>): (r: Option<RedrawEvent>)
    ensures r.Some? <==> |args| >= 2 && args[0].String? && AsU64(args[1]).Some?
    ensures r.Some? ==> r.value == HlGroupSet(args[0].s, args[1].i)
  {
    if |args| < 2 then None
    else
      var name :- AsStr(args[0]);
      var id :- AsU64(args[1]);
      Some(HlGroupSet(name, id))
  }

  /** `default_colors_set`: three integers, each truncated to 32 bits. */
  function ParseDefaultColorsSet(args: seq<Value>): (r: Option<RedrawEvent>)
    ensures r.Some? <==> |args| >= 3 && AsU64(args[0]).Some? && AsU64(args[1]).Some? && AsU64(args[2]).Some?
    ensures r.Some? ==> r.value.DefaultColorsSet? && r.value.fg < U32Limit && r.value.bg < U32Limit && r.value.sp < U32Limit
    ensures r.Some? ==> (r.value.fg - args[0].i) % U32Limit == 0 && (r.value.bg - args[1].i) % U32Limit == 0
                        && (r.value.sp - args[2].i) % U32Limit == 0
  {
    if |args| < 3 then None
    else
      var fg :- AsU32(args[0]);
      var bg :- AsU32(args[1]);
      var sp :- AsU32(args[2]);
      Some(DefaultColorsSet(fg, bg, sp))
  }

  /** `mode_change`: a string mode name and an integer index. */
  function ParseModeChange(args: seq<Value>): (r: Option<RedrawEvent>)
    ensures r.Some? <==> |args| >= 2 && args[0].String? && AsU64(args[1]).Some?
    ensures r.Some? ==> r.value == ModeChange(args[0].s, args[1].i)
  {
    if |args| < 2 then None
    else
      var mode :- AsStr(args[0]);
      var idx :- AsUsize(args[1]);
      Some(ModeChange(mode, idx))
  }

  /** `set_title`: one string argument. */
  function ParseSetTitle(args: seq<Value>): (r: Option<RedrawEvent>)
    ensures r.Some? <==> |args| >= 1 && args[0].String?
    ensures r.Some? ==> r.value == SetTitle(args[0].s)
  {
    if |args| == 0 then None
    else
      var title :- AsStr(args[0]);
      Some(SetTitle(title))
  }

  /** `set_icon`: one string argument. */
  function ParseSetIcon(args: seq<Value>): (r: Option<RedrawEvent>)
    ensures r.Some? <==> |args| >= 1 && args[0].String?
    ensures r.Some? ==> r.value == SetIcon(args[0].s)
  {
    if |args| == 0 then None
    else
      var icon :- AsStr(args[0]);
      Some(SetIcon(icon))
  }

  /** `option_set`: a string name and any value, kept as is. */
  function ParseOptionSet(args: seq<Value>): (r: Option<RedrawEvent>)
    ensures r.Some? <==> |args| >= 2 && args[0].String?
    ensures r.Some? ==> r.value == OptionSet(args[0].s, args[1])
  {
    if |args| < 2 then None
    else
      var name :- AsStr(args[0]);
      Some(OptionSet(name, args[1]))
  }

  // ---------------------------------------------------------------------
  // grid_line
  // ---------------------------------------------------------------------

  /** One `grid_line` cell `[text, hl_id?, repeat?]`: dropped when it is not an
      array, is empty, or repeats 0 times; non-string text reads as " "; a
      missing hl id is None; a missing or non-integer repeat is 1. */
  function CellOf(v: Value): (r: Option<GridCell>)
    ensures r.Some? ==> v.Array? && |v.items| > 0 && r.value.repeat >= 1
    ensures r.Some? ==> r.value.text == (if v.items[0].String? then v.items[0].s else " ")
    ensures r.Some? ==> r.value.hlId == (if |v.items| > 1 then AsU64(v.items[1]) else None)
    ensures r.Some? && (|v.items| <= 2 || !AsU64(v.items[2]).Some?) ==> r.value.repeat == 1
    ensures r.Some? && |v.items| > 2 && AsU64(v.items[2]).Some? ==> r.value.repeat == v.items[2].i
    ensures r.Some? <==> v.Array? && |v.items| > 0 && !(|v.items| > 2 && AsU64(v.items[2]) == Some(0))
  {
    if !v.Array? || |v.items| == 0 then None
    else
      var data := v.items;
      var text := AsStr(data[0]).GetOr(" ");
      var hlId := if |data| > 1 then AsU64(data[1]) else None;
      var repeat := if |data| > 2 then AsUsize(data[2]).GetOr(1) else 1;
      if repeat == 0 then None else Some(GridCell(text, hlId, repeat))
  }

  /** The cells a `grid_line` cell list yields, in order. */
  function LineCells(vs: seq<Value>): (cells: seq<GridCell>)
    ensures |cells| <= |vs|
    ensures forall k :: 0 <= k < |cells| ==> cells[k].repeat >= 1
  {
    if |vs| == 0 then []
    else
      var rest := LineCells(vs[..|vs| - 1]);
      match CellOf(vs[|vs| - 1])
      case Some(c) => rest + [c]
      case None => rest
  }

  /** The cells of a list are exactly the kept elements' cells, in list order:
      `idx` names, for each cell, the element it came from. */
  lemma {:induction false} LineCellsKept(vs: seq<Value>) returns (idx: seq<nat>)
    ensures |idx| == |LineCells(vs)|
    ensures forall k :: 0 <= k < |idx| ==> idx[k] < |vs| && CellOf(vs[idx[k]]) == Some(LineCells(vs)[k])
    ensures forall k, l :: 0 <= k < l < |idx| ==> idx[k] < idx[l]
    ensures forall j :: 0 <= j < |vs| && CellOf(vs[j]).Some? ==> j in idx
  {
    if |vs| == 0 {
      return [];
    }
    var init := vs[..|vs| - 1];
    var p := LineCellsKept(init);
    assert forall j :: 0 <= j < |init| ==> vs[j] == init[j];
    if CellOf(vs[|vs| - 1]).Some? {
      idx := p + [|vs| - 1];
    } else {
      idx := p;
    }
  }

  /** `parse_grid_line`, as a value. */
  function GridLineOf(args: seq<Value>): (r: Option<RedrawEvent>)
    ensures r.Some? <==> |args| >= 4 && AsU64(args[0]).Some? && AsU64(args[1]).Some? && AsU64(args[2]).Some? && args[3].Array?
    ensures r.Some? ==> r.value == GridLine(args[0].i, args[1].i, args[2].i, LineCells(args[3].items))
  {
    if |args| < 4 then None
    else
      var grid :- AsU64(args[0]);
      var row :- AsUsize(args[1]);
      var colStart :- AsUsize(args[2]);
      var cells :- AsArray(args[3]);
      Some(GridLine(grid, row, colStart, LineCells(cells)))
  }

  /** `parse_grid_line`: the cell loop pushes each kept cell in order. */
  method ParseGridLine(args: seq<Value>) returns (r: Option<RedrawEvent>)
    ensures r == GridLineOf(args)
  {
    if |args| < 4 {
      return None;
    }
    var grid := AsU64(args[0]);
    var row := AsUsize(args[1]);
    var colStart := AsUsize(args[2]);
    var list := AsArray(args[3]);
    if grid.None? || row.None? || colStart.None? || list.None? {
      return None;
    }
    var values := list.value;
    var cells: seq<GridCell> := [];
    var k := 0;
    while k < |values|
      invariant 0 <= k <= |values|
      invariant cells == LineCells(values[..k])
    {
      assert values[..k + 1][..k] == values[..k];
      var cell := CellOf(values[k]);
      if cell.Some? {
        cells := cells + [cell.value];
      }
      k := k + 1;
    }
    assert values[..k] == values;
    return Some(GridLine(grid.value, row.value, colStart.value, cells));
  }

  // ---------------------------------------------------------------------
  // hl_attr_define
  // ---------------------------------------------------------------------

  /** The style bit a boolean attribute key sets, or 0 for any other key. */
  function StyleFlagFor(key: string): (f: StyleFlags)
    ensures f == 0 || f == BOLD || f == ITALIC || f == UNDERLINE || f == UNDERCURL || f == UNDERDOUBLE || f == UNDERDOTTED || f == UNDERDASHED || f == STRIKETHROUGH || f == REVERSE || f == ALTFONT
  {
    match key
    case "bold" => BOLD
    case "italic" => ITALIC
    case "underline" => UNDERLINE
    case "undercurl" => UNDERCURL
    case "underdouble" => UNDERDOUBLE
    case "underdotted" => UNDERDOTTED
    case "underdashed" => UNDERDASHED
    case "strikethrough" => STRIKETHROUGH
    case "reverse" => REVERSE
    case "altfont" => ALTFONT
    case _ => 0
  }

  /** The effect of one `rgb_attrs` entry on the attributes being built. */
  function ApplyAttr(a: HighlightAttributes, key: Value, value: Value): (r: HighlightAttributes)
  {
    var name := KeyName(key);
    if StyleFlagFor(name) != 0 then
      if AsBool(value).GetOr(false) then a.(style := a.style | StyleFlagFor(name)) else a
    else
      match name
      case "foreground" =>
        (match AsU32(value) case Some(c) => a.(foreground := Some(FromU24(c as bv32))) case None => a)
      case "background" =>
        (match AsU32(value) case Some(c) => a.(background := Some(FromU24(c as bv32))) case None => a)
      case "special" =>
        (match AsU32(value) case Some(c) => a.(special := Some(FromU24(c as bv32))) case None => a)
      case "blend" =>
        (match AsU64(value) case Some(b) => a.(blend := (b % U8Limit) as bv8) case None => a)
      case "url" =>
        (match AsStr(value) case Some(u) => a.(url := Some(u)) case None => a)
      case _ => a
  }

  /** The attributes built from the entries, starting from the defaults. */
  function AttrsOf(entries: seq<(Value, Value)>): HighlightAttributes
  {
    if |entries| == 0 then DefaultAttrs
    else
      var last := entries[|entries| - 1];
      ApplyAttr(AttrsOf(entries[..|entries| - 1]), last.0, last.1)
  }

  /** `parse_hl_attr_define`, as a value. */
  function HlAttrDefineOf(args: seq<Value>): (r: Option<RedrawEvent>)
    ensures r.Some? <==> |args| >= 2 && AsU64(args[0]).Some? && args[1].Map?
    ensures r.Some? ==> r.value == HlAttrDefine(args[0].i, AttrsOf(args[1].entries))
  {
    if |args| < 2 then None
    else
      var id :- AsU64(args[0]);
      var entries :- AsMap(args[1]);
      Some(HlAttrDefine(id, AttrsOf(entries)))
  }

  /** `parse_hl_attr_define`: the entry loop updates the attributes in map order. */
  method ParseHlAttrDefine(args: seq<Value>) returns (r: Option<RedrawEvent>)
    ensures r == HlAttrDefineOf(args)
  {
    if |args| < 2 {
      return None;
    }
    var id := AsU64(args[0]);
    var map_ := AsMap(args[1]);
    if id.None? || map_.None? {
      return None;
    }
    var entries := map_.value;
    var attrs := DefaultAttrs;
    var k := 0;
    while k < |entries|
      invariant 0 <= k <= |entries|
      invariant attrs == AttrsOf(entries[..k])
    {
      assert entries[..k + 1][..k] == entries[..k];
      attrs := ApplyAttr(attrs, entries[k].0, entries[k].1);
      k := k + 1;
    }
    assert entries[..k] == entries;
    return Some(HlAttrDefine(id.value, attrs));
  }

  /** Or-ing in one style bit leaves every other style bit as it was. */
  lemma OrStyleBit(s: StyleFlags, f: StyleFlags, g: StyleFlags)
    requires f == BOLD || f == ITALIC || f == UNDERLINE || f == UNDERCURL || f == UNDERDOUBLE || f == UNDERDOTTED || f == UNDERDASHED || f == STRIKETHROUGH || f == REVERSE || f == ALTFONT
    requires g == BOLD || g == ITALIC || g == UNDERLINE || g == UNDERCURL || g == UNDERDOUBLE || g == UNDERDOTTED || g == UNDERDASHED || g == STRIKETHROUGH || g == REVERSE || g == ALTFONT
    ensures Contains(s | g, f) <==> Contains(s, f) || g == f
  {
  }

  /** An entry that sets style bit `f` to true: its key names `f` and its value is `true`. */
  predicate SetsFlag(entry: (Value, Value), f: StyleFlags)
  {
    StyleFlagFor(KeyName(entry.0)) == f && entry.1 == Boolean(true)
  }

  /** One entry sets style bit `f` exactly when it names `f` with the value
      `true`, and otherwise leaves that bit as it was. */
  lemma ApplyAttrFlag(a: HighlightAttributes, key: Value, value: Value, f: StyleFlags)
    requires f == BOLD || f == ITALIC || f == UNDERLINE || f == UNDERCURL || f == UNDERDOUBLE || f == UNDERDOTTED || f == UNDERDASHED || f == STRIKETHROUGH || f == REVERSE || f == ALTFONT
    ensures Contains(ApplyAttr(a, key, value).style, f) <==> Contains(a.style, f) || SetsFlag((key, value), f)
  {
    var g := StyleFlagFor(KeyName(key));
    if g != 0 && AsBool(value).GetOr(false) {
      OrStyleBit(a.style, f, g);
    }
  }

  /** A style bit ends up set exactly when some entry sets it to boolean true. */
  lemma {:induction false} AttrsFlagIff(entries: seq<(Value, Value)>, f: StyleFlags)
    requires f == BOLD || f == ITALIC || f == UNDERLINE || f == UNDERCURL || f == UNDERDOUBLE || f == UNDERDOTTED || f == UNDERDASHED || f == STRIKETHROUGH || f == REVERSE || f == ALTFONT
    ensures Contains(AttrsOf(entries).style, f) <==> exists k :: 0 <= k < |entries| && SetsFlag(entries[k], f)
  {
    if |entries| > 0 {
      var init := entries[..|entries| - 1];
      var last := entries[|entries| - 1];
      AttrsFlagIff(init, f);
      ApplyAttrFlag(AttrsOf(init), last.0, last.1, f);
      assert forall k :: 0 <= k < |init| ==> entries[k] == init[k];
      if exists k :: 0 <= k < |entries| && SetsFlag(entries[k], f) {
        var k :| 0 <= k < |entries| && SetsFlag(entries[k], f);
        if k < |init| {
          assert SetsFlag(init[k], f);
        }
      }
    }
  }

  /** An entry whose key names no attribute changes nothing. */
  lemma UnknownKeyIgnored(a: HighlightAttributes, key: Value, value: Value)
    requires KeyName(key) !in {"foreground", "background", "special", "blend", "url", "bold", "italic", "underline", "undercurl", "underdouble", "underdotted", "underdashed", "strikethrough", "reverse", "altfont"}
    ensures ApplyAttr(a, key, value) == a
  {
  }

  // ---------------------------------------------------------------------
  // mode_info_set
  // ---------------------------------------------------------------------

  /** `cursor_shape`: the three known names; anything else, or a non-string, is a block. */
  function ShapeOf(v: Value): (s: CursorShape)
    ensures s == Horizontal <==> v == String("horizontal")
    ensures s == Vertical <==> v == String("vertical")
  {
    match AsStr(v).GetOr("block")
    case "block" => Block
    case "horizontal" => Horizontal
    case "vertical" => Vertical
    case _ => Block
  }

  /** The effect of one mode-map entry on the mode being built. */
  function ApplyModeKey(m: ModeInfo, key: Value, value: Value): ModeInfo
  {
    match KeyName(key)
    case "cursor_shape" => m.(cursorShape := ShapeOf(value))
    case "cell_percentage" =>
      (match AsU64(value) case Some(p) => m.(cellPercentage := p % U8Limit) case None => m)
    case "attr_id" =>
      (match AsU64(value) case Some(id) => m.(attrId := id) case None => m)
    case "blinkwait" =>
      (match AsU32(value) case Some(ms) => m.(blinkWait := ms) case None => m)
    case "blinkon" =>
      (match AsU32(value) case Some(ms) => m.(blinkOn := ms) case None => m)
    case "blinkoff" =>
      (match AsU32(value) case Some(ms) => m.(blinkOff := ms) case None => m)
    case _ => m
  }

  /** The mode built from one map's entries, starting from the default mode. */
  function ModeOf(entries: seq<(Value, Value)>): ModeInfo
  {
    if |entries| == 0 then DefaultMode
    else
      var last := entries[|entries| - 1];
      ApplyModeKey(ModeOf(entries[..|entries| - 1]), last.0, last.1)
  }

  /** The modes of a mode list; one entry that is not a map rejects the whole list. */
  function ModesOf(list: seq<Value>): (r: Option<seq<ModeInfo>>)
    ensures r.Some? <==> forall k :: 0 <= k < |list| ==> list[k].Map?
    ensures r.Some? ==> |r.value| == |list| && forall k :: 0 <= k < |list| ==> r.value[k] == ModeOf(list[k].entries)
  {
    if |list| == 0 then Some([])
    else
      var init := list[..|list| - 1];
      var last := list[|list| - 1];
      assert forall k :: 0 <= k < |init| ==> init[k] == list[k];
      var modes :- ModesOf(init);
      var entries :- AsMap(last);
      Some(modes + [ModeOf(entries)])
  }

  /** `parse_mode_info_set`, as a value. */
  function ModeInfoSetOf(args: seq<Value>): (r: Option<RedrawEvent>)
    ensures r.Some? <==> |args| >= 2 && args[1].Array? && ModesOf(args[1].items).Some?
    ensures r.Some? ==> r.value == ModeInfoSet(AsBool(args[0]).GetOr(true), ModesOf(args[1].items).value)
  {
    if |args| < 2 then None
    else
      var enabled := AsBool(args[0]).GetOr(true);
      var list :- AsArray(args[1]);
      var modes :- ModesOf(list);
      Some(ModeInfoSet(enabled, modes))
  }

  /** `parse_mode_info_set`: the outer loop pushes one mode per map (returning
      None at the first non-map), the inner loop applies that map's entries. */
  method ParseModeInfoSet(args: seq<Value>) returns (r: Option<RedrawEvent>)
    ensures r == ModeInfoSetOf(args)
  {
    if |args| < 2 {
      return None;
    }
    var enabled := AsBool(args[0]).GetOr(true);
    var list := AsArray(args[1]);
    if list.None? {
      return None;
    }
    var values := list.value;
    var modes: seq<ModeInfo> := [];
    var k := 0;
    while k < |values|
      invariant 0 <= k <= |values|
      invariant ModesOf(values[..k]) == Some(modes)
    {
      assert values[..k + 1][..k] == values[..k];
      var entries := AsMap(values[k]);
      if entries.None? {
        assert !values[k].Map?;
        assert ModesOf(values).None?;
        return None;
      }
      var mode := DefaultMode;
      var j := 0;
      while j < |entries.value|
        invariant 0 <= j <= |entries.value|
        invariant mode == ModeOf(entries.value[..j])
      {
        assert entries.value[..j + 1][..j] == entries.value[..j];
        mode := ApplyModeKey(mode, entries.value[j].0, entries.value[j].1);
        j := j + 1;
      }
      assert entries.value[..j] == entries.value;
      modes := modes + [mode];
      k := k + 1;
    }
    assert values[..k] == values;
    return Some(ModeInfoSet(enabled, modes));
  }

  // ---------------------------------------------------------------------
  // Dispatch and the redraw batch loop
  // ---------------------------------------------------------------------

  /** `parse_single_event`, as a value: dispatch on the event name. */
  function SingleEventOf(name: string, args: seq<Value>): (r: Option<RedrawEvent>)
    ensures name == "flush" ==> r == Some(Flush)
    ensures name == "busy_start" ==> r == Some(Busy(true))
    ensures name == "busy_stop" ==> r == Some(Busy(false))
    ensures name == "mouse_on" ==> r == Some(MouseOn)
    ensures name == "mouse_off" ==> r == Some(MouseOff)
    ensures name !in KnownEvents ==> r.None?
  {
    match name
    case "grid_resize" => ParseGridResize(args)
    case "grid_clear" => ParseGridClear(args)
    case "grid_line" => GridLineOf(args)
    case "grid_scroll" => ParseGridScroll(args)
    case "grid_cursor_goto" => ParseGridCursorGoto(args)
    case "grid_destroy" => ParseGridDestroy(args)
    case "hl_attr_define" => HlAttrDefineOf(args)
    case "hl_group_set" => ParseHlGroupSet(args)
    case "default_colors_set" => ParseDefaultColorsSet(args)
    case "mode_info_set" => ModeInfoSetOf(args)
    case "mode_change" => ParseModeChange(args)
    case "set_title" => ParseSetTitle(args)
    case "set_icon" => ParseSetIcon(args)
    case "option_set" => ParseOptionSet(args)
    case "flush" => Some(Flush)
    case "busy_start" => Some(Busy(true))
    case "busy_stop" => Some(Busy(false))
    case "mouse_on" => Some(MouseOn)
    case "mouse_off" => Some(MouseOff)
    case _ => None
  }

  const KnownEvents: set<string> := {
    "grid_resize", "grid_clear", "grid_line", "grid_scroll", "grid_cursor_goto", "grid_destroy",
    "hl_attr_define", "hl_group_set", "default_colors_set", "mode_info_set", "mode_change",
    "set_title", "set_icon", "option_set", "flush", "busy_start", "busy_stop", "mouse_on", "mouse_off"}

  /** `parse_single_event`: the three looping parsers run as methods, the rest as functions. */
  method ParseSingleEvent(name: string, args: seq<Value>) returns (r: Option<RedrawEvent>)
    ensures r == SingleEventOf(name, args)
  {
    if name == "grid_line" {
      r := ParseGridLine(args);
    } else if name == "hl_attr_define" {
      r := ParseHlAttrDefine(args);
    } else if name == "mode_info_set" {
      r := ParseModeInfoSet(args);
    } else {
      r := SingleEventOf(name, args);
    }
  }

  function OptionToSeq<T>(o: Option<T>): (s: seq<T>)
    ensures o.Some? ==> s == [o.value]
    ensures o.None? ==> s == []
  {
    if o.Some? then [o.value] else []
  }

  /** The events of one batch's argument lists: each array yields at most one event; non-arrays are skipped. */
  function ArgEvents(name: string, argLists: seq<Value>): (events: seq<RedrawEvent>)
    ensures |events| <= |argLists|
  {
    if |argLists| == 0 then []
    else
      var last := argLists[|argLists| - 1];
      ArgEvents(name, argLists[..|argLists| - 1]) + (if last.Array? then OptionToSeq(SingleEventOf(name, last.items)) else [])
  }

  /** The events of one batch `[name, args...]`; a non-array, an empty array or
      a non-string name yields nothing. */
  function BatchEvents(batch: Value): (events: seq<RedrawEvent>)
    ensures !batch.Array? || |batch.items| == 0 || !batch.items[0].String? ==> events == []
    ensures batch.Array? ==> |events| < |batch.items| || |batch.items| == 0
  {
    if batch.Array? && |batch.items| > 0 && batch.items[0].String? then
      ArgEvents(batch.items[0].s, batch.items[1..])
    else []
  }

  /** `parse_redraw`, as a value: the batches' events, concatenated in order. */
  function Redraw(batches: seq<Value>): seq<RedrawEvent>
  {
    if |batches| == 0 then []
    else Redraw(batches[..|batches| - 1]) + BatchEvents(batches[|batches| - 1])
  }

  /** Parsing two runs of batches one after the other gives their events one after the other. */
  lemma {:induction false} RedrawAppend(a: seq<Value>, b: seq<Value>)
    ensures Redraw(a + b) == Redraw(a) + Redraw(b)
    decreases |b|
  {
    if |b| > 0 {
      var b' := b[..|b| - 1];
      var last := b[|b| - 1];
      assert (a + b)[..|a + b| - 1] == a + b';
      assert (a + b)[|a + b| - 1] == last;
      assert Redraw(a + b) == Redraw(a + b') + BatchEvents(last);
      RedrawAppend(a, b');
      assert Redraw(b) == Redraw(b') + BatchEvents(last);
      AppendAssoc(Redraw(a), Redraw(b'), BatchEvents(last));
    } else {
      assert a + b == a;
    }
  }

  /** Argument lists are likewise processed in order. */
  lemma {:induction false} ArgEventsAppend(name: string, a: seq<Value>, b: seq<Value>)
    ensures ArgEvents(name, a + b) == ArgEvents(name, a) + ArgEvents(name, b)
    decreases |b|
  {
    if |b| > 0 {
      var b' := b[..|b| - 1];
      var last := b[|b| - 1];
      var tail := if last.Array? then OptionToSeq(SingleEventOf(name, last.items)) else [];
      assert (a + b)[..|a + b| - 1] == a + b';
      assert (a + b)[|a + b| - 1] == last;
      assert ArgEvents(name, a + b) == ArgEvents(name, a + b') + tail;
      ArgEventsAppend(name, a, b');
      assert ArgEvents(name, b) == ArgEvents(name, b') + tail;
      AppendAssoc(ArgEvents(name, a), ArgEvents(name, b'), tail);
    } else {
      assert a + b == a;
    }
  }

  /** An event name the parser does not know contributes no event, whatever its arguments. */
  lemma {:induction false} UnknownNameYieldsNothing(name: string, argLists: seq<Value>)
    requires name !in KnownEvents
    ensures ArgEvents(name, argLists) == []
  {
    if |argLists| > 0 {
      UnknownNameYieldsNothing(name, argLists[..|argLists| - 1]);
    }
  }

  /** The inner loop of `parse_redraw`: each array argument list of one
      batch is parsed and a resulting event pushed. */
  method ParseBatchArgs(name: string, argLists: seq<Value>) returns (events: seq<RedrawEvent>)
    ensures events == ArgEvents(name, argLists)
  {
    events := [];
    var j := 0;
    while j < |argLists|
      invariant 0 <= j <= |argLists|
      invariant events == ArgEvents(name, argLists[..j])
    {
      assert argLists[..j + 1][..j] == argLists[..j];
      if argLists[j].Array? {
        var event := ParseSingleEvent(name, argLists[j].items);
        if event.Some? {
          events := events + [event.value];
        }
      }
      j := j + 1;
    }
    assert argLists[..j] == argLists;
  }

  /** `parse_redraw`: for each array batch with a string name, each array argument
      list is parsed and a resulting event pushed. */
  method ParseRedraw(batches: seq<Value>) returns (events: seq<RedrawEvent>)
    ensures events == Redraw(batches)
  {
    events := [];
    var i := 0;
    while i < |batches|
      invariant 0 <= i <= |batches|
      invariant events == Redraw(batches[..i])
    {
      assert batches[..i + 1][..i] == batches[..i];
      var batch := batches[i];
      if batch.Array? && |batch.items| > 0 && batch.items[0].String? {
        var batchEvents := ParseBatchArgs(batch.items[0].s, batch.items[1..]);
        events := events + batchEvents;
      }
      i := i + 1;
    }
    assert batches[..i] == batches;
  }
}
