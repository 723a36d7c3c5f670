/** A single grid cell: its text, highlight id and wide-character flags. */
module Cells {
  /** The two bits of the source's CellFlags: WIDE_CHAR (bit 0) and WIDE_CHAR_SPACER (bit 1). */
  datatype CellFlags = CellFlags(wide: bool, spacer: bool)

  const NoFlags := CellFlags(false, false)

  datatype Cell = Cell(text: string, highlightId: nat, flags: CellFlags)

  /** The cell every grid is filled with: a space, highlight 0, no flags. */
  function Default(): (c: Cell)
    ensures c.text == " " && c.highlightId == 0 && c.flags == NoFlags
    ensures IsEmpty(c)
  {
    Cell(" ", 0, NoFlags)
  }

  function New(text: string, highlightId: nat): (c: Cell)
    ensures c.text == text && c.highlightId == highlightId
    ensures !IsWide(c) && !IsWideSpacer(c)
  {
    Cell(text, highlightId, NoFlags)
  }

  /** A blank cell: default highlight, text " " or "", and no flag set. */
  predicate IsEmpty(c: Cell)
  {
    c.highlightId == 0 && (c.text == " " || c.text == "") && c.flags == NoFlags
  }

  predicate IsWide(c: Cell)
  {
    c.flags.wide
  }

  predicate IsWideSpacer(c: Cell)
  {
    c.flags.spacer
  }

  /** Sets or clears the WIDE_CHAR bit, leaving everything else alone. */
  function SetWide(c: Cell, wide: bool): (r: Cell)
    ensures IsWide(r) == wide && IsWideSpacer(r) == IsWideSpacer(c)
    ensures r.text == c.text && r.highlightId == c.highlightId
    ensures wide ==> !IsEmpty(r)
  {
    c.(flags := c.flags.(wide := wide))
  }

  /** Sets or clears the WIDE_CHAR_SPACER bit, leaving everything else alone. */
  function SetWideSpacer(c: Cell, spacer: bool): (r: Cell)
    ensures IsWideSpacer(r) == spacer && IsWide(r) == IsWide(c)
    ensures r.text == c.text && r.highlightId == c.highlightId
    ensures spacer ==> !IsEmpty(r)
  {
    c.(flags := c.flags.(spacer := spacer))
  }

  /** Resets a cell to the default cell, whatever it held. */
  function Clear(c: Cell): (r: Cell)
    ensures r == Default() && IsEmpty(r)
  {
    Cell(" ", 0, NoFlags)
  }

  /** is_empty holds exactly for the two blank texts with highlight 0 and no flags. */
  lemma EmptyCells(c: Cell)
    ensures IsEmpty(c) <==> c == Default() || c == Cell("", 0, NoFlags)
  {
  }
}
