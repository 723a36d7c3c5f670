/**
 * Text runs: a row of cells grouped into maximal stretches of one highlight
 * id, the unit the shaper works on. Wide-character spacers are skipped and
 * never end a run.
 */
module Runs {
  import opened Wrappers
  import opened Cells
  import H = Highlight
  import opened FontStyles
  import opened Seqs

  /** A run: where it starts, its text, its font style and its highlight id. */
  datatype Run = Run(startCol: nat, text: string, style: Style, highlightId: nat)

  /** `Run::is_empty`. */
  predicate IsEmptyRun(r: Run)
  {
    |r.text| == 0
  }

  /** `style_for_highlight`: the style named by the id's bold and italic flags. */
  function StyleFor(m: map<nat, H.HighlightAttributes>, id: nat): (s: Style)
    ensures IsBold(s) == H.IsBold(H.Lookup(m, id))
    ensures IsItalic(s) == H.IsItalic(H.Lookup(m, id))
  {
    var attrs := H.Lookup(m, id);
    FromFlags(H.IsBold(attrs), H.IsItalic(attrs))
  }

  /** Id 0, and any id never defined, draws in the regular style. */
  lemma UnknownIdRegular(m: map<nat, H.HighlightAttributes>, id: nat)
    requires id == 0 || id !in m
    ensures StyleFor(m, id) == Regular
  {
    H.DefaultAttrsColours(H.InitialDefaults());
  }

  /** The text a cell contributes to a run: none for a spacer. */
  function CellText(c: Cell): string
  {
    if IsWideSpacer(c) then "" else c.text
  }

  /** The texts of the non-spacer cells, in order. */
  function Texts(cells: seq<Cell>): string
  {
    if |cells| == 0 then "" else Texts(cells[..|cells| - 1]) + CellText(cells[|cells| - 1])
  }

  /** The first non-spacer at or after `pos`, or the row's end. */
  function SkipSpacers(cells: seq<Cell>, pos: nat): (i: nat)
    requires pos <= |cells|
    ensures pos <= i <= |cells|
    ensures forall j :: pos <= j < i ==> IsWideSpacer(cells[j])
    ensures i < |cells| ==> !IsWideSpacer(cells[i])
    decreases |cells| - pos
  {
    if pos == |cells| || !IsWideSpacer(cells[pos]) then pos else SkipSpacers(cells, pos + 1)
  }

  /** Where a run of highlight `id` that has reached `pos` ends: at the
      first non-spacer with another id, or at the row's end. */
  function RunEnd(cells: seq<Cell>, pos: nat, id: nat): (e: nat)
    requires pos <= |cells|
    ensures pos <= e <= |cells|
    ensures forall j :: pos <= j < e ==> IsWideSpacer(cells[j]) || cells[j].highlightId == id
    ensures e < |cells| ==> !IsWideSpacer(cells[e]) && cells[e].highlightId != id
    decreases |cells| - pos
  {
    if pos == |cells| then pos
    else if IsWideSpacer(cells[pos]) || cells[pos].highlightId == id then RunEnd(cells, pos + 1, id)
    else pos
  }

  /** `next` from position `pos`: the run there, if any, and the position after it. */
  function NextRun(cells: seq<Cell>, pos: nat, m: map<nat, H.HighlightAttributes>): (r: (Option<Run>, nat))
    requires pos <= |cells|
    ensures pos <= r.1 <= |cells|
    ensures r.0.Some? ==> pos < r.1
  {
    var start := SkipSpacers(cells, pos);
    if start == |cells| then (None, start)
    else
      var id := cells[start].highlightId;
      var end := RunEnd(cells, start + 1, id);
      (Some(Run(start, Texts(cells[start..end]), StyleFor(m, id), id)), end)
  }

  /** What `next` promises: no run exactly when only spacers remain; else the
      run starts at the first non-spacer, takes that cell's id and style,
      covers only spacers and cells of that id, and stops just before a
      non-spacer of another id or at the row's end. */
  lemma NextRunSpec(cells: seq<Cell>, pos: nat, m: map<nat, H.HighlightAttributes>)
    requires pos <= |cells|
    ensures var r := NextRun(cells, pos, m);
            && (r.0.None? <==> forall j :: pos <= j < |cells| ==> IsWideSpacer(cells[j]))
            && (r.0.None? ==> r.1 == |cells|)
            && (r.0.Some? ==> pos <= r.0.value.startCol < r.1)
            && (r.0.Some? ==> forall j :: pos <= j < r.0.value.startCol ==> IsWideSpacer(cells[j]))
            && (r.0.Some? ==> !IsWideSpacer(cells[r.0.value.startCol]))
            && (r.0.Some? ==> r.0.value.highlightId == cells[r.0.value.startCol].highlightId)
            && (r.0.Some? ==> r.0.value.style == StyleFor(m, r.0.value.highlightId))
            && (r.0.Some? ==> r.0.value.text == Texts(cells[r.0.value.startCol..r.1]))
            && (r.0.Some? ==> forall j :: r.0.value.startCol <= j < r.1 ==>
                  IsWideSpacer(cells[j]) || cells[j].highlightId == r.0.value.highlightId)
            && (r.0.Some? && r.1 < |cells| ==> !IsWideSpacer(cells[r.1]) && cells[r.1].highlightId != r.0.value.highlightId)
  {
  }

  /** Every run the iterator yields from `pos` on. */
  function RunsFrom(cells: seq<Cell>, pos: nat, m: map<nat, H.HighlightAttributes>): (runs: seq<Run>)
    requires pos <= |cells|
    ensures |runs| <= |cells| - pos
    decreases |cells| - pos
  {
    var r := NextRun(cells, pos, m);
    match r.0
    case None => []
    case Some(run) => [run] + RunsFrom(cells, r.1, m)
  }

  /** The texts of `runs`, concatenated. */
  function Concat(runs: seq<Run>): string
  {
    if |runs| == 0 then "" else runs[0].text + Concat(runs[1..])
  }

  /** Taking one more cell into a stretch adds that cell's text, if any. */
  lemma TextsStep(cells: seq<Cell>, start: nat, pos: nat)
    requires start <= pos < |cells|
    ensures Texts(cells[start..pos + 1]) == Texts(cells[start..pos]) + CellText(cells[pos])
  {
    SliceDropLast(cells, start, pos + 1);
  }

  /** A cell that continues a run leaves the run's end where it was. */
  lemma RunEndStep(cells: seq<Cell>, pos: nat, id: nat)
    requires pos < |cells|
    requires IsWideSpacer(cells[pos]) || cells[pos].highlightId == id
    ensures RunEnd(cells, pos + 1, id) == RunEnd(cells, pos, id)
  {
  }

  /** The texts of two adjacent stretches are the texts of their union. */
  lemma {:induction false} TextsAppend(a: seq<Cell>, b: seq<Cell>)
    ensures Texts(a + b) == Texts(a) + Texts(b)
    decreases |b|
  {
    if |b| == 0 {
      assert a + b == a;
    } else {
      var front := b[..|b| - 1];
      DropLastOfAppend(a, b);
      assert Texts(a + b) == Texts(a + front) + CellText(b[|b| - 1]);
      TextsAppend(a, front);
      AppendAssoc(Texts(a), Texts(front), CellText(b[|b| - 1]));
    }
  }

  /** A stretch of spacers has no text. */
  lemma {:induction false} SpacersNoText(cells: seq<Cell>)
    requires forall j :: 0 <= j < |cells| ==> IsWideSpacer(cells[j])
    ensures Texts(cells) == ""
    decreases |cells|
  {
    if |cells| > 0 {
      SpacersNoText(cells[..|cells| - 1]);
    }
  }

  /** The runs' texts, concatenated, are the texts of the non-spacer cells:
      grouping loses, repeats and reorders nothing. */
  lemma {:induction false} RunsCoverText(cells: seq<Cell>, pos: nat, m: map<nat, H.HighlightAttributes>)
    requires pos <= |cells|
    ensures Concat(RunsFrom(cells, pos, m)) == Texts(cells[pos..])
    decreases |cells| - pos
  {
    var r := NextRun(cells, pos, m);
    if r.0.None? {
      NoRunNoText(cells, pos, m);
    } else {
      var next := r.1;
      RunsFromCons(cells, pos, m);
      RunsCoverText(cells, next, m);
      TextsAppend(cells[pos..next], cells[next..]);
      SliceJoinTail(cells, pos, next);
    }
  }

  /** When no run is left, neither is any text. */
  lemma NoRunNoText(cells: seq<Cell>, pos: nat, m: map<nat, H.HighlightAttributes>)
    requires pos <= |cells| && NextRun(cells, pos, m).0.None?
    ensures RunsFrom(cells, pos, m) == [] && Texts(cells[pos..]) == ""
  {
    NextRunSpec(cells, pos, m);
    SpacersNoText(cells[pos..]);
  }

  /** The first run is followed by the runs from where it stopped. */
  lemma RunsFromCons(cells: seq<Cell>, pos: nat, m: map<nat, H.HighlightAttributes>)
    requires pos <= |cells| && NextRun(cells, pos, m).0.Some?
    ensures var r := NextRun(cells, pos, m);
      && Concat(RunsFrom(cells, pos, m)) == r.0.value.text + Concat(RunsFrom(cells, r.1, m))
      && r.0.value.text == Texts(cells[pos..r.1])
  {
    var r := NextRun(cells, pos, m);
    var rest := RunsFrom(cells, r.1, m);
    assert RunsFrom(cells, pos, m) == [r.0.value] + rest;
    assert ([r.0.value] + rest)[1..] == rest;
    RunTextSlice(cells, pos, m);
  }

  /** The first run's text is the text of the cells it consumed, spacers
      before it included. */
  lemma RunTextSlice(cells: seq<Cell>, pos: nat, m: map<nat, H.HighlightAttributes>)
    requires pos <= |cells| && NextRun(cells, pos, m).0.Some?
    ensures NextRun(cells, pos, m).0.value.text == Texts(cells[pos..NextRun(cells, pos, m).1])
  {
    var start := SkipSpacers(cells, pos);
    var next := NextRun(cells, pos, m).1;
    assert NextRun(cells, pos, m).0.value.text == Texts(cells[start..next]);
    var spacers := cells[pos..start];
    assert forall j :: 0 <= j < |spacers| ==> IsWideSpacer(spacers[j]) by {
      forall j | 0 <= j < |spacers| ensures IsWideSpacer(spacers[j]) {
        assert spacers[j] == cells[pos + j];
      }
    }
    SpacersNoText(spacers);
    TextsAppend(spacers, cells[start..next]);
    SliceJoin(cells, pos, start, next);
  }

  /** A row with no non-spacer cell from `pos` on yields no runs, and any
      other row yields at least one. */
  lemma NoRunsIffSpacers(cells: seq<Cell>, pos: nat, m: map<nat, H.HighlightAttributes>)
    requires pos <= |cells|
    ensures RunsFrom(cells, pos, m) == [] <==> forall j :: pos <= j < |cells| ==> IsWideSpacer(cells[j])
  {
  }

  /** The run after a run starts right where the first one stopped, at a
      cell of another highlight id. */
  lemma NeighbourStep(cells: seq<Cell>, pos: nat, m: map<nat, H.HighlightAttributes>)
    requires pos <= |cells|
    ensures var r := NextRun(cells, pos, m);
            r.0.Some? && NextRun(cells, r.1, m).0.Some? ==>
              && NextRun(cells, r.1, m).0.value.startCol == r.1
              && NextRun(cells, r.1, m).0.value.highlightId != r.0.value.highlightId
  {
    NextRunSpec(cells, pos, m);
    var r := NextRun(cells, pos, m);
    if r.0.Some? {
      NextRunSpec(cells, r.1, m);
    }
  }

  /** Each run starts at or after `pos`, at a non-spacer cell carrying the run's id. */
  predicate StartsAtCells(cells: seq<Cell>, pos: nat, runs: seq<Run>)
  {
    forall i :: 0 <= i < |runs| ==>
      pos <= runs[i].startCol < |cells| && !IsWideSpacer(cells[runs[i].startCol])
      && cells[runs[i].startCol].highlightId == runs[i].highlightId
  }

  /** Each run starts strictly after the one before it. */
  predicate Increasing(runs: seq<Run>)
  {
    forall i :: 0 < i < |runs| ==> runs[i - 1].startCol < runs[i].startCol
  }

  /** Runs start at non-spacer cells carrying their id, in strictly
      increasing columns. */
  lemma {:induction false} RunsStartInOrder(cells: seq<Cell>, pos: nat, m: map<nat, H.HighlightAttributes>)
    requires pos <= |cells|
    ensures StartsAtCells(cells, pos, RunsFrom(cells, pos, m))
    ensures Increasing(RunsFrom(cells, pos, m))
    decreases |cells| - pos
  {
    NextRunSpec(cells, pos, m);
    var r := NextRun(cells, pos, m);
    if r.0.Some? {
      var next := r.1;
      RunsStartInOrder(cells, next, m);
      var rest := RunsFrom(cells, next, m);
      var runs := RunsFrom(cells, pos, m);
      assert runs == [r.0.value] + rest;
      forall i | 0 < i < |runs|
        ensures runs[i] == rest[i - 1] && next <= runs[i].startCol
      {
      }
      forall i | 0 < i < |runs|
        ensures runs[i - 1].startCol < runs[i].startCol
      {
        if i > 1 {
          assert runs[i - 1] == rest[i - 2];
        }
      }
    }
  }

  /** Each run's highlight id differs from the one before it. */
  predicate Alternating(runs: seq<Run>)
  {
    forall i :: 0 < i < |runs| ==> runs[i - 1].highlightId != runs[i].highlightId
  }

  /** Consecutive runs have different highlight ids, so spacers never split a run. */
  lemma {:induction false} NeighboursDiffer(cells: seq<Cell>, pos: nat, m: map<nat, H.HighlightAttributes>)
    requires pos <= |cells|
    ensures Alternating(RunsFrom(cells, pos, m))
    decreases |cells| - pos
  {
    var r := NextRun(cells, pos, m);
    if r.0.Some? {
      var next := r.1;
      NeighboursDiffer(cells, next, m);
      NeighbourStep(cells, pos, m);
      var rest := RunsFrom(cells, next, m);
      var runs := RunsFrom(cells, pos, m);
      assert runs == [r.0.value] + rest;
      if |rest| > 0 {
        assert rest[0] == NextRun(cells, next, m).0.value;
      }
      forall i | 0 < i < |runs|
        ensures runs[i - 1].highlightId != runs[i].highlightId
      {
        if i > 1 {
          assert runs[i - 1] == rest[i - 2] && runs[i] == rest[i - 1];
        }
      }
    }
  }

  /** `RunIterator`: a row of cells, the highlight table it reads, and its position. */
  class RunIterator {
    const cells: seq<Cell>
    const highlights: H.HighlightMap
    var currentPos: nat

    ghost predicate Valid()
      reads this
    {
      currentPos <= |cells|
    }

    /** `new`: positioned at the row's first cell. */
    constructor(cells: seq<Cell>, highlights: H.HighlightMap)
      ensures Valid() && this.cells == cells && this.highlights == highlights && currentPos == 0
    {
      this.cells := cells;
      this.highlights := highlights;
      currentPos := 0;
    }

    /** Every run still to come. */
    ghost function Remaining(): seq<Run>
      reads this, highlights
      requires Valid()
    {
      RunsFrom(cells, currentPos, highlights.attributes)
    }

    /** `next`: skips leading spacers, then gathers cells while they are
        spacers or share the first cell's highlight id. */
    method Next() returns (r: Option<Run>)
      requires Valid()
      modifies this
      ensures Valid()
      ensures (r, currentPos) == NextRun(cells, old(currentPos), highlights.attributes)
      ensures r.None? ==> Remaining() == []
      ensures r.Some? ==> old(Remaining()) == [r.value] + Remaining()
    {
      SkipLeadingSpacers();
      if currentPos >= |cells| {
        return None;
      }
      var startCol := currentPos;
      var highlightId := cells[currentPos].highlightId;
      var style := StyleFor(highlights.attributes, highlightId);
      var text := cells[currentPos].text;
      currentPos := currentPos + 1;
      assert Texts(cells[startCol..currentPos]) == text by {
        TextsStep(cells, startCol, startCol);
        assert cells[startCol..startCol] == [];
      }
      text := GatherRun(startCol, highlightId, text);
      r := Some(Run(startCol, text, style, highlightId));
    }

    /** `next`'s first loop: moves past the spacers at the current position. */
    method SkipLeadingSpacers()
      requires Valid()
      modifies this
      ensures Valid()
      ensures currentPos == SkipSpacers(cells, old(currentPos))
    {
      while currentPos < |cells|
        invariant old(currentPos) <= currentPos <= |cells|
        invariant SkipSpacers(cells, currentPos) == SkipSpacers(cells, old(currentPos))
        decreases |cells| - currentPos
      {
        if !IsWideSpacer(cells[currentPos]) {
          break;
        }
        currentPos := currentPos + 1;
      }
    }

    /** `next`'s second loop: appends the texts of the cells that continue
        the run begun at `startCol`, skipping spacers. */
    method GatherRun(startCol: nat, highlightId: nat, first: string) returns (text: string)
      requires startCol < currentPos <= |cells|
      requires first == Texts(cells[startCol..currentPos])
      modifies this
      ensures currentPos == RunEnd(cells, old(currentPos), highlightId)
      ensures text == Texts(cells[startCol..currentPos])
    {
      text := first;
      var from := currentPos;
      var pos := from;
      while pos < |cells|
        invariant from <= pos <= |cells|
        invariant text == Texts(cells[startCol..pos])
        invariant RunEnd(cells, pos, highlightId) == RunEnd(cells, from, highlightId)
        decreases |cells| - pos
      {
        var cell := cells[pos];
        if IsWideSpacer(cell) {
          TextsStep(cells, startCol, pos);
          RunEndStep(cells, pos, highlightId);
          pos := pos + 1;
          continue;
        }
        if cell.highlightId != highlightId {
          break;
        }
        TextsStep(cells, startCol, pos);
        RunEndStep(cells, pos, highlightId);
        text := text + cell.text;
        pos := pos + 1;
      }
      currentPos := pos;
    }
  }
}
