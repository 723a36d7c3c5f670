/**
 * The text shaper's own logic: the split of a run into sub-runs that each
 * use one face of the collection, and the cluster offsetting that stitches the
 * shaped sub-runs back together.
 *
 * Shaping itself (HarfBuzz) and glyph resolution are inputs: `resolve`
 * answers which face of the collection holds a character, `hasFace` whether
 * the collection has the face at an index, and `shape` what the shaper
 * returns for a text on a face.
 */
module Shaper {
  import opened Wrappers
  import opened FontStyles
  import opened Seqs

  /** One shaped glyph. `cluster` is the cluster the shaping function
      reports, moved on by the number of characters before the sub-run. The
      shaper counts its clusters in bytes, so for non-ASCII text the value
      mixes bytes and characters. */
  datatype ShapedGlyph = ShapedGlyph(
    glyphId: nat, cluster: nat, xAdvance: int, yAdvance: int, xOffset: int, yOffset: int,
    fontIndex: CollectionIndex)

  /** A resolved face that does not end a sub-run: no face found, or the run's own face. */
  predicate Continues(answer: Option<CollectionIndex>, index: CollectionIndex)
  {
    answer.None? || answer.value == index
  }

  /** The first position at or after `k` whose character resolves to a face other than `index`, else `|text|`. */
  function SplitFrom(text: seq<char>, index: CollectionIndex, resolve: char -> Option<CollectionIndex>, k: nat): (e: nat)
    requires k <= |text|
    ensures k <= e <= |text|
    ensures forall j :: k <= j < e ==> Continues(resolve(text[j]), index)
    ensures e < |text| ==> !Continues(resolve(text[e]), index)
    decreases |text| - k
  {
    if k == |text| then k
    else if !Continues(resolve(text[k]), index) then k
    else SplitFrom(text, index, resolve, k + 1)
  }

  /** `find_font_run` as a value: the face of the first character (its style's
      primary face when it resolves to none), the longest prefix that no
      later character claims for another face, and the rest of the text. */
  function FontRun(text: seq<char>, style: Style, resolve: char -> Option<CollectionIndex>): (r: (seq<char>, seq<char>, CollectionIndex))
    ensures |r.0| + |r.1| == |text|
    ensures |text| > 0 ==> |r.0| >= 1
  {
    if |text| == 0 then ([], [], Primary(style))
    else
      var index := resolve(text[0]).GetOr(Primary(style));
      var e := SplitFrom(text, index, resolve, 1);
      (text[..e], text[e..], index)
  }

  /** The split `find_font_run` makes: the run's face is the first
      character's (or the style's primary face), no character of the run
      after the first resolves to another face, and the first character of
      the rest does. */
  lemma FontRunSplit(text: seq<char>, style: Style, resolve: char -> Option<CollectionIndex>)
    ensures var r := FontRun(text, style, resolve);
      && r.0 + r.1 == text
      && (|text| == 0 ==> r.2 == Primary(style))
      && (|text| > 0 ==> r.2 == resolve(text[0]).GetOr(Primary(style)))
      && (forall j :: 1 <= j < |r.0| ==> Continues(resolve(text[j]), r.2))
      && (|r.1| > 0 ==> !Continues(resolve(r.1[0]), r.2))
  {
  }

  /** `find_font_run`: scans the characters after the first for one that
      resolves to another face. */
  method FindFontRun(text: seq<char>, style: Style, resolve: char -> Option<CollectionIndex>)
    returns (run: seq<char>, rest: seq<char>, index: CollectionIndex)
    ensures (run, rest, index) == FontRun(text, style, resolve)
  {
    if |text| == 0 {
      return text, [], Primary(style);
    }
    index := resolve(text[0]).GetOr(Primary(style));
    var end := |text|;
    var k := 1;
    while k < |text|
      invariant 1 <= k <= |text|
      invariant SplitFrom(text, index, resolve, 1) == SplitFrom(text, index, resolve, k)
    {
      var answer := resolve(text[k]);
      if answer.Some? && answer.value != index {
        end := k;
        break;
      }
      k := k + 1;
    }
    run, rest := text[..end], text[end..];
  }

  /** A text none of whose characters resolves to a face other than the
      first one's is a single sub-run. */
  lemma OneFaceOneRun(text: seq<char>, style: Style, resolve: char -> Option<CollectionIndex>)
    requires |text| > 0
    requires forall j :: 0 <= j < |text| ==> Continues(resolve(text[j]), resolve(text[0]).GetOr(Primary(style)))
    ensures FontRun(text, style, resolve) == (text, [], resolve(text[0]).GetOr(Primary(style)))
  {
    var r := FontRun(text, style, resolve);
    FontRunSplit(text, style, resolve);
    if |r.1| > 0 {
      assert false;
    }
    assert r.0 == text;
  }

  /** The glyphs with their clusters moved on by `offset`. */
  function Offset(glyphs: seq<ShapedGlyph>, offset: nat): (r: seq<ShapedGlyph>)
    ensures |r| == |glyphs|
  {
    seq(|glyphs|, i requires 0 <= i < |glyphs| => glyphs[i].(cluster := glyphs[i].cluster + offset))
  }

  /** `shape_with_collection` as a value, for the text that starts `offset`
      characters into the run: each sub-run is shaped on its face (when the
      collection has it) with clusters moved on by the characters before it. */
  function ShapedText(text: seq<char>, style: Style, resolve: char -> Option<CollectionIndex>,
                      hasFace: CollectionIndex -> bool, shape: (seq<char>, CollectionIndex) -> seq<ShapedGlyph>,
                      offset: nat): seq<ShapedGlyph>
    decreases |text|
  {
    if |text| == 0 then []
    else
      var r := FontRun(text, style, resolve);
      SubRunGlyphs(r, hasFace, shape, offset) + ShapedText(r.1, style, resolve, hasFace, shape, offset + |r.0|)
  }

  /** The glyphs of one sub-run: none when the collection lacks its face. */
  function SubRunGlyphs(r: (seq<char>, seq<char>, CollectionIndex), hasFace: CollectionIndex -> bool,
                        shape: (seq<char>, CollectionIndex) -> seq<ShapedGlyph>, offset: nat): seq<ShapedGlyph>
  {
    if hasFace(r.2) then Offset(shape(r.0, r.2), offset) else []
  }

  /** `shape_with_collection`: splits the text into sub-runs one at a time
      until it is used up. */
  method ShapeWithCollection(text: seq<char>, style: Style, resolve: char -> Option<CollectionIndex>,
                             hasFace: CollectionIndex -> bool, shape: (seq<char>, CollectionIndex) -> seq<ShapedGlyph>)
    returns (results: seq<ShapedGlyph>)
    ensures results == ShapedText(text, style, resolve, hasFace, shape, 0)
  {
    results := [];
    var remaining := text;
    var clusterOffset: nat := 0;
    while |remaining| > 0
      invariant results + ShapedText(remaining, style, resolve, hasFace, shape, clusterOffset)
                == ShapedText(text, style, resolve, hasFace, shape, 0)
      decreases |remaining|
    {
      results, remaining, clusterOffset := ShapeSubRun(results, remaining, clusterOffset, style, resolve, hasFace, shape);
    }
  }

  /** One turn of the `shape_with_collection` loop: the next sub-run is
      shaped on its face, if the collection has it, and the offset moves on
      by its length. */
  method ShapeSubRun(results: seq<ShapedGlyph>, remaining: seq<char>, clusterOffset: nat, style: Style,
                     resolve: char -> Option<CollectionIndex>, hasFace: CollectionIndex -> bool,
                     shape: (seq<char>, CollectionIndex) -> seq<ShapedGlyph>)
    returns (results': seq<ShapedGlyph>, next: seq<char>, clusterOffset': nat)
    requires |remaining| > 0
    ensures |next| < |remaining|
    ensures results' + ShapedText(next, style, resolve, hasFace, shape, clusterOffset')
            == results + ShapedText(remaining, style, resolve, hasFace, shape, clusterOffset)
  {
    var run, index;
    run, next, index := FindFontRun(remaining, style, resolve);
    if hasFace(index) {
      results' := AppendOffset(results, shape(run, index), clusterOffset);
    } else {
      results' := results;
    }
    clusterOffset' := clusterOffset + |run|;
    ShapeLoopStep(remaining, style, resolve, hasFace, shape, clusterOffset, clusterOffset', run, next, index, results, results');
  }

  /** The `for` loop of `shape_with_collection`: pushes each shaped glyph with its cluster moved on by `offset`. */
  method AppendOffset(results: seq<ShapedGlyph>, shaped: seq<ShapedGlyph>, offset: nat) returns (r: seq<ShapedGlyph>)
    ensures r == results + Offset(shaped, offset)
  {
    r := results;
    for i := 0 to |shaped|
      invariant r == results + Offset(shaped[..i], offset)
    {
      assert Offset(shaped[..i + 1], offset) == Offset(shaped[..i], offset) + [shaped[i].(cluster := shaped[i].cluster + offset)];
      r := r + [shaped[i].(cluster := shaped[i].cluster + offset)];
    }
    assert shaped[..|shaped|] == shaped;
  }

  /** The sub-runs' texts, in order. */
  function SubRuns(text: seq<char>, style: Style, resolve: char -> Option<CollectionIndex>): (runs: seq<seq<char>>)
    ensures forall i :: 0 <= i < |runs| ==> |runs[i]| > 0
    decreases |text|
  {
    if |text| == 0 then []
    else
      var (run, rest, _) := FontRun(text, style, resolve);
      [run] + SubRuns(rest, style, resolve)
  }

  function Concat(runs: seq<seq<char>>): seq<char>
  {
    if |runs| == 0 then [] else runs[0] + Concat(runs[1..])
  }

  /** The sub-runs use up the text exactly: together they are the text, in order. */
  lemma {:induction false} SubRunsCoverText(text: seq<char>, style: Style, resolve: char -> Option<CollectionIndex>)
    ensures Concat(SubRuns(text, style, resolve)) == text
    decreases |text|
  {
    if |text| > 0 {
      var (run, rest, _) := FontRun(text, style, resolve);
      FontRunSplit(text, style, resolve);
      SubRunsCoverText(rest, style, resolve);
      assert SubRuns(text, style, resolve)[1..] == SubRuns(rest, style, resolve);
    }
  }

  /** A collection that has none of the faces yields no glyphs at all, though the whole text is still walked. */
  lemma {:induction false} NoFacesNoGlyphs(text: seq<char>, style: Style, resolve: char -> Option<CollectionIndex>,
                                           hasFace: CollectionIndex -> bool, shape: (seq<char>, CollectionIndex) -> seq<ShapedGlyph>,
                                           offset: nat)
    requires forall i :: !hasFace(i)
    ensures ShapedText(text, style, resolve, hasFace, shape, offset) == []
    decreases |text|
  {
    if |text| > 0 {
      var r := FontRun(text, style, resolve);
      NoFacesNoGlyphs(r.1, style, resolve, hasFace, shape, offset + |r.0|);
      SkippedSubRun(text, style, resolve, hasFace, shape, offset);
    }
  }

  /** A sub-run whose face the collection lacks contributes nothing: the
      glyphs are those of the rest of the text. */
  lemma SkippedSubRun(text: seq<char>, style: Style, resolve: char -> Option<CollectionIndex>,
                      hasFace: CollectionIndex -> bool, shape: (seq<char>, CollectionIndex) -> seq<ShapedGlyph>, offset: nat)
    requires |text| > 0 && !hasFace(FontRun(text, style, resolve).2)
    ensures ShapedText(text, style, resolve, hasFace, shape, offset)
      == ShapedText(FontRun(text, style, resolve).1, style, resolve, hasFace, shape, offset + |FontRun(text, style, resolve).0|)
  {
    var r := FontRun(text, style, resolve);
    assert SubRunGlyphs(r, hasFace, shape, offset) == [];
  }

  /** One sub-run of `ShapedText`: its glyphs, then the glyphs of the rest. */
  lemma ShapedTextStep(text: seq<char>, style: Style, resolve: char -> Option<CollectionIndex>,
                       hasFace: CollectionIndex -> bool, shape: (seq<char>, CollectionIndex) -> seq<ShapedGlyph>, offset: nat,
                       run: seq<char>, rest: seq<char>, index: CollectionIndex)
    requires |text| > 0 && (run, rest, index) == FontRun(text, style, resolve)
    ensures ShapedText(text, style, resolve, hasFace, shape, offset)
      == SubRunGlyphs((run, rest, index), hasFace, shape, offset) + ShapedText(rest, style, resolve, hasFace, shape, offset + |run|)
  {
  }

  /** One turn of the `shape_with_collection` loop keeps what is left to do equal to what was promised. */
  lemma ShapeLoopStep(remaining: seq<char>, style: Style, resolve: char -> Option<CollectionIndex>,
                      hasFace: CollectionIndex -> bool, shape: (seq<char>, CollectionIndex) -> seq<ShapedGlyph>,
                      offset: nat, offset': nat, run: seq<char>, next: seq<char>, index: CollectionIndex,
                      before: seq<ShapedGlyph>, after: seq<ShapedGlyph>)
    requires |remaining| > 0 && (run, next, index) == FontRun(remaining, style, resolve)
    requires offset' == offset + |run|
    requires after == if hasFace(index) then before + Offset(shape(run, index), offset) else before
    ensures after + ShapedText(next, style, resolve, hasFace, shape, offset')
            == before + ShapedText(remaining, style, resolve, hasFace, shape, offset)
  {
    ShapedTextStep(remaining, style, resolve, hasFace, shape, offset, run, next, index);
    var glyphs := SubRunGlyphs((run, next, index), hasFace, shape, offset);
    var rest := ShapedText(next, style, resolve, hasFace, shape, offset + |run|);
    if hasFace(index) {
      AppendAssoc(before, glyphs, rest);
    } else {
      assert glyphs == [];
      assert glyphs + rest == rest;
    }
  }
}
