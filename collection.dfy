/**
 * The four font styles and the index that names a face of the collection.
 */
module FontStyles {
  datatype Style = Regular | Bold | Italic | BoldItalic

  /** `Style::from_flags`. */
  function FromFlags(bold: bool, italic: bool): (s: Style)
    ensures IsBold(s) == bold && IsItalic(s) == italic
  {
    match (bold, italic)
    case (false, false) => Regular
    case (true, false) => Bold
    case (false, true) => Italic
    case (true, true) => BoldItalic
  }

  predicate IsBold(s: Style)
  {
    s == Bold || s == BoldItalic
  }

  predicate IsItalic(s: Style)
  {
    s == Italic || s == BoldItalic
  }

  /** `from_flags` is onto: every style is the style of its own flags. */
  lemma FromFlagsOnto(s: Style)
    ensures FromFlags(IsBold(s), IsItalic(s)) == s
  {
  }

  const U16Limit: nat := 0x1_0000

  /** A face of the collection: a style and a position (u16) in that style's list. */
  datatype CollectionIndex = CollectionIndex(style: Style, idx: nat)

  /** `CollectionIndex::new`: a position is stored as u16, so it wraps at 65536. */
  function NewIndex(style: Style, idx: nat): (c: CollectionIndex)
    ensures c.style == style && c.idx < U16Limit
    ensures idx < U16Limit ==> c.idx == idx
  {
    CollectionIndex(style, idx % U16Limit)
  }

  /** `CollectionIndex::primary`: the style's own face. */
  function Primary(style: Style): (c: CollectionIndex)
    ensures c.style == style && c.idx == 0
  {
    CollectionIndex(style, 0)
  }
}

/**
 * The font collection: four per-style face lists (primary face first, then
 * discovered fallbacks) and the search order that maps a codepoint to a
 * face and glyph id.
 */
module FontCollection {
  import opened Wrappers
  import opened Fallbacks
  import opened FontStyles

  datatype Entry = Entry(face: Face, isFallback: bool)

  /** The first entry (and its glyph id) whose face has a glyph for `cp`. */
  function FirstHit(entries: seq<Entry>, glyphIndex: (Face, Codepoint) -> Option<nat>, cp: Codepoint): (r: Option<(nat, nat)>)
    ensures r.Some? ==> r.value.0 < |entries| && glyphIndex(entries[r.value.0].face, cp) == Some(r.value.1)
    ensures r.Some? ==> forall k :: 0 <= k < r.value.0 ==> glyphIndex(entries[k].face, cp).None?
    ensures r.None? ==> forall k :: 0 <= k < |entries| ==> glyphIndex(entries[k].face, cp).None?
  {
    if |entries| == 0 then None
    else
      match glyphIndex(entries[0].face, cp)
      case Some(g) => Some((0, g))
      case None =>
        match FirstHit(entries[1..], glyphIndex, cp)
        case Some((k, g)) => Some((k + 1, g))
        case None => None
  }

  class Collection {
    var regular: seq<Entry>
    var bold: seq<Entry>
    var italic: seq<Entry>
    var boldItalic: seq<Entry>
    const resolver: FallbackResolver
    /** `Face::glyph_index`. */
    const glyphIndex: (Face, Codepoint) -> Option<nat>

    /** `new`: one primary face per style (the variant, or the regular family when the variant failed to load). */
    constructor(regularFace: Face, boldFace: Face, italicFace: Face, boldItalicFace: Face,
                resolver: FallbackResolver, glyphIndex: (Face, Codepoint) -> Option<nat>)
      ensures regular == [Entry(regularFace, false)] && bold == [Entry(boldFace, false)]
      ensures italic == [Entry(italicFace, false)] && boldItalic == [Entry(boldItalicFace, false)]
      ensures this.resolver == resolver && this.glyphIndex == glyphIndex
    {
      regular := [Entry(regularFace, false)];
      bold := [Entry(boldFace, false)];
      italic := [Entry(italicFace, false)];
      boldItalic := [Entry(boldItalicFace, false)];
      this.resolver := resolver;
      this.glyphIndex := glyphIndex;
    }

    /** `entries_for_style`. */
    function EntriesFor(style: Style): seq<Entry>
      reads this
    {
      match style
      case Regular => regular
      case Bold => bold
      case Italic => italic
      case BoldItalic => boldItalic
    }

    /** `get_face`: the face at that position of the style's list, if there is one. */
    function GetFace(index: CollectionIndex): (f: Option<Face>)
      reads this
      ensures f.Some? <==> index.idx < |EntriesFor(index.style)|
      ensures f.Some? ==> f.value == EntriesFor(index.style)[index.idx].face
    {
      if index.idx < |EntriesFor(index.style)| then Some(EntriesFor(index.style)[index.idx].face) else None
    }

    /** `primary_face`: the first face of the style's list, which `new` fills
        and which only ever grows. */
    function PrimaryFace(style: Style): (f: Face)
      reads this
      requires |EntriesFor(style)| > 0
      ensures GetFace(Primary(style)) == Some(f)
    {
      EntriesFor(style)[0].face
    }

    /** `entries_for_style_mut(style).push(entry)`. */
    method Push(style: Style, entry: Entry)
      modifies this
      ensures EntriesFor(style) == old(EntriesFor(style)) + [entry]
      ensures forall s :: s != style ==> EntriesFor(s) == old(EntriesFor(s))
    {
      match style
      case Regular => regular := regular + [entry];
      case Bold => bold := bold + [entry];
      case Italic => italic := italic + [entry];
      case BoldItalic => boldItalic := boldItalic + [entry];
    }

    /** The first position of `entries` whose face has a glyph for `cp` (the `for` loop of `resolve_glyph`). */
    method SearchEntries(entries: seq<Entry>, cp: Codepoint) returns (r: Option<(nat, nat)>)
      ensures r == FirstHit(entries, glyphIndex, cp)
    {
      var k := 0;
      while k < |entries|
        invariant 0 <= k <= |entries|
        invariant forall j :: 0 <= j < k ==> glyphIndex(entries[j].face, cp).None?
      {
        var g := glyphIndex(entries[k].face, cp);
        if g.Some? {
          FirstHitAt(entries, glyphIndex, cp, k);
          return Some((k, g.value));
        }
        k := k + 1;
      }
      FirstHitNone(entries, glyphIndex, cp);
      return None;
    }

    /** `resolve_glyph`: the style's own faces in order, then (for a non-regular
        style) the regular faces, then a discovered fallback face, which is
        appended to the style's list. */
    method ResolveGlyph(cp: Codepoint, style: Style) returns (r: Option<(CollectionIndex, nat)>)
      modifies this, resolver
      ensures resolver.nerdFont == old(resolver.nerdFont)
      ensures FirstHit(old(EntriesFor(style)), glyphIndex, cp).Some? ==>
        var h := FirstHit(old(EntriesFor(style)), glyphIndex, cp).value;
        r == Some((NewIndex(style, h.0), h.1)) && unchanged(this) && unchanged(resolver)
      ensures FirstHit(old(EntriesFor(style)), glyphIndex, cp).None? && style != Regular
              && FirstHit(old(regular), glyphIndex, cp).Some? ==>
        var h := FirstHit(old(regular), glyphIndex, cp).value;
        r == Some((NewIndex(Regular, h.0), h.1)) && unchanged(this) && unchanged(resolver)
      ensures FirstHit(old(EntriesFor(style)), glyphIndex, cp).None?
              && (style == Regular || FirstHit(old(regular), glyphIndex, cp).None?) ==>
        var found := if cp in old(resolver.cache) then old(resolver.cache[cp]) else old(resolver.Uncached(cp));
        resolver.cache == old(resolver.cache)[cp := found]
        && (if found.Some? && glyphIndex(found.value, cp).Some? then
              r == Some((NewIndex(style, |old(EntriesFor(style))|), glyphIndex(found.value, cp).value))
              && EntriesFor(style) == old(EntriesFor(style)) + [Entry(found.value, true)]
              && forall s :: s != style ==> EntriesFor(s) == old(EntriesFor(s))
            else
              r.None? && forall s :: EntriesFor(s) == old(EntriesFor(s)))
    {
      var own := SearchEntries(EntriesFor(style), cp);
      if own.Some? {
        return Some((NewIndex(style, own.value.0), own.value.1));
      }
      if style != Regular {
        var reg := SearchEntries(regular, cp);
        if reg.Some? {
          return Some((NewIndex(Regular, reg.value.0), reg.value.1));
        }
      }
      var found := resolver.Discover(cp);
      if found.Some? {
        var g := glyphIndex(found.value, cp);
        if g.Some? {
          var idx := NewIndex(style, |EntriesFor(style)|);
          Push(style, Entry(found.value, true));
          return Some((idx, g.value));
        }
      }
      return None;
    }

    /** `add_fallback`: appends the face to the style's list and names its position. */
    method AddFallback(style: Style, face: Face) returns (index: CollectionIndex)
      modifies this
      ensures index == NewIndex(style, |old(EntriesFor(style))|)
      ensures EntriesFor(style) == old(EntriesFor(style)) + [Entry(face, true)]
      ensures forall s :: s != style ==> EntriesFor(s) == old(EntriesFor(s))
      ensures |old(EntriesFor(style))| < U16Limit ==> GetFace(index) == Some(face)
    {
      index := NewIndex(style, |EntriesFor(style)|);
      Push(style, Entry(face, true));
    }

    /** `clear_fallback_cache`. */
    method ClearFallbackCache()
      modifies resolver
      ensures resolver.cache == map[] && resolver.nerdFont == old(resolver.nerdFont)
    {
      resolver.ClearCache();
    }
  }

  /** A position the scan reaches with no earlier hit is the first hit. */
  lemma {:induction false} FirstHitAt(entries: seq<Entry>, glyphIndex: (Face, Codepoint) -> Option<nat>, cp: Codepoint, k: nat)
    requires k < |entries| && glyphIndex(entries[k].face, cp).Some?
    requires forall j :: 0 <= j < k ==> glyphIndex(entries[j].face, cp).None?
    ensures FirstHit(entries, glyphIndex, cp) == Some((k, glyphIndex(entries[k].face, cp).value))
  {
    if k > 0 {
      FirstHitAt(entries[1..], glyphIndex, cp, k - 1);
    }
  }

  /** A list none of whose faces has the glyph has no first hit. */
  lemma {:induction false} FirstHitNone(entries: seq<Entry>, glyphIndex: (Face, Codepoint) -> Option<nat>, cp: Codepoint)
    requires forall j :: 0 <= j < |entries| ==> glyphIndex(entries[j].face, cp).None?
    ensures FirstHit(entries, glyphIndex, cp).None?
  {
    if |entries| > 0 {
      FirstHitNone(entries[1..], glyphIndex, cp);
    }
  }
}
