/**
 * Font fallback discovery with memoisation.
 *
 * Faces are opaque tokens; whether a face covers a codepoint and what the
 * system fallback finds are functions supplied at construction (they stand
 * for the platform font APIs). An embedded Nerd Font, when set, is asked
 * before the system fallback, and every answer, including "nothing found",
 * is remembered per codepoint.
 */
module Fallbacks {
  import opened Wrappers

  /** A font face, as an opaque token. */
  datatype Face = Face(id: nat)

  type Codepoint = nat

  class FallbackResolver {
    var cache: map<Codepoint, Option<Face>>
    var nerdFont: Option<Face>
    /** `FontFace::has_codepoint`. */
    const hasCodepoint: (Face, Codepoint) -> bool
    /** `SystemFallback::discover`. */
    const systemFallback: Codepoint -> Option<Face>

    constructor(hasCodepoint: (Face, Codepoint) -> bool, systemFallback: Codepoint -> Option<Face>)
      ensures cache == map[] && nerdFont.None?
      ensures this.hasCodepoint == hasCodepoint && this.systemFallback == systemFallback
    {
      cache := map[];
      nerdFont := None;
      this.hasCodepoint := hasCodepoint;
      this.systemFallback := systemFallback;
    }

    /** `with_nerd_font`: installs the embedded Nerd Font. */
    method WithNerdFont(face: Face)
      modifies this
      ensures nerdFont == Some(face) && cache == old(cache)
    {
      nerdFont := Some(face);
    }

    /** `discover_uncached`: the Nerd Font when it covers the codepoint, else the system's answer. */
    function Uncached(cp: Codepoint): (r: Option<Face>)
      reads this
      ensures nerdFont.Some? && hasCodepoint(nerdFont.value, cp) ==> r == nerdFont
      ensures (nerdFont.None? || !hasCodepoint(nerdFont.value, cp)) ==> r == systemFallback(cp)
    {
      if nerdFont.Some? && hasCodepoint(nerdFont.value, cp) then nerdFont else systemFallback(cp)
    }

    /** `discover`: a remembered answer is returned as is; otherwise the answer
        is computed, remembered and returned. */
    method Discover(cp: Codepoint) returns (r: Option<Face>)
      modifies this
      ensures nerdFont == old(nerdFont)
      ensures cp in old(cache) ==> r == old(cache)[cp] && cache == old(cache)
      ensures cp !in old(cache) ==> r == old(Uncached(cp)) && cache == old(cache)[cp := r]
      ensures cp in cache && cache[cp] == r
    {
      if cp in cache {
        return cache[cp];
      }
      r := Uncached(cp);
      cache := cache[cp := r];
    }

    /** `clear_cache`: forgets every answer; the Nerd Font stays. */
    method ClearCache()
      modifies this
      ensures cache == map[] && nerdFont == old(nerdFont)
    {
      cache := map[];
    }
  }

  /** The answer the resolver gives for `cp` with memo `cache`: the memo wins. */
  function Answer(cache: map<Codepoint, Option<Face>>, uncached: Option<Face>, cp: Codepoint): Option<Face>
  {
    if cp in cache then cache[cp] else uncached
  }

  /** Asking again after an answer was remembered gives the same answer, whatever the fonts now say. */
  lemma MemoStable(cache: map<Codepoint, Option<Face>>, first: Option<Face>, later: Option<Face>, cp: Codepoint, q: Codepoint)
    ensures var c := cache[cp := Answer(cache, first, cp)];
            Answer(c, later, cp) == Answer(cache, first, cp)
    ensures q != cp ==> Answer(cache[cp := Answer(cache, first, cp)], later, q) == Answer(cache, later, q)
  {
  }
}
