/**
 * The cache of shaped runs: shaped glyphs stored under a hash of a run's
 * text and style, so identical runs anywhere on screen are shaped once.
 * When full it evicts the oldest insertions first, and it counts its hits
 * and misses.
 */
module ShapingCaches {
  import opened Wrappers
  import opened Shaper
  import GlyphCaches

  /** `MAX_CACHE_ENTRIES`. */
  const MaxCacheEntries: nat := 2048

  /** A run's content hash; computing it is the hasher's business. */
  datatype ShapingCacheKey = ShapingCacheKey(hash: bv64)

  /** No key appears twice in `s`. */
  predicate Distinct<K(==)>(s: seq<K>)
  {
    forall i, j :: 0 <= i < j < |s| ==> s[i] != s[j]
  }

  /** `order` lists each key of `entries` exactly once. */
  ghost predicate Indexed(entries: map<ShapingCacheKey, seq<ShapedGlyph>>, order: seq<ShapingCacheKey>)
  {
    && Distinct(order)
    && (forall k :: k in entries <==> k in order)
    && |entries| == |order|
  }

  /** Every entry of `a` is an entry of `b`. */
  ghost predicate SubMap(a: map<ShapingCacheKey, seq<ShapedGlyph>>, b: map<ShapingCacheKey, seq<ShapedGlyph>>)
  {
    forall k :: k in a ==> k in b && a[k] == b[k]
  }

  /** Storing the same value under the same key in both maps keeps one inside the other. */
  lemma SubMapUpdate(a: map<ShapingCacheKey, seq<ShapedGlyph>>, b: map<ShapingCacheKey, seq<ShapedGlyph>>,
                     key: ShapingCacheKey, v: seq<ShapedGlyph>)
    requires SubMap(a, b)
    ensures SubMap(a[key := v], b[key := v])
  {
  }

  /** Being contained in a map is transitive. */
  lemma SubMapTrans(a: map<ShapingCacheKey, seq<ShapedGlyph>>, b: map<ShapingCacheKey, seq<ShapedGlyph>>,
                    c: map<ShapingCacheKey, seq<ShapedGlyph>>)
    requires SubMap(a, b) && SubMap(b, c)
    ensures SubMap(a, c)
  {
  }

  /** How many of the oldest keys an insertion of a new key into a cache
      holding `n` keys evicts: enough to leave room for one more. */
  function Evicted(n: nat): (drop: nat)
    ensures drop <= n
    ensures n - drop < MaxCacheEntries
    ensures n < MaxCacheEntries ==> drop == 0
  {
    if n >= MaxCacheEntries then n - MaxCacheEntries + 1 else 0
  }

  /** The keys an insertion of a new key keeps: the newest ones, as many as
      leave room for the new key, oldest first. */
  function Survivors<K>(order: seq<K>): (kept: seq<K>)
    ensures |kept| == (if |order| < MaxCacheEntries then |order| else MaxCacheEntries - 1)
    ensures kept == order[|order| - |kept|..]
  {
    order[Evicted(|order|)..]
  }

  /** Removing a present key from a map leaves one key fewer. */
  lemma RemovedSize<K, V>(m: map<K, V>, key: K)
    requires key in m
    ensures |m - {key}| == |m| - 1
  {
    assert (m - {key}).Keys == m.Keys - {key};
  }

  /** Dropping the first key of a duplicate-free order leaves exactly the
      other keys, still without duplicates. */
  lemma DropFirst<K>(order: seq<K>)
    requires |order| > 0 && Distinct(order)
    ensures Distinct(order[1..])
    ensures forall k :: k in order[1..] <==> k in order && k != order[0]
  {
    forall k | k in order && k != order[0]
      ensures k in order[1..]
    {
      var i :| 0 <= i < |order| && order[i] == k;
      assert order[1..][i - 1] == k;
    }
  }

  class ShapingCache {
    var entries: map<ShapingCacheKey, seq<ShapedGlyph>>
    var insertionOrder: seq<ShapingCacheKey>
    var hits: nat
    var misses: nat

    /** The order lists each stored key once, and the cache never holds
        more than `MaxCacheEntries` runs. */
    ghost predicate Valid()
      reads this
    {
      && Indexed(entries, insertionOrder)
      && |entries| <= MaxCacheEntries
    }

    /** `new`: empty, with both counters at zero. */
    constructor()
      ensures Valid()
      ensures entries == map[] && insertionOrder == []
      ensures hits == 0 && misses == 0
    {
      entries := map[];
      insertionOrder := [];
      hits := 0;
      misses := 0;
    }

    /** `get`: the stored run, counting a hit; or nothing, counting a miss. */
    method Get(key: ShapingCacheKey) returns (r: Option<seq<ShapedGlyph>>)
      modifies this
      ensures r.Some? <==> key in entries
      ensures r.Some? ==> r.value == entries[key]
      ensures entries == old(entries) && insertionOrder == old(insertionOrder)
      ensures hits == old(hits) + (if r.Some? then 1 else 0)
      ensures misses == old(misses) + (if r.Some? then 0 else 1)
    {
      if key in entries {
        hits := hits + 1;
        r := Some(entries[key]);
      } else {
        misses := misses + 1;
        r := None;
      }
    }

    /** `insert`: a stored key gets the new glyphs and keeps its place; a
        new key first evicts the oldest keys until there is room, then
        becomes the newest. */
    method Insert(key: ShapingCacheKey, glyphs: seq<ShapedGlyph>)
      requires Valid()
      modifies this
      ensures Valid()
      ensures key in entries && entries[key] == glyphs
      ensures old(key in entries) ==> entries == old(entries)[key := glyphs] && insertionOrder == old(insertionOrder)
      ensures !old(key in entries) ==> insertionOrder == Survivors(old(insertionOrder)) + [key]
      ensures SubMap(entries, old(entries)[key := glyphs])
      ensures hits == old(hits) && misses == old(misses)
    {
      if key in entries {
        GlyphCaches.InsertedSize(entries, key, glyphs);
        entries := entries[key := glyphs];
        return;
      }
      ghost var before := entries;
      MakeRoom(key);
      ghost var kept := entries;
      AppendNewest(key, glyphs);
      SubMapUpdate(kept, before, key, glyphs);
    }

    /** `insert`'s eviction loop: drops the oldest key while the cache is
        full and the order still names one. */
    method MakeRoom(ghost key: ShapingCacheKey)
      requires Valid() && key !in entries
      modifies this
      ensures insertionOrder == Survivors(old(insertionOrder))
      ensures Indexed(entries, insertionOrder) && |entries| < MaxCacheEntries
      ensures key !in entries
      ensures SubMap(entries, old(entries))
      ensures hits == old(hits) && misses == old(misses)
    {
      ghost var order0, entries0 := insertionOrder, entries;
      ghost var dropped := 0;
      while |entries| >= MaxCacheEntries && |insertionOrder| > 0
        invariant 0 <= dropped <= Evicted(|order0|)
        invariant insertionOrder == order0[dropped..]
        invariant Indexed(entries, insertionOrder) && key !in entries
        invariant SubMap(entries, entries0)
        invariant hits == old(hits) && misses == old(misses)
        decreases |insertionOrder|
      {
        ghost var prev := entries;
        EvictOldest();
        SubMapTrans(entries, prev, entries0);
        assert order0[dropped..][1..] == order0[dropped + 1..];
        dropped := dropped + 1;
      }
      assert dropped == Evicted(|order0|);
    }

    /** `insert`'s last step: the new key is stored and becomes the newest. */
    method AppendNewest(key: ShapingCacheKey, glyphs: seq<ShapedGlyph>)
      requires Indexed(entries, insertionOrder) && |entries| < MaxCacheEntries
      requires key !in entries
      modifies this
      ensures Valid()
      ensures entries == old(entries)[key := glyphs]
      ensures insertionOrder == old(insertionOrder) + [key]
      ensures hits == old(hits) && misses == old(misses)
    {
      GlyphCaches.InsertedSize(entries, key, glyphs);
      entries := entries[key := glyphs];
      insertionOrder := insertionOrder + [key];
    }

    /** One eviction: the oldest key leaves both the order and the map. */
    method EvictOldest()
      requires |insertionOrder| > 0 && Indexed(entries, insertionOrder)
      modifies this
      ensures insertionOrder == old(insertionOrder)[1..]
      ensures entries == old(entries) - {old(insertionOrder)[0]}
      ensures Indexed(entries, insertionOrder)
      ensures SubMap(entries, old(entries))
      ensures hits == old(hits) && misses == old(misses)
    {
      var oldest := insertionOrder[0];
      DropFirst(insertionOrder);
      RemovedSize(entries, oldest);
      insertionOrder := insertionOrder[1..];
      entries := entries - {oldest};
    }

    /** `clear`: forgets every run but keeps the counters, which are cumulative. */
    method Clear()
      modifies this
      ensures Valid()
      ensures entries == map[] && insertionOrder == []
      ensures hits == old(hits) && misses == old(misses)
    {
      entries := map[];
      insertionOrder := [];
    }
  }
}
