/**
 * OpenType feature tags and the feature list the shaper starts with: a tag
 * is four bytes packed big-endian into 32 bits, and a feature string names
 * its tag with its first four bytes.
 */
module FeatureTags {
  import opened Wrappers

  /** The four bytes of a tag, most significant first. */
  function TagBytes(t: bv32): (bytes: seq<bv8>)
    ensures |bytes| == 4
  {
    [(t >> 24) as bv8, ((t >> 16) & 0xFF) as bv8, ((t >> 8) & 0xFF) as bv8, (t & 0xFF) as bv8]
  }

  /** `make_tag`: four bytes packed big-endian into a 32-bit tag. */
  function MakeTag(a: bv8, b: bv8, c: bv8, d: bv8): (t: bv32)
    ensures TagBytes(t) == [a, b, c, d]
  {
    ((a as bv32) << 24) | ((b as bv32) << 16) | ((c as bv32) << 8) | (d as bv32)
  }

  /** Every tag is the packing of its own bytes, so packing is one-to-one. */
  lemma MakeTagOfBytes(t: bv32)
    ensures MakeTag(TagBytes(t)[0], TagBytes(t)[1], TagBytes(t)[2], TagBytes(t)[3]) == t
  {
  }

  /** The bytes of an ASCII string. */
  function AsciiBytes(s: string): (bytes: seq<bv8>)
    requires forall i :: 0 <= i < |s| ==> s[i] < 128 as char
    ensures |bytes| == |s|
  {
    seq(|s|, i requires 0 <= i < |s| => s[i] as bv8)
  }

  const FeatureGlobalStart: bv32 := 0
  const FeatureGlobalEnd: bv32 := 0xFFFF_FFFF

  /** An OpenType feature setting over a character range. */
  datatype Feature = Feature(tag: bv32, value: nat, start: bv32, end: bv32)

  /** `parse_feature`: the first four bytes name the feature, switched on
      over the whole text; a string of fewer than four bytes is no feature. */
  function ParseFeature(s: seq<bv8>): (r: Option<Feature>)
    ensures r.None? <==> |s| < 4
    ensures r.Some? ==> TagBytes(r.value.tag) == s[..4]
    ensures r.Some? ==> r.value.value == 1 && r.value.start == FeatureGlobalStart && r.value.end == FeatureGlobalEnd
  {
    if |s| < 4 then None
    else Some(Feature(MakeTag(s[0], s[1], s[2], s[3]), 1, FeatureGlobalStart, FeatureGlobalEnd))
  }

  const CaltTag: bv32 := 0x6361_6C74
  const LigaTag: bv32 := 0x6C69_6761

  /** The first default tag spells `calt`. */
  lemma CaltTagName()
    ensures TagBytes(CaltTag) == AsciiBytes("calt")
  {
    assert TagBytes(CaltTag) == [0x63, 0x61, 0x6C, 0x74];
    assert AsciiBytes("calt") == [0x63, 0x61, 0x6C, 0x74];
  }

  /** The second default tag spells `liga`. */
  lemma LigaTagName()
    ensures TagBytes(LigaTag) == AsciiBytes("liga")
  {
    assert TagBytes(LigaTag) == [0x6C, 0x69, 0x67, 0x61];
    assert AsciiBytes("liga") == [0x6C, 0x69, 0x67, 0x61];
  }

  /** `default_features`: contextual alternates, then standard ligatures. */
  function DefaultFeatures(): (r: seq<Feature>)
    ensures |r| == 2
    ensures r[0].tag == CaltTag && r[1].tag == LigaTag
    ensures forall f :: f in r ==> f.value == 1 && f.start == FeatureGlobalStart && f.end == FeatureGlobalEnd
  {
    [Feature(MakeTag(0x63, 0x61, 0x6C, 0x74), 1, FeatureGlobalStart, FeatureGlobalEnd),
     Feature(MakeTag(0x6C, 0x69, 0x67, 0x61), 1, FeatureGlobalStart, FeatureGlobalEnd)]
  }

  /** The features parsed from `strings`, in order, skipping those that do not parse. */
  function ParsedFeatures(strings: seq<seq<bv8>>): (r: seq<Feature>)
    ensures |r| <= |strings|
  {
    if |strings| == 0 then []
    else
      ParsedFeatures(strings[..|strings| - 1])
      + match ParseFeature(strings[|strings| - 1]) { case Some(f) => [f] case None => [] }
  }

  /** `with_features`: the defaults, then every feature string that parses. */
  method WithFeatures(strings: seq<seq<bv8>>) returns (features: seq<Feature>)
    ensures features == DefaultFeatures() + ParsedFeatures(strings)
  {
    features := DefaultFeatures();
    for i := 0 to |strings|
      invariant features == DefaultFeatures() + ParsedFeatures(strings[..i])
    {
      assert strings[..i + 1][..i] == strings[..i];
      var parsed := ParseFeature(strings[i]);
      if parsed.Some? {
        features := features + [parsed.value];
      }
    }
    assert strings[..|strings|] == strings;
  }

  /** Strings of four bytes or more each give one feature, in order and with
      their own first four bytes as tag; shorter strings give none. */
  lemma {:induction false} ParsedFeaturesExact(strings: seq<seq<bv8>>)
    ensures (forall i :: 0 <= i < |strings| ==> |strings[i]| >= 4) ==>
      |ParsedFeatures(strings)| == |strings|
      && forall i :: 0 <= i < |strings| ==> TagBytes(ParsedFeatures(strings)[i].tag) == strings[i][..4]
    ensures (forall i :: 0 <= i < |strings| ==> |strings[i]| < 4) ==> ParsedFeatures(strings) == []
  {
    if |strings| > 0 {
      var front := strings[..|strings| - 1];
      ParsedFeaturesExact(front);
      if forall i :: 0 <= i < |strings| ==> |strings[i]| >= 4 {
        assert forall i :: 0 <= i < |front| ==> |front[i]| >= 4 by {
          forall i | 0 <= i < |front| ensures |front[i]| >= 4 {
            assert front[i] == strings[i];
          }
        }
      }
      if forall i :: 0 <= i < |strings| ==> |strings[i]| < 4 {
        assert forall i :: 0 <= i < |front| ==> |front[i]| < 4 by {
          forall i | 0 <= i < |front| ensures |front[i]| < 4 {
            assert front[i] == strings[i];
          }
        }
      }
    }
  }
}
