/** The fixed catalog of enhancement profiles. */
module Profiles {
  import opened Wrappers

  /**
   * `PhotoProfile`: a display name and seven settings, each 0 (the stage is
   * skipped) unless given.  Nominal ranges: hdr and whitePoint 0..100, the
   * others -100..100; nothing enforces them.
   */
  datatype Profile = Profile(
    name: string,
    hdr: int := 0,
    brightness: int := 0,
    contrast: int := 0,
    whitePoint: int := 0,
    shadows: int := 0,
    saturation: int := 0,
    warmth: int := 0)

  /** The catalog keys, in the dictionary's insertion order. */
  const ProfileKeys: seq<string> := ["HDR_Boost", "Natural_Enhance", "Vibrant", "Portrait"]

  const HdrBoost := Profile("HDR Boost", hdr := 100, brightness := 10, contrast := 10,
                            whitePoint := 5, shadows := 25, saturation := 25, warmth := 10)
  const NaturalEnhance := Profile("Natural Enhance", hdr := 30, brightness := 5, contrast := 5,
                                  saturation := 15, warmth := 5)
  const Vibrant := Profile("Vibrant", hdr := 50, brightness := 8, contrast := 15,
                           saturation := 40, warmth := 0)
  const Portrait := Profile("Portrait", hdr := 20, brightness := 12, shadows := 30,
                            saturation := 10, warmth := 15)

  /** `PROFILES`. */
  const Catalog: map<string, Profile> := map[
    "HDR_Boost" := HdrBoost,
    "Natural_Enhance" := NaturalEnhance,
    "Vibrant" := Vibrant,
    "Portrait" := Portrait
  ]

  /** `profile_name in PROFILES`. */
  predicate Known(key: string) {
    key in Catalog
  }

  /** `PROFILES[profile_name]`, or nothing when the name is not one of the four keys. */
  function Lookup(key: string): (r: Option<Profile>)
    ensures r.Some? <==> key in ProfileKeys
    ensures r.Some? ==> r.value == Catalog[key]
  {
    if key in Catalog then Some(Catalog[key]) else None
  }

  /** The catalog's keys are exactly the listed keys, each once. */
  lemma KeysMatchCatalog()
    ensures Catalog.Keys == set k | k in ProfileKeys
    ensures |ProfileKeys| == |Catalog| == 4
  {
  }

  /** The four entries of the catalog, with the settings the source defines. */
  lemma CatalogEntries()
    ensures Catalog["HDR_Boost"] == HdrBoost && Catalog["Natural_Enhance"] == NaturalEnhance
    ensures Catalog["Vibrant"] == Vibrant && Catalog["Portrait"] == Portrait
    ensures HdrBoost.hdr == 100 && HdrBoost.brightness == 10 && HdrBoost.contrast == 10 && HdrBoost.whitePoint == 5
    ensures HdrBoost.shadows == 25 && HdrBoost.saturation == 25 && HdrBoost.warmth == 10
    ensures NaturalEnhance.whitePoint == 0 && NaturalEnhance.shadows == 0
    ensures Vibrant.whitePoint == 0 && Vibrant.shadows == 0 && Vibrant.warmth == 0
    ensures Portrait.contrast == 0 && Portrait.whitePoint == 0
  {
  }

  /** A profile built with only a name skips every stage. */
  lemma DefaultsAreZero(name: string)
    ensures var p := Profile(name);
      p.hdr == p.brightness == p.contrast == p.whitePoint == p.shadows == p.saturation == p.warmth == 0
  {
  }
}
