/** validateDNSCacheProfile, which has its own copy of two of the generator's defaults, and what the
    generator makes of the profiles it accepts. */
module CacheProfiles {
  import opened Text
  import opened Engine
  import opened ConfigGenerator

  const DEFAULT_POSITIVE_TTL_MIN := 60
  const DEFAULT_POSITIVE_TTL_MAX := 300

  datatype ProfileError =
    | MaxEntriesNegative
    | MinSecondsNegative
    | MaxSecondsNegative
    | NegativeSecondsNegative
    | ThresholdNegative
    | TtlRangeEmpty(minTtl: int, maxTtl: int)

  predicate NothingNegative(p: ProfileSpec) {
    p.maxEntries >= 0 && p.minSeconds >= 0 && p.maxSeconds >= 0 && p.negativeSeconds >= 0 && p.prefetchThreshold >= 0
  }

  /** Accepts a profile exactly if nothing in it is negative and the generated TTL range is not empty. */
  method ValidateDNSCacheProfile(p: ProfileSpec) returns (e: Option<ProfileError>)
    ensures var cache := GeneratedCache(Some(p));
            && (e.None? <==> NothingNegative(p) && cache.positiveTtlMin <= cache.positiveTtlMax)
            && (e.Some? && e.value.TtlRangeEmpty? <==>
               NothingNegative(p) && cache.positiveTtlMin > cache.positiveTtlMax)
            && (e == Some(MaxEntriesNegative) <==> p.maxEntries < 0)
            && (e == Some(MinSecondsNegative) <==> p.maxEntries >= 0 > p.minSeconds)
            && (e == Some(MaxSecondsNegative) <==> p.maxEntries >= 0 && p.minSeconds >= 0 > p.maxSeconds)
            && (e == Some(NegativeSecondsNegative) <==>
                  p.maxEntries >= 0 && p.minSeconds >= 0 && p.maxSeconds >= 0 > p.negativeSeconds)
            && (e == Some(ThresholdNegative) <==>
                  p.maxEntries >= 0 && p.minSeconds >= 0 && p.maxSeconds >= 0
                      && p.negativeSeconds >= 0 > p.prefetchThreshold)
            && (e.Some? && e.value.TtlRangeEmpty? ==>
               e.value == TtlRangeEmpty(cache.positiveTtlMin, cache.positiveTtlMax))
  {
    if p.maxEntries < 0 {
      return Some(MaxEntriesNegative);
    }
    if p.minSeconds < 0 {
      return Some(MinSecondsNegative);
    }
    if p.maxSeconds < 0 {
      return Some(MaxSecondsNegative);
    }
    if p.negativeSeconds < 0 {
      return Some(NegativeSecondsNegative);
    }
    if p.prefetchThreshold < 0 {
      return Some(ThresholdNegative);
    }
    var minTtl, maxTtl := p.minSeconds, p.maxSeconds;
    if minTtl == 0 {
      minTtl := DEFAULT_POSITIVE_TTL_MIN;
    }
    if maxTtl == 0 {
      maxTtl := DEFAULT_POSITIVE_TTL_MAX;
    }
    if minTtl > maxTtl {
      return Some(TtlRangeEmpty(minTtl, maxTtl));
    }
    e := None;
  }

  /** The profile that asks for what a cache has. */
  function ProfileOf(cache: CacheConfig): ProfileSpec {
    ProfileSpec(cache.maxEntries, cache.positiveTtlMin, cache.positiveTtlMax, cache.negativeTtl, cache.prefetchEnabled,
                cache.prefetchThreshold)
  }

  /** Whatever the profile, every number of the generated cache is positive, and asking for the generated
      cache gives it back. */
  lemma GeneratedCacheFixed(profile: Option<ProfileSpec>)
    ensures var cache := GeneratedCache(profile);
            && cache.maxEntries > 0 && cache.positiveTtlMin > 0 && cache.positiveTtlMax > 0
            && cache.negativeTtl > 0 && cache.prefetchThreshold > 0
            && GeneratedCache(Some(ProfileOf(cache))) == cache
  {
  }

  /** The generator does not consult the validation: for the profiles that it is given, the TTL range comes
      out empty exactly when the two bounds, each with its default, cross. One bound alone can be enough, as a
      minimum of 400; such profiles only the API server's own defaults and validation keep away. */
  lemma GeneratedRangeEmptyIff(p: ProfileSpec)
    ensures var cache := GeneratedCache(Some(p));
            cache.positiveTtlMin > cache.positiveTtlMax <==>
            || (p.minSeconds > 0 && p.maxSeconds > 0 && p.minSeconds > p.maxSeconds)
            || (p.minSeconds > DEFAULT_POSITIVE_TTL_MAX && p.maxSeconds <= 0)
            || (p.minSeconds <= 0 && 0 < p.maxSeconds < DEFAULT_POSITIVE_TTL_MIN)
    ensures GeneratedCache(Some(ProfileSpec(0, 400, 0, 0, true, 0))).positiveTtlMin == 400
    ensures GeneratedCache(Some(ProfileSpec(0, 400, 0, 0, true, 0))).positiveTtlMax == 300
  {
  }
}
