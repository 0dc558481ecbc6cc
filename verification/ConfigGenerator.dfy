/** pkg/engineconfig/defaultgen.go: from a pool and an optional cache profile to an EngineConfig. */
module ConfigGenerator {
  import opened Text
  import opened Engine
  import opened StableSorting

  datatype GenerateError = NoUpstreams | EmptyAddress(index: nat)

  datatype Result<+T> = Ok(value: T) | Err(error: GenerateError)

  function UpstreamRank(u: Upstream): Rank {
    Rank(NormalizePreference(u.preference), NormalizeWeight(u.weight))
  }

  function ConfigRank(c: UpstreamConfig): Rank { Rank(c.preference, c.weight) }

  function ResolveServerName(u: Upstream, host: Host): string {
    var name := TrimSpace(u.tlsServerName);
    if NormalizeTransport(u.transport) == DNS then ""
    else if name == "" then DefaultTLSServerName(TrimSpace(u.address), host)
    else name
  }

  function ConfigOf(u: Upstream, host: Host): UpstreamConfig {
    var transport := NormalizeTransport(u.transport);
    UpstreamConfig(TrimSpace(u.address), NormalizePort(u.port, transport), transport,
                   ResolveServerName(u, host), NormalizeWeight(u.weight), NormalizePreference(u.preference))
  }

  function ConfigsOf(us: seq<Upstream>, host: Host): (r: seq<UpstreamConfig>)
    ensures |r| == |us| && forall i :: 0 <= i < |us| ==> r[i] == ConfigOf(us[i], host)
  {
    Map(u => ConfigOf(u, host), us)
  }

  lemma ConfigsOfNext(us: seq<Upstream>, i: nat, host: Host)
    requires i < |us|
    ensures ConfigsOf(us[..i + 1], host) == ConfigsOf(us[..i], host) + [ConfigOf(us[i], host)]
  {
  }

  function GeneratedCache(profile: Option<ProfileSpec>): CacheConfig {
    var base := CacheConfig(100000, 60, 300, 30, true, 10);
    match profile
    case None => base
    case Some(p) =>
      CacheConfig(if p.maxEntries > 0 then p.maxEntries else base.maxEntries,
                  if p.minSeconds > 0 then p.minSeconds else base.positiveTtlMin,
                  if p.maxSeconds > 0 then p.maxSeconds else base.positiveTtlMax,
                  if p.negativeSeconds > 0 then p.negativeSeconds else base.negativeTtl,
                  p.prefetchEnabled,
                  if p.prefetchThreshold > 0 then p.prefetchThreshold else base.prefetchThreshold)
  }

  function GeneratedFilter(f: DomainFilter): DomainFilter {
    if f.allow != [] || f.deny != [] then f.(action := NormalizeDomainFilterAction(f.action))
    else DomainFilter([], [], "")
  }

  predicate Blank(u: Upstream) { TrimSpace(u.address) == "" }

  function FirstBlank(us: seq<Upstream>, from: nat): (r: Option<nat>)
    requires from <= |us|
    ensures r.None? <==> forall i :: from <= i < |us| ==> !Blank(us[i])
    ensures r.Some? ==>
              from <= r.value < |us| && Blank(us[r.value]) && forall i :: from <= i < r.value ==> !Blank(us[i])
    decreases |us| - from
  {
    if from == |us| then None
    else if Blank(us[from]) then Some(from)
    else FirstBlank(us, from + 1)
  }

  /** What Generate returns. */
  function Generated(spec: PoolSpec, profile: Option<ProfileSpec>, host: Host): Result<EngineConfig> {
    if spec.upstreams == [] then Err(NoUpstreams)
    else
      var sorted := StableSort(spec.upstreams, UpstreamRank);
      match FirstBlank(sorted, 0)
      case Some(i) => Err(EmptyAddress(i))
      case None =>
        Ok(EngineConfig(ConfigsOf(sorted, host), GeneratedCache(profile), "127.0.0.1", 5354,
                        NormalizeWorkerThreads(spec.workerThreads, host), NormalizeDNSSECMode(spec.dnssecMode),
                        GeneratedFilter(spec.domainFilter)))
  }

  /** Generate's last part: the cache defaults, overwritten by the profile's positive values. */
  method MergeProfile(profile: Option<ProfileSpec>) returns (cache: CacheConfig)
    ensures cache == GeneratedCache(profile)
  {
    cache := CacheConfig(100000, 60, 300, 30, true, 10);
    if profile.Some? {
      var p := profile.value;
      if p.maxEntries > 0 {
        cache := cache.(maxEntries := p.maxEntries);
      }
      if p.minSeconds > 0 {
        cache := cache.(positiveTtlMin := p.minSeconds);
      }
      if p.maxSeconds > 0 {
        cache := cache.(positiveTtlMax := p.maxSeconds);
      }
      if p.negativeSeconds > 0 {
        cache := cache.(negativeTtl := p.negativeSeconds);
      }
      cache := cache.(prefetchEnabled := p.prefetchEnabled);
      if p.prefetchThreshold > 0 {
        cache := cache.(prefetchThreshold := p.prefetchThreshold);
      }
    }
  }

  /** The body of Generate's conversion loop, for an upstream whose trimmed address is not empty. */
  method ConvertUpstream(upstream: Upstream, address: string, host: Host) returns (config: UpstreamConfig)
    requires address == TrimSpace(upstream.address)
    ensures config == ConfigOf(upstream, host)
  {
    var transport := NormalizeTransport(upstream.transport);
    var port := upstream.port;
    if port == 0 {
      port := DefaultPort(transport);
    }
    var tlsServerName := TrimSpace(upstream.tlsServerName);
    if transport != DNS && tlsServerName == "" {
      tlsServerName := DefaultTLSServerName(address, host);
    }
    if transport == DNS {
      tlsServerName := "";
    }
    config := UpstreamConfig(address, port, transport, tlsServerName,
                             NormalizeWeight(upstream.weight), NormalizePreference(upstream.preference));
  }

  /** Generate's conversion loop. */
  method ConvertUpstreams(sorted: seq<Upstream>, host: Host) returns (r: Result<seq<UpstreamConfig>>)
    ensures r == match FirstBlank(sorted, 0)
                 case Some(i) => Err(EmptyAddress(i))
                 case None => Ok(ConfigsOf(sorted, host))
  {
    var upstreams: seq<UpstreamConfig> := [];
    for i := 0 to |sorted|
      invariant forall k :: 0 <= k < i ==> !Blank(sorted[k])
      invariant upstreams == ConfigsOf(sorted[..i], host)
    {
      var address := TrimSpace(sorted[i].address);
      if address == "" {
        return Err(EmptyAddress(i));
      }
      var config := ConvertUpstream(sorted[i], address, host);
      ConfigsOfNext(sorted, i, host);
      upstreams := upstreams + [config];
    }
    assert sorted[..|sorted|] == sorted;
    r := Ok(upstreams);
  }

  method Generate(spec: PoolSpec, profile: Option<ProfileSpec>, host: Host) returns (r: Result<EngineConfig>)
    ensures r == Generated(spec, profile, host)
  {
    if |spec.upstreams| == 0 {
      return Err(NoUpstreams);
    }
    var workerThreads := NormalizeWorkerThreads(spec.workerThreads, host);
    var dnssecMode := NormalizeDNSSECMode(spec.dnssecMode);
    var converted := ConvertUpstreams(StableSort(spec.upstreams, UpstreamRank), host);
    if converted.Err? {
      return Err(converted.error);
    }
    var filter := DomainFilter([], [], "");
    if |spec.domainFilter.allow| > 0 || |spec.domainFilter.deny| > 0 {
      filter := DomainFilter(spec.domainFilter.allow, spec.domainFilter.deny,
                             NormalizeDomainFilterAction(spec.domainFilter.action));
    }
    var cache := MergeProfile(profile);
    r := Ok(EngineConfig(converted.value, cache, "127.0.0.1", 5354, workerThreads, dnssecMode, filter));
  }

  lemma SortedHasMember(us: seq<Upstream>, u: Upstream)
    ensures u in StableSort(us, UpstreamRank) <==> u in us
  {
    StableSortIsStable(us, UpstreamRank);
    assert u in us <==> u in multiset(us);
  }

  /** Generation fails exactly on an empty list or a blank address. */
  lemma GeneratesIff(spec: PoolSpec, profile: Option<ProfileSpec>, host: Host)
    ensures Generated(spec, profile, host).Ok? <==>
            spec.upstreams != [] && forall u :: u in spec.upstreams ==> !Blank(u)
  {
    var sorted := StableSort(spec.upstreams, UpstreamRank);
    forall u ensures u in sorted <==> u in spec.upstreams {
      SortedHasMember(spec.upstreams, u);
    }
  }

  /** The generated list is the one stable sort of the normalised input, by the values it shows:
      preference ascending, then weight descending, ties in the order of the spec. */
  lemma GeneratedOrder(spec: PoolSpec, profile: Option<ProfileSpec>, host: Host, other: seq<UpstreamConfig>)
    requires Generated(spec, profile, host).Ok?
    ensures
      var input := ConfigsOf(spec.upstreams, host);
      var output := Generated(spec, profile, host).value.upstreams;
      && IsStableSortOf(input, output, ConfigRank)
      && multiset(output) == multiset(input)
      && (forall i, j :: 0 <= i < j < |output| ==>
            || output[i].preference < output[j].preference
            || (output[i].preference == output[j].preference && output[i].weight >= output[j].weight))
      && (IsStableSortOf(input, other, ConfigRank) ==> other == output)
  {
    var input := ConfigsOf(spec.upstreams, host);
    var output := Generated(spec, profile, host).value.upstreams;
    MapStableSort((u: Upstream) => ConfigOf(u, host), spec.upstreams, UpstreamRank, ConfigRank);
    assert input == Map((u: Upstream) => ConfigOf(u, host), spec.upstreams);
    assert output == Map((u: Upstream) => ConfigOf(u, host), StableSort(spec.upstreams, UpstreamRank));
    StableSortIsStable(input, ConfigRank);
    if IsStableSortOf(input, other, ConfigRank) {
      StableSortUnique(input, other, output, ConfigRank);
    }
  }

  // ---------------------------------------------------------------- what a generated configuration says

  /** The fields of one upstream, by the raw ones. */
  lemma ConfigOfMeans(u: Upstream, host: Host)
    ensures var c := ConfigOf(u, host);
            && c.address == TrimSpace(u.address)
            && c.transport == (if Spells(u.transport, "dot") then "dot" else if Spells(u.transport, "doh") then "doh"
               else "dns")
            && c.port == (if u.port != 0 then u.port else if Spells(u.transport, "dot") then 853
                          else if Spells(u.transport, "doh") then 443 else 53)
            && c.weight == (if u.weight > 0 then u.weight else 1)
            && c.preference == (if u.preference > 0 then u.preference else 100)
            && (c.transport == "dns" ==> c.tlsServerName == "")
            && (c.transport != "dns" && !AllSpace(u.tlsServerName) ==> c.tlsServerName == TrimSpace(u.tlsServerName))
            && (c.transport != "dns" && AllSpace(u.tlsServerName) ==>
                  c.tlsServerName == DefaultTLSServerName(u.address, host))
  {
    TransportMeans(u.transport);
    NumbersMean(u.port, "", host);
    NumbersMean(u.weight, "", host);
    NumbersMean(u.preference, "", host);
    TrimSpaceFacts(u.address);
    TrimSpaceFacts(TrimSpace(u.address));
    BlankMeans(u.tlsServerName);
  }

  lemma BlankMeans(s: string)
    ensures TrimSpace(s) == "" <==> AllSpace(s)
  {
    var i, j := TrimSpacePart(s);
    if i == j {
      assert s == s[..i] + s[j..];
    } else {
      assert s[i..j][0] == s[i];
    }
  }

  /** The profile's positive numbers over the defaults, and its switch. */
  lemma GeneratedCacheMeans(p: ProfileSpec)
    ensures GeneratedCache(None) == CacheConfig(100000, 60, 300, 30, true, 10)
    ensures var cache := GeneratedCache(Some(p));
            && (p.maxEntries > 0 ==> cache.maxEntries == p.maxEntries)
            && (p.maxEntries <= 0 ==> cache.maxEntries == 100000)
            && (p.minSeconds > 0 ==> cache.positiveTtlMin == p.minSeconds)
            && (p.minSeconds <= 0 ==> cache.positiveTtlMin == 60)
            && (p.maxSeconds > 0 ==> cache.positiveTtlMax == p.maxSeconds)
            && (p.maxSeconds <= 0 ==> cache.positiveTtlMax == 300)
            && (p.negativeSeconds > 0 ==> cache.negativeTtl == p.negativeSeconds)
            && (p.negativeSeconds <= 0 ==> cache.negativeTtl == 30)
            && (cache.prefetchEnabled <==> p.prefetchEnabled)
            && (p.prefetchThreshold > 0 ==> cache.prefetchThreshold == p.prefetchThreshold)
            && (p.prefetchThreshold <= 0 ==> cache.prefetchThreshold == 10)
  {
  }

  /** Apart from the upstreams and the cache, for which see GeneratedOrder, ConfigOfMeans and
      GeneratedCacheMeans: each list of the filter is the spec's list of this name, and a filter with neither
      list has no action. */
  lemma GeneratedMeans(spec: PoolSpec, profile: Option<ProfileSpec>, host: Host)
    requires Generated(spec, profile, host).Ok?
    ensures var config := Generated(spec, profile, host).value;
            && config.domainFilter.allow == spec.domainFilter.allow
               && config.domainFilter.deny == spec.domainFilter.deny
            && config.domainFilter.action ==
                 (if spec.domainFilter.allow == [] && spec.domainFilter.deny == [] then ""
                  else if Spells(spec.domainFilter.action, "nxdomain") then "nxdomain" else "refused")
            && config.dnssecMode == (if Spells(spec.dnssecMode, "process") then "process"
                                     else if Spells(spec.dnssecMode, "validate") then "validate" else "off")
            && config.workerThreads == (if spec.workerThreads > 256 then 256
                                        else if spec.workerThreads > 0 then spec.workerThreads
                                        else if host.numCPU <= 0 then 2
                                        else if host.numCPU > 256 then 256 else host.numCPU)
            && config.cache == GeneratedCache(profile)
            && config.listenAddr == "127.0.0.1" && config.listenPort == 5354
  {
    DomainFilterActionMeans(spec.domainFilter.action);
    DNSSECModeMeans(spec.dnssecMode);
    NumbersMean(spec.workerThreads, "", host);
  }

  /** Failure names its cause: no upstreams, or the first blank address in sorted order. */
  lemma GenerateErrorMeans(spec: PoolSpec, profile: Option<ProfileSpec>, host: Host)
    requires Generated(spec, profile, host).Err?
    ensures var e := Generated(spec, profile, host).error;
            var sorted := StableSort(spec.upstreams, UpstreamRank);
            && (e == NoUpstreams <==> spec.upstreams == [])
            && (e.EmptyAddress? ==>
                  && e.index < |sorted| && AllSpace(sorted[e.index].address)
                  && forall k :: 0 <= k < e.index ==> !AllSpace(sorted[k].address))
  {
    var sorted := StableSort(spec.upstreams, UpstreamRank);
    forall k | 0 <= k < |sorted| ensures Blank(sorted[k]) <==> AllSpace(sorted[k].address) {
      BlankMeans(sorted[k].address);
    }
  }
}
