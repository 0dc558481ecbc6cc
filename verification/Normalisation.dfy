/** What the renderers' own normalisation computes, and how it relates to the generator's. */
module Normalisation {
  import opened Text
  import opened Engine
  import opened StableSorting
  import opened ConfigGenerator

  /** `fill`: whether the renderer fills in a missing server name (unbound and coredns do, powerdns does not). */
  function NormalizedUpstream(c: UpstreamConfig, fill: bool, host: Host): UpstreamConfig {
    var transport := NormalizeTransport(c.transport);
    var name := TrimSpace(c.tlsServerName);
    var serverName :=
      if transport == DNS then ""
      else if fill && name == "" then DefaultTLSServerName(c.address, host)
      else name;
    UpstreamConfig(c.address, NormalizePort(c.port, transport), transport, serverName,
                   NormalizeWeight(c.weight), NormalizePreference(c.preference))
  }

  function NormalizedUpstreams(cs: seq<UpstreamConfig>, fill: bool, host: Host): (r: seq<UpstreamConfig>)
    ensures |r| == |cs| && forall i :: 0 <= i < |cs| ==> r[i] == NormalizedUpstream(cs[i], fill, host)
  {
    seq(|cs|, i requires 0 <= i < |cs| => NormalizedUpstream(cs[i], fill, host))
  }

  function Normalized(config: EngineConfig, fill: bool, host: Host): EngineConfig {
    config.(upstreams := NormalizedUpstreams(config.upstreams, fill, host),
            workerThreads := NormalizeWorkerThreads(config.workerThreads, host),
            dnssecMode := NormalizeDNSSECMode(config.dnssecMode))
  }

  /** The fields of a normalised configuration, by the raw ones. */
  lemma NormalizedMeans(config: EngineConfig, fill: bool, host: Host, i: nat)
    requires i < |config.upstreams|
    ensures var n := Normalized(config, fill, host);
            && |n.upstreams| == |config.upstreams|
            && n == config.(upstreams := n.upstreams, workerThreads := n.workerThreads, dnssecMode := n.dnssecMode)
            && n.dnssecMode == (if Spells(config.dnssecMode, "process") then "process"
                                else if Spells(config.dnssecMode, "validate") then "validate" else "off")
            && n.workerThreads == (if config.workerThreads > 256 then 256
                                   else if config.workerThreads > 0 then config.workerThreads
                                   else if host.numCPU <= 0 then 2
                                   else if host.numCPU > 256 then 256 else host.numCPU)
            && var c, d := config.upstreams[i], n.upstreams[i];
            && d.address == c.address
            && d.transport == (if Spells(c.transport, "dot") then "dot" else if Spells(c.transport, "doh") then "doh"
               else "dns")
            && d.port == (if c.port != 0 then c.port else if d.transport == "dot" then 853
                          else if d.transport == "doh" then 443 else 53)
            && d.weight == (if c.weight > 0 then c.weight else 1)
            && d.preference == (if c.preference > 0 then c.preference else 100)
            && d.tlsServerName == (if d.transport == "dns" then ""
                                   else if !AllSpace(c.tlsServerName) then TrimSpace(c.tlsServerName)
                                   else if fill then DefaultTLSServerName(c.address, host) else "")
  {
    var c := config.upstreams[i];
    TransportMeans(c.transport);
    DNSSECModeMeans(config.dnssecMode);
    NumbersMean(config.workerThreads, "", host);
    NumbersMean(c.port, "", host);
    NumbersMean(c.weight, "", host);
    NumbersMean(c.preference, "", host);
    BlankMeans(c.tlsServerName);
  }

  /** An encrypted upstream without a server name whose address ends in white space and a dot, such
      as "foo .": the default server name keeps the white space. */
  predicate SpacedDot(transport: string, tlsServerName: string, address: string, host: Host) {
    var a := TrimSpace(address);
    && NormalizeTransport(transport) != DNS && TrimSpace(tlsServerName) == ""
    && |a| >= 2 && a[|a| - 1] == '.' && IsSpace(a[|a| - 2]) && !host.isIP(a[..|a| - 1])
  }

  predicate SpecSpacedDot(u: Upstream, host: Host) {
    SpacedDot(u.transport, u.tlsServerName, u.address, host)
  }

  predicate ConfigSpacedDot(c: UpstreamConfig, host: Host) {
    SpacedDot(c.transport, c.tlsServerName, c.address, host)
  }

  lemma SpaceFreeNotSpacedDot(transport: string, tlsServerName: string, address: string, host: Host)
    requires SpaceFree(address)
    ensures !SpacedDot(transport, tlsServerName, address, host)
  {
    TrimSpaceFacts(address);
    var a := TrimSpace(address);
    assert |a| >= 2 ==> a[|a| - 2] in address;
  }

  /** The default server name is always free of leading white space, and ends in white space only in
      the one case SpacedDot describes. */
  lemma DefaultNameTrimmed(transport: string, tlsServerName: string, address: string, host: Host)
    requires NormalizeTransport(transport) != DNS && TrimSpace(tlsServerName) == ""
    ensures var d := DefaultTLSServerName(address, host);
            && (Trimmed(d) <==> !SpacedDot(transport, tlsServerName, address, host))
            && (TrimSpace(d) == "" ==> d == "")
  {
    TrimSpaceFacts(address);
    var d := DefaultTLSServerName(address, host);
    TrimLeftSuffix(d);
    TrimRightPrefix(d);
  }

  lemma TrimTwice(s: string)
    ensures TrimSpace(TrimSpace(s)) == TrimSpace(s)
  {
    TrimSpaceFacts(s);
    TrimSpaceFacts(TrimSpace(s));
  }

  lemma {:induction false} UpstreamFixpoint(u: Upstream, fill: bool, host: Host)
    ensures NormalizedUpstream(ConfigOf(u, host), fill, host) == ConfigOf(u, host) <==> !SpecSpacedDot(u, host)
  {
    var c := ConfigOf(u, host);
    TransportFixed(c.transport);
    TrimTwice(u.address);
    TrimTwice(u.tlsServerName);
    TrimSpaceFacts(c.tlsServerName);
    assert Trimmed("") && TrimSpace("") == "";
    if NormalizeTransport(u.transport) != DNS && TrimSpace(u.tlsServerName) == "" {
      DefaultNameTrimmed(u.transport, u.tlsServerName, u.address, host);
      hide TrimSpace, NormalizeTransport;
      assert c.tlsServerName == DefaultTLSServerName(u.address, host);
    }
  }

  /** A renderer leaves a generated configuration unchanged exactly when no upstream of the spec is a
      spaced dot; this holds for all three renderers. */
  lemma GeneratedFixpointIff(spec: PoolSpec, profile: Option<ProfileSpec>, host: Host, fill: bool)
    requires Generated(spec, profile, host).Ok?
    ensures var config := Generated(spec, profile, host).value;
            Normalized(config, fill, host) == config <==>
            forall u :: u in spec.upstreams ==> !SpecSpacedDot(u, host)
  {
    hide SpecSpacedDot, ConfigOf, NormalizedUpstream;
    var config := Generated(spec, profile, host).value;
    var sorted := StableSort(spec.upstreams, UpstreamRank);
    DNSSECModeFixed(config.dnssecMode);
    forall u ensures u in sorted <==> u in spec.upstreams {
      SortedHasMember(spec.upstreams, u);
    }
    forall i | 0 <= i < |sorted|
      ensures Normalized(config, fill, host).upstreams[i] == config.upstreams[i] <==> !SpecSpacedDot(sorted[i], host)
    {
      UpstreamFixpoint(sorted[i], fill, host);
    }
    assert Normalized(config, fill, host).upstreams == config.upstreams <==>
           forall i :: 0 <= i < |sorted| ==> Normalized(config, fill, host).upstreams[i] == config.upstreams[i];
  }

  /** The documented case: addresses without white space. */
  lemma GeneratedFixpoint(spec: PoolSpec, profile: Option<ProfileSpec>, host: Host, fill: bool)
    requires Generated(spec, profile, host).Ok?
    requires forall u :: u in spec.upstreams ==> SpaceFree(u.address)
    ensures Normalized(Generated(spec, profile, host).value, fill, host) == Generated(spec, profile, host).value
  {
    forall u | u in spec.upstreams ensures !SpecSpacedDot(u, host) {
      SpaceFreeNotSpacedDot(u.transport, u.tlsServerName, u.address, host);
    }
    GeneratedFixpointIff(spec, profile, host, fill);
  }

  lemma {:induction false} UpstreamIdempotent(c: UpstreamConfig, fill: bool, host: Host)
    ensures var n := NormalizedUpstream(c, fill, host);
            NormalizedUpstream(n, fill, host) == n <==> !(fill && ConfigSpacedDot(c, host))
  {
    var n := NormalizedUpstream(c, fill, host);
    TransportFixed(n.transport);
    TrimTwice(c.tlsServerName);
    TrimSpaceFacts(n.tlsServerName);
    assert Trimmed("") && TrimSpace("") == "";
    if fill && NormalizeTransport(c.transport) != DNS && TrimSpace(c.tlsServerName) == "" {
      DefaultNameTrimmed(c.transport, c.tlsServerName, c.address, host);
    }
  }

  /** A renderer's normalisation is idempotent on exactly the configurations without a spaced dot;
      powerdns, which fills in nothing, is idempotent on all. */
  lemma NormalizedIdempotentIff(config: EngineConfig, fill: bool, host: Host)
    ensures var n := Normalized(config, fill, host);
            Normalized(n, fill, host) == n <==>
            !(fill && exists c :: c in config.upstreams && ConfigSpacedDot(c, host))
  {
    hide ConfigSpacedDot, NormalizedUpstream;
    var n := Normalized(config, fill, host);
    DNSSECModeFixed(n.dnssecMode);
    forall i | 0 <= i < |config.upstreams|
      ensures Normalized(n, fill, host).upstreams[i] == n.upstreams[i] <==>
              !(fill && ConfigSpacedDot(config.upstreams[i], host))
    {
      UpstreamIdempotent(config.upstreams[i], fill, host);
    }
    assert Normalized(n, fill, host).upstreams == n.upstreams <==>
           forall i :: 0 <= i < |config.upstreams| ==> Normalized(n, fill, host).upstreams[i] == n.upstreams[i];
  }

  /** The failing input: "foo ." over DoT defaults to the server name "foo " and is then rewritten. */
  lemma SpacedDotWitness()
    ensures var host := Host(_ => false, _ => true, 4);
            var spec := PoolSpec([Upstream("foo .", 0, "dot", "", 0, 0)], 0, "", DomainFilter([], [], ""));
            && Generated(spec, None, host).Ok?
            && Normalized(Generated(spec, None, host).value, true, host) != Generated(spec, None, host).value
  {
    var host := Host(_ => false, _ => true, 4);
    var u := Upstream("foo .", 0, "dot", "", 0, 0);
    var spec := PoolSpec([u], 0, "", DomainFilter([], [], ""));
    TrimSpaceFacts("foo .");
    TrimSpaceFacts("");
    TransportFixed("dot");
    assert u in spec.upstreams;
    assert SpecSpacedDot(u, host);
    GeneratesIff(spec, None, host);
    GeneratedFixpointIff(spec, None, host, true);
  }
}
