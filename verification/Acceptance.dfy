/** Which engines accept a pool, read off the raw spec. */
module Acceptance {
  import opened Text
  import opened Engine
  import opened StableSorting
  import opened ConfigGenerator
  import opened Normalisation
  import Unbound
  import CoreDNS
  import PowerDNS

  /** The server name an encrypted upstream ends up with after generation and normalisation. */
  function EffectiveServerName(u: Upstream, host: Host): string { TrimSpace(ResolveServerName(u, host)) }

  predicate Encrypted(u: Upstream) { NormalizeTransport(u.transport) != DNS }

  ghost predicate UnboundAccepts(spec: PoolSpec) {
    && (forall u :: u in spec.upstreams ==> NormalizeTransport(u.transport) != DOH)
    && ((forall u :: u in spec.upstreams ==> Encrypted(u)) || (forall u :: u in spec.upstreams ==> !Encrypted(u)))
  }

  ghost predicate PowerDNSAccepts(spec: PoolSpec) {
    forall u :: u in spec.upstreams ==> !Encrypted(u)
  }

  ghost predicate CoreDNSAccepts(spec: PoolSpec, host: Host) {
    && NormalizeDNSSECMode(spec.dnssecMode) == DNSSEC_OFF
    && forall u, v :: u in spec.upstreams && v in spec.upstreams && Encrypted(u) && Encrypted(v)
                      && EffectiveServerName(u, host) != "" && EffectiveServerName(v, host) != "" ==>
                        EffectiveServerName(u, host) == EffectiveServerName(v, host)
  }

  lemma {:induction false} FinalUpstream(u: Upstream, fill: bool, host: Host)
    ensures var c := NormalizedUpstream(ConfigOf(u, host), fill, host);
            && c.transport == NormalizeTransport(u.transport)
            && (fill && Encrypted(u) ==> c.tlsServerName == EffectiveServerName(u, host))
  {
    var g := ConfigOf(u, host);
    TransportFixed(g.transport);
    if fill && Encrypted(u) {
      TrimTwice(u.address);
      TrimTwice(u.tlsServerName);
      assert TrimSpace("") == "";
      if TrimSpace(u.tlsServerName) == "" {
        DefaultNameTrimmed(u.transport, u.tlsServerName, TrimSpace(u.address), host);
        hide TrimSpace, NormalizeTransport, DefaultTLSServerName;
        assert g.tlsServerName == DefaultTLSServerName(TrimSpace(u.address), host);
      }
    }
  }

  /** What the renderer checks in place of upstream `u` of the spec. */
  function Final(u: Upstream, fill: bool, host: Host): UpstreamConfig {
    NormalizedUpstream(ConfigOf(u, host), fill, host)
  }

  /** The configuration that the renderer checks. */
  function FinalConfig(spec: PoolSpec, profile: Option<ProfileSpec>, host: Host, fill: bool): EngineConfig
    requires Generated(spec, profile, host).Ok?
  {
    Normalized(Generated(spec, profile, host).value, fill, host)
  }

  lemma FinalIndexed(spec: PoolSpec, profile: Option<ProfileSpec>, host: Host, fill: bool)
    requires Generated(spec, profile, host).Ok?
    ensures var final := FinalConfig(spec, profile, host, fill);
            var sorted := StableSort(spec.upstreams, UpstreamRank);
            && |final.upstreams| == |sorted|
            && (forall i :: 0 <= i < |sorted| ==> final.upstreams[i] == Final(sorted[i], fill, host))
            && final.dnssecMode == NormalizeDNSSECMode(spec.dnssecMode)
  {
    DNSSECModeFixed(Generated(spec, profile, host).value.dnssecMode);
    hide ConfigOf, NormalizedUpstream;
  }

  /** Its members are the images of the members of the spec. */
  lemma FinalMembers(spec: PoolSpec, profile: Option<ProfileSpec>, host: Host, fill: bool)
    requires Generated(spec, profile, host).Ok?
    ensures var final := FinalConfig(spec, profile, host, fill);
            && (forall c :: c in final.upstreams ==> exists u :: u in spec.upstreams && c == Final(u, fill, host))
            && (forall u :: u in spec.upstreams ==> Final(u, fill, host) in final.upstreams)
            && final.dnssecMode == NormalizeDNSSECMode(spec.dnssecMode)
  {
    hide Final, FinalConfig, Generated;
    FinalIndexed(spec, profile, host, fill);
    var sorted := StableSort(spec.upstreams, UpstreamRank);
    forall u ensures u in sorted <==> u in spec.upstreams {
      SortedHasMember(spec.upstreams, u);
    }
    assert forall i :: 0 <= i < |sorted| ==> sorted[i] in spec.upstreams;
    forall u | u in spec.upstreams ensures Final(u, fill, host) in FinalConfig(spec, profile, host, fill).upstreams {
      var i :| 0 <= i < |sorted| && sorted[i] == u;
    }
  }

  lemma FinalTransports(spec: PoolSpec, fill: bool, host: Host)
    ensures forall u :: u in spec.upstreams ==>
              Final(u, fill, host).transport == NormalizeTransport(u.transport)
              && (fill && Encrypted(u) ==> Final(u, fill, host).tlsServerName == EffectiveServerName(u, host))
  {
    forall u | u in spec.upstreams
      ensures Final(u, fill, host).transport == NormalizeTransport(u.transport)
              && (fill && Encrypted(u) ==> Final(u, fill, host).tlsServerName == EffectiveServerName(u, host))
    {
      FinalUpstream(u, fill, host);
    }
  }

  lemma UnboundAcceptance(spec: PoolSpec, profile: Option<ProfileSpec>, host: Host)
    requires Generated(spec, profile, host).Ok?
    ensures Unbound.Compatible(FinalConfig(spec, profile, host, true)) <==> UnboundAccepts(spec)
  {
    hide Final, FinalConfig, Generated;
    FinalMembers(spec, profile, host, true);
    FinalTransports(spec, true, host);
  }

  lemma PowerDNSAcceptance(spec: PoolSpec, profile: Option<ProfileSpec>, host: Host)
    requires Generated(spec, profile, host).Ok?
    ensures PowerDNS.Compatible(FinalConfig(spec, profile, host, false)) <==> PowerDNSAccepts(spec)
  {
    hide Final, FinalConfig, Generated;
    FinalMembers(spec, profile, host, false);
    FinalTransports(spec, false, host);
  }

  lemma CoreDNSNamed(spec: PoolSpec, profile: Option<ProfileSpec>, host: Host)
    requires Generated(spec, profile, host).Ok?
    ensures forall c :: c in FinalConfig(spec, profile, host, true).upstreams && CoreDNS.Named(c) ==>
              exists u :: u in spec.upstreams && Encrypted(u) && EffectiveServerName(u, host) == c.tlsServerName
    ensures forall u :: u in spec.upstreams && Encrypted(u) && EffectiveServerName(u, host) != "" ==>
              exists c :: c in FinalConfig(spec, profile, host, true).upstreams && CoreDNS.Named(c) &&
                          c.tlsServerName == EffectiveServerName(u, host)
    ensures forall c :: c in FinalConfig(spec, profile, host, true).upstreams ==> CoreDNS.KnownTransport(c.transport)
  {
    hide Final, FinalConfig, Generated, EffectiveServerName, NormalizeTransport;
    FinalMembers(spec, profile, host, true);
    FinalTransports(spec, true, host);
  }

  lemma CoreDNSAcceptance(spec: PoolSpec, profile: Option<ProfileSpec>, host: Host)
    requires Generated(spec, profile, host).Ok?
    ensures CoreDNS.Compatible(FinalConfig(spec, profile, host, true)) <==> CoreDNSAccepts(spec, host)
  {
    hide Final, FinalConfig, Generated, EffectiveServerName, NormalizeTransport;
    FinalMembers(spec, profile, host, true);
    CoreDNSNamed(spec, profile, host);
  }

  /** Reordering the upstreams of a spec changes neither whether it generates nor which engines accept it. */
  lemma AcceptanceIgnoresOrder(a: PoolSpec, b: PoolSpec, profile: Option<ProfileSpec>, host: Host)
    requires multiset(a.upstreams) == multiset(b.upstreams) && a == b.(upstreams := a.upstreams)
    requires Generated(a, profile, host).Ok?
    ensures Generated(b, profile, host).Ok?
    ensures var fa, fb := FinalConfig(a, profile, host, true), FinalConfig(b, profile, host, true);
            && (Unbound.Compatible(fa) <==> Unbound.Compatible(fb))
            && (CoreDNS.Compatible(fa) <==> CoreDNS.Compatible(fb))
    ensures PowerDNS.Compatible(FinalConfig(a, profile, host, false)) <==>
            PowerDNS.Compatible(FinalConfig(b, profile, host, false))
  {
    forall u ensures u in a.upstreams <==> u in b.upstreams {
      assert u in multiset(a.upstreams) <==> u in multiset(b.upstreams);
    }
    assert b.upstreams != [] by { assert |multiset(a.upstreams)| == |multiset(b.upstreams)|; }
    GeneratesIff(a, profile, host);
    GeneratesIff(b, profile, host);
    UnboundAcceptance(a, profile, host);
    UnboundAcceptance(b, profile, host);
    CoreDNSAcceptance(a, profile, host);
    CoreDNSAcceptance(b, profile, host);
    PowerDNSAcceptance(a, profile, host);
    PowerDNSAcceptance(b, profile, host);
  }
}
