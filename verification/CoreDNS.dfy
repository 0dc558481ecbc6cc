/** pkg/engineconfig/coredns/renderer.go */
module CoreDNS {
  import opened Text
  import opened Engine
  import opened Normalisation

  datatype Incompatibility = DNSSECUnsupported | TransportUnsupported(index: nat) | SeveralServerNames

  method NormalizeConfig(config: EngineConfig, host: Host) returns (normalized: EngineConfig)
    ensures normalized == Normalized(config, true, host)
  {
    hide TrimSpace, NormalizeTransport, DefaultTLSServerName;
    normalized := config.(workerThreads := NormalizeWorkerThreads(config.workerThreads, host),
                          dnssecMode := NormalizeDNSSECMode(config.dnssecMode));
    var n := |config.upstreams|;
    var upstreams := new UpstreamConfig[n](i requires 0 <= i < n => config.upstreams[i]);
    for i := 0 to n
      invariant forall k :: 0 <= k < i ==> upstreams[k] == NormalizedUpstream(config.upstreams[k], true, host)
      invariant forall k :: i <= k < n ==> upstreams[k] == config.upstreams[k]
    {
      upstreams[i] := upstreams[i].(transport := NormalizeTransport(upstreams[i].transport));
      if upstreams[i].port == 0 {
        upstreams[i] := upstreams[i].(port := DefaultPort(upstreams[i].transport));
      }
      upstreams[i] := upstreams[i].(tlsServerName := TrimSpace(upstreams[i].tlsServerName));
      if upstreams[i].transport != DNS && upstreams[i].tlsServerName == "" {
        upstreams[i] := upstreams[i].(tlsServerName := DefaultTLSServerName(upstreams[i].address, host));
      }
      if upstreams[i].transport == DNS {
        upstreams[i] := upstreams[i].(tlsServerName := "");
      }
      if upstreams[i].weight <= 0 {
        upstreams[i] := upstreams[i].(weight := 1);
      }
      if upstreams[i].preference <= 0 {
        upstreams[i] := upstreams[i].(preference := 100);
      }
    }
    normalized := normalized.(upstreams := upstreams[..]);
  }

  predicate KnownTransport(transport: string) { transport == DNS || transport == DOT || transport == DOH }

  /** An encrypted upstream with a server name. */
  predicate Named(c: UpstreamConfig) { c.transport != DNS && c.tlsServerName != "" }

  /** DNSSEC off, known transports, and no two different server names among encrypted upstreams. */
  ghost predicate Compatible(config: EngineConfig) {
    && config.dnssecMode == DNSSEC_OFF
    && (forall c :: c in config.upstreams ==> KnownTransport(c.transport))
    && (forall c, d :: c in config.upstreams && d in config.upstreams && Named(c) && Named(d) ==>
                         c.tlsServerName == d.tlsServerName)
  }

  method ValidateCoreDNSCompatibility(config: EngineConfig) returns (e: Option<Incompatibility>)
    ensures e.None? <==> Compatible(config)
    ensures e == Some(DNSSECUnsupported) <==> config.dnssecMode != DNSSEC_OFF
    ensures e == Some(SeveralServerNames) <==>
            && !Compatible(config) && config.dnssecMode == DNSSEC_OFF
            && forall c :: c in config.upstreams ==> KnownTransport(c.transport)
    ensures e.Some? && e.value.TransportUnsupported? ==>
              var i := e.value.index;
              && i < |config.upstreams| && !KnownTransport(config.upstreams[i].transport)
              && forall k :: 0 <= k < i ==> KnownTransport(config.upstreams[k].transport)
  {
    if config.dnssecMode != DNSSEC_OFF {
      return Some(DNSSECUnsupported);
    }
    var us := config.upstreams;
    var seen: set<string> := {};
    for i := 0 to |us|
      invariant forall k :: 0 <= k < i ==> KnownTransport(us[k].transport)
      invariant forall name :: name in seen <==> exists k :: 0 <= k < i && Named(us[k]) && us[k].tlsServerName == name
    {
      if !KnownTransport(us[i].transport) {
        return Some(TransportUnsupported(i));
      }
      if us[i].transport == DNS || us[i].tlsServerName == "" {
        continue;
      }
      seen := seen + {us[i].tlsServerName};
    }
    assert forall c :: c in us && Named(c) ==> c.tlsServerName in seen;
    assert forall name :: name in seen ==> exists c :: c in us && Named(c) && c.tlsServerName == name;
    AtMostOne(seen);
    if |seen| > 1 {
      return Some(SeveralServerNames);
    }
    e := None;
  }

  lemma AtMostOne(s: set<string>)
    ensures |s| <= 1 <==> forall a, b :: a in s && b in s ==> a == b
  {
    if s != {} {
      var a :| a in s;
      if |s| <= 1 {
        assert |s - {a}| == 0;
      }
      if forall x, y :: x in s && y in s ==> x == y {
        assert s == {a};
      }
    }
  }
}
