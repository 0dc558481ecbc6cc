/** pkg/engineconfig/powerdns/renderer.go */
module PowerDNS {
  import opened Text
  import opened Engine
  import opened Normalisation

  datatype Incompatibility = TransportUnsupported(index: nat)

  method NormalizeConfig(config: EngineConfig, host: Host) returns (normalized: EngineConfig)
    ensures normalized == Normalized(config, false, host)
  {
    hide TrimSpace, NormalizeTransport, DefaultTLSServerName;
    normalized := config.(workerThreads := NormalizeWorkerThreads(config.workerThreads, host),
                          dnssecMode := NormalizeDNSSECMode(config.dnssecMode));
    var n := |config.upstreams|;
    var upstreams := new UpstreamConfig[n](i requires 0 <= i < n => config.upstreams[i]);
    for i := 0 to n
      invariant forall k :: 0 <= k < i ==> upstreams[k] == NormalizedUpstream(config.upstreams[k], false, host)
      invariant forall k :: i <= k < n ==> upstreams[k] == config.upstreams[k]
    {
      upstreams[i] := upstreams[i].(transport := NormalizeTransport(upstreams[i].transport));
      if upstreams[i].port == 0 {
        upstreams[i] := upstreams[i].(port := DefaultPort(upstreams[i].transport));
      }
      upstreams[i] := upstreams[i].(tlsServerName := TrimSpace(upstreams[i].tlsServerName));
      if upstreams[i].transport == DNS {
        upstreams[i] := upstreams[i].(tlsServerName := "");
      }
      if upstreams[i].weight <= 0 {
        upstreams[i] := upstreams[i].(weight := 1);
      }
      if upstreams[i].preference <= 0 {
        upstreams[i] := upstreams[i].(preference := 100);
      }
    }
    normalized := normalized.(upstreams := upstreams[..]);
  }

  /** Plain DNS only. */
  ghost predicate Compatible(config: EngineConfig) {
    forall c :: c in config.upstreams ==> c.transport == DNS
  }

  method ValidatePowerDNSCompatibility(config: EngineConfig) returns (e: Option<Incompatibility>)
    ensures e.None? <==> Compatible(config)
    ensures e.Some? ==>
              var i := e.value.index;
              && i < |config.upstreams| && config.upstreams[i].transport != DNS
              && forall k :: 0 <= k < i ==> config.upstreams[k].transport == DNS
  {
    var us := config.upstreams;
    for i := 0 to |us|
      invariant forall k :: 0 <= k < i ==> us[k].transport == DNS
    {
      if us[i].transport != DNS {
        return Some(TransportUnsupported(i));
      }
    }
    e := None;
  }
}
