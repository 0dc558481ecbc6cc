/** pkg/engineconfig/unbound/renderer.go */
module Unbound {
  import opened Text
  import opened Engine
  import opened Normalisation

  datatype Incompatibility = DoHUnsupported(index: nat) | MixedTransports

  method NormalizeConfig(config: EngineConfig, host: Host) returns (normalized: EngineConfig)
    ensures normalized == Normalized(config, true, host)
  {
    hide TrimSpace, NormalizeTransport, DefaultTLSServerName;
    normalized := config.(workerThreads := NormalizeWorkerThreads(config.workerThreads, host),
                          dnssecMode := NormalizeDNSSECMode(config.dnssecMode));
    var n := |config.upstreams|;
    var upstreams := new UpstreamConfig[n](i requires 0 <= i < n => config.upstreams[i]);
    for i := 0 to n
      invariant forall k :: 0 <= k < i ==> upstreams[k] == NormalizedUpstream(config.upstreams[k], true, host)
      invariant forall k :: i <= k < n ==> upstreams[k] == config.upstreams[k]
    {
      upstreams[i] := upstreams[i].(transport := NormalizeTransport(upstreams[i].transport));
      if upstreams[i].port == 0 {
        upstreams[i] := upstreams[i].(port := DefaultPort(upstreams[i].transport));
      }
      upstreams[i] := upstreams[i].(tlsServerName := TrimSpace(upstreams[i].tlsServerName));
      if upstreams[i].transport != DNS && upstreams[i].tlsServerName == "" {
        upstreams[i] := upstreams[i].(tlsServerName := DefaultTLSServerName(upstreams[i].address, host));
      }
      if upstreams[i].transport == DNS {
        upstreams[i] := upstreams[i].(tlsServerName := "");
      }
      if upstreams[i].weight <= 0 {
        upstreams[i] := upstreams[i].(weight := 1);
      }
      if upstreams[i].preference <= 0 {
        upstreams[i] := upstreams[i].(preference := 100);
      }
    }
    normalized := normalized.(upstreams := upstreams[..]);
  }

  /** No DoH, and not both plain DNS and DoT. */
  ghost predicate Compatible(config: EngineConfig) {
    && (forall c :: c in config.upstreams ==> c.transport != DOH)
    && !((exists c :: c in config.upstreams && c.transport == DOT) &&
         (exists c :: c in config.upstreams && c.transport != DOT))
  }

  method ValidateUnboundCompatibility(config: EngineConfig) returns (e: Option<Incompatibility>)
    ensures e.None? <==> Compatible(config)
    ensures e.Some? && e.value.DoHUnsupported? ==>
              var i := e.value.index;
              && i < |config.upstreams| && config.upstreams[i].transport == DOH
              && forall k :: 0 <= k < i ==> config.upstreams[k].transport != DOH
    ensures e == Some(MixedTransports) <==>
            !Compatible(config) && forall c :: c in config.upstreams ==> c.transport != DOH
  {
    var us := config.upstreams;
    var hasPlainDNS, hasDoT := false, false;
    for i := 0 to |us|
      invariant forall k :: 0 <= k < i ==> us[k].transport != DOH
      invariant hasDoT <==> exists k :: 0 <= k < i && us[k].transport == DOT
      invariant hasPlainDNS <==> exists k :: 0 <= k < i && us[k].transport != DOT
    {
      if us[i].transport == DOH {
        return Some(DoHUnsupported(i));
      } else if us[i].transport == DOT {
        hasDoT := true;
      } else {
        hasPlainDNS := true;
      }
    }
    if hasPlainDNS && hasDoT {
      return Some(MixedTransports);
    }
    e := None;
  }
}
