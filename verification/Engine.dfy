/** The engine-neutral configuration, the pool and profile specs it is made from, and the
    defaulting rules that the generator and all three renderers repeat. */
module Engine {
  import opened Text

  const DNS := "dns"
  const DOT := "dot"
  const DOH := "doh"

  const DNSSEC_OFF := "off"
  const DNSSEC_PROCESS := "process"
  const DNSSEC_VALIDATE := "validate"

  const REFUSED := "refused"
  const NXDOMAIN := "nxdomain"

  const MAX_WORKER_THREADS := 256

  datatype Upstream = Upstream(
    address: string, port: int, transport: string, tlsServerName: string, weight: int, preference: int)

  datatype DomainFilter = DomainFilter(allow: seq<string>, deny: seq<string>, action: string)

  datatype PoolSpec = PoolSpec(
    upstreams: seq<Upstream>, workerThreads: int, dnssecMode: string, domainFilter: DomainFilter)

  datatype ProfileSpec = ProfileSpec(
    maxEntries: int, minSeconds: int, maxSeconds: int, negativeSeconds: int,
    prefetchEnabled: bool, prefetchThreshold: int)

  datatype UpstreamConfig = UpstreamConfig(
    address: string, port: int, transport: string, tlsServerName: string, weight: int, preference: int)

  datatype CacheConfig = CacheConfig(
    maxEntries: int, positiveTtlMin: int, positiveTtlMax: int, negativeTtl: int,
    prefetchEnabled: bool, prefetchThreshold: int)

  datatype EngineConfig = EngineConfig(
    upstreams: seq<UpstreamConfig>, cache: CacheConfig, listenAddr: string, listenPort: int,
    workerThreads: int, dnssecMode: string, domainFilter: DomainFilter)

  /** What the operator asks of its libraries and its host: netip.ParseAddr's verdict,
      validation.IsDNS1123Subdomain's verdict and runtime.NumCPU. */
  datatype Host = Host(isIP: string -> bool, isSubdomain: string -> bool, numCPU: int)

  function NormalizeTransport(raw: string): (r: string)
    ensures r in {DNS, DOT, DOH}
  {
    var trimmed := ToLower(TrimSpace(raw));
    if trimmed == DOT then DOT else if trimmed == DOH then DOH else DNS
  }

  function NormalizeDNSSECMode(raw: string): (r: string)
    ensures r in {DNSSEC_OFF, DNSSEC_PROCESS, DNSSEC_VALIDATE}
  {
    var trimmed := ToLower(TrimSpace(raw));
    if trimmed == DNSSEC_PROCESS then DNSSEC_PROCESS
    else if trimmed == DNSSEC_VALIDATE then DNSSEC_VALIDATE
    else DNSSEC_OFF
  }

  function NormalizeDomainFilterAction(raw: string): string {
    if ToLower(TrimSpace(raw)) == NXDOMAIN then NXDOMAIN else REFUSED
  }

  function NormalizeWeight(weight: int): int { if weight <= 0 then 1 else weight }

  function NormalizePreference(preference: int): int { if preference <= 0 then 100 else preference }

  function NormalizeWorkerThreads(value: int, host: Host): (r: int)
    ensures 1 <= r <= MAX_WORKER_THREADS
  {
    if value > MAX_WORKER_THREADS then MAX_WORKER_THREADS
    else if value > 0 then value
    else if host.numCPU <= 0 then 2
    else if host.numCPU > MAX_WORKER_THREADS then MAX_WORKER_THREADS
    else host.numCPU
  }

  function DefaultPort(transport: string): int {
    if transport == DOT then 853 else if transport == DOH then 443 else 53
  }

  function NormalizePort(port: int, transport: string): int {
    if port == 0 then DefaultPort(transport) else port
  }

  /** The server name used when none is configured: the host name without its final dot. */
  function DefaultTLSServerName(address: string, host: Host): string {
    var trimmed := TrimDot(TrimSpace(address));
    if trimmed == "" || host.isIP(trimmed) then "" else trimmed
  }

  lemma TransportFixed(t: string)
    requires t in {DNS, DOT, DOH}
    ensures NormalizeTransport(t) == t
  {
    assert Trimmed(t) && ToLower(t) == t;
    TrimSpaceFacts(t);
  }

  lemma DNSSECModeFixed(m: string)
    requires m in {DNSSEC_OFF, DNSSEC_PROCESS, DNSSEC_VALIDATE}
    ensures NormalizeDNSSECMode(m) == m
  {
    assert Trimmed(m) && ToLower(m) == m;
    TrimSpaceFacts(m);
  }

  // ---------------------------------------------------------------- what the defaults mean for the raw values

  lemma TransportMeans(raw: string)
    ensures NormalizeTransport(raw) == "dot" <==> Spells(raw, "dot")
    ensures NormalizeTransport(raw) == "doh" <==> Spells(raw, "doh")
    ensures NormalizeTransport(raw) == "dns" <==> !Spells(raw, "dot") && !Spells(raw, "doh")
  {
    SpellsMeans(raw, "dot");
    SpellsMeans(raw, "doh");
  }

  lemma DNSSECModeMeans(raw: string)
    ensures NormalizeDNSSECMode(raw) == "process" <==> Spells(raw, "process")
    ensures NormalizeDNSSECMode(raw) == "validate" <==> Spells(raw, "validate")
    ensures NormalizeDNSSECMode(raw) == "off" <==> !Spells(raw, "process") && !Spells(raw, "validate")
  {
    SpellsMeans(raw, "process");
    SpellsMeans(raw, "validate");
  }

  lemma DomainFilterActionMeans(raw: string)
    ensures NormalizeDomainFilterAction(raw) == "nxdomain" <==> Spells(raw, "nxdomain")
    ensures NormalizeDomainFilterAction(raw) == "refused" <==> !Spells(raw, "nxdomain")
  {
    SpellsMeans(raw, "nxdomain");
  }

  /** Ports, weights, preferences and threads that are given are kept, and have these defaults. */
  lemma NumbersMean(n: int, transport: string, host: Host)
    ensures n != 0 ==> NormalizePort(n, transport) == n
    ensures NormalizePort(0, "dns") == 53 && NormalizePort(0, "dot") == 853 && NormalizePort(0, "doh") == 443
    ensures n > 0 ==> NormalizeWeight(n) == NormalizePreference(n) == n
    ensures n <= 0 ==> NormalizeWeight(n) == 1 && NormalizePreference(n) == 100
    ensures 0 < n <= 256 ==> NormalizeWorkerThreads(n, host) == n
    ensures n > 256 ==> NormalizeWorkerThreads(n, host) == 256
    ensures n <= 0 < host.numCPU <= 256 ==> NormalizeWorkerThreads(n, host) == host.numCPU
    ensures n <= 0 && host.numCPU > 256 ==> NormalizeWorkerThreads(n, host) == 256
    ensures n <= 0 && host.numCPU <= 0 ==> NormalizeWorkerThreads(n, host) == 2
  {
  }

  /** The default server name is the address itself, with or without a final dot; there is none for an IP. */
  lemma DefaultTLSServerNameMeans(name: string, host: Host)
    requires Trimmed(name) && name != ""
    ensures DefaultTLSServerName(name + ".", host) == (if host.isIP(name) then "" else name)
    ensures name[|name| - 1] != '.' ==> DefaultTLSServerName(name, host) == DefaultTLSServerName(name + ".", host)
    ensures DefaultTLSServerName("", host) == DefaultTLSServerName(".", host) == ""
    ensures forall raw :: TrimSpace(raw) == name ==> DefaultTLSServerName(raw, host) == DefaultTLSServerName(name, host)
  {
    TrimSpaceFacts(name);
    TrimSpaceFacts(name + ".");
    TrimSpaceFacts(".");
    assert (name + ".")[..|name|] == name;
  }
}
