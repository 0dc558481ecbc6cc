/** validateDNSUpstreamPool, and what its acceptance means for the generated configuration. */
module PoolValidation {
  import opened Text
  import opened Engine
  import opened ConfigGenerator

  datatype SpecError =
    | MissingUpstreams
    | AddressWhitespace(index: nat)
    | AddressInvalid(index: nat)
    | TransportUnknown(index: nat)
    | PortOutOfRange(index: nat)
    | ServerNameOnPlainDNS(index: nat)
    | ServerNameInvalid(index: nat)
    | WeightOutOfRange(index: nat)
    | PreferenceOutOfRange(index: nat)
    | Duplicated(index: nat)
    | WorkerThreadsOutOfRange
    | DNSSECModeUnknown

  function ParseTransport(raw: string): Option<string> {
    var trimmed := ToLower(TrimSpace(raw));
    if trimmed == "" || trimmed == DNS then Some(DNS)
    else if trimmed == DOT then Some(DOT)
    else if trimmed == DOH then Some(DOH)
    else None
  }

  function ParseDNSSECMode(raw: string): Option<string> {
    var trimmed := ToLower(TrimSpace(raw));
    if trimmed == "" || trimmed == DNSSEC_OFF then Some(DNSSEC_OFF)
    else if trimmed == DNSSEC_PROCESS then Some(DNSSEC_PROCESS)
    else if trimmed == DNSSEC_VALIDATE then Some(DNSSEC_VALIDATE)
    else None
  }

  function CountDots(s: string): nat {
    if s == "" then 0 else (if s[0] == '.' then 1 else 0) + CountDots(s[1..])
  }

  predicate LooksLikeInvalidIPv4Literal(s: string) {
    CountDots(s) == 3 && forall i :: 0 <= i < |s| ==> s[i] == '.' || IsDigit(s[i])
  }

  predicate IsValidUpstreamAddress(address: string, host: Host) {
    var trimmed := TrimSpace(address);
    trimmed != "" && (host.isIP(trimmed) || (!LooksLikeInvalidIPv4Literal(trimmed) && host.isSubdomain(trimmed)))
  }

  /** The text by which the validation loop recognises duplicates. */
  function UpstreamKey(transport: string, address: string, port: int): string {
    transport + ":" + address + ":" + Decimal(port)
  }

  /** The key of an upstream whose transport parses. */
  function KeyOf(u: Upstream): string {
    var transport := NormalizeTransport(u.transport);
    UpstreamKey(transport, TrimSpace(u.address), NormalizePort(u.port, transport))
  }

  /** The checks the loop makes on one upstream alone, in their order. */
  function UpstreamError(u: Upstream, i: nat, host: Host): Option<SpecError> {
    var address := TrimSpace(u.address);
    if u.address != address then Some(AddressWhitespace(i))
    else if !IsValidUpstreamAddress(address, host) then Some(AddressInvalid(i))
    else match ParseTransport(u.transport)
      case None => Some(TransportUnknown(i))
      case Some(transport) =>
        var port := NormalizePort(u.port, transport);
        var serverName := TrimSpace(u.tlsServerName);
        var name := TrimDot(serverName);
        if port <= 0 || port > 65535 then Some(PortOutOfRange(i))
        else if transport == DNS && serverName != "" then Some(ServerNameOnPlainDNS(i))
        else if serverName != "" && (name == "" || !host.isSubdomain(ToLower(name))) then Some(ServerNameInvalid(i))
        else if u.weight < 0 || u.weight > 100 then Some(WeightOutOfRange(i))
        else if u.preference < 0 || u.preference > 1000 then Some(PreferenceOutOfRange(i))
        else None
  }

  /** The first thing wrong with upstream `i`, given the ones before it. */
  ghost function ErrorAt(us: seq<Upstream>, i: nat, host: Host): Option<SpecError>
    requires i < |us|
  {
    var own := UpstreamError(us[i], i, host);
    if own.Some? then own
    else if exists j :: 0 <= j < i && KeyOf(us[j]) == KeyOf(us[i]) then Some(Duplicated(i))
    else None
  }

  ghost predicate ValidUpstreams(us: seq<Upstream>, host: Host) {
    forall i :: 0 <= i < |us| ==> ErrorAt(us, i, host).None?
  }

  ghost predicate FirstErrorAt(us: seq<Upstream>, i: int, host: Host, e: Option<SpecError>) {
    && 0 <= i < |us|
    && ErrorAt(us, i, host) == e
    && forall j :: 0 <= j < i ==> ErrorAt(us, j, host).None?
  }

  ghost predicate ValidSpec(spec: PoolSpec, host: Host) {
    && spec.upstreams != []
    && ValidUpstreams(spec.upstreams, host)
    && 0 <= spec.workerThreads <= MAX_WORKER_THREADS
    && ParseDNSSECMode(spec.dnssecMode).Some?
  }

  /** The validation loop: reports the first upstream at fault. */
  method ValidateUpstreams(us: seq<Upstream>, host: Host) returns (e: Option<SpecError>)
    ensures e.None? <==> ValidUpstreams(us, host)
    ensures e.None? <==> AllAcceptable(us, host)
    ensures e.Some? ==> exists i :: FirstErrorAt(us, i, host, e)
  {
    hide UpstreamError, KeyOf, AllAcceptable;
    ValidUpstreamsMeans(us, host);
    var seen: set<string> := {};
    for i := 0 to |us|
      invariant forall j :: 0 <= j < i ==> ErrorAt(us, j, host).None?
      invariant seen == set j | 0 <= j < i :: KeyOf(us[j])
    {
      e := UpstreamError(us[i], i, host);
      if e.Some? {
        assert FirstErrorAt(us, i, host, e);
        return;
      }
      var key := KeyOf(us[i]);
      if key in seen {
        e := Some(Duplicated(i));
        assert FirstErrorAt(us, i, host, e);
        return;
      }
      seen := seen + {key};
    }
    e := None;
  }

  /** Accepts exactly the valid specs. */
  method ValidateDNSUpstreamPool(spec: PoolSpec, host: Host) returns (e: Option<SpecError>)
    ensures e.None? <==> ValidSpec(spec, host)
    ensures e.None? <==> Acceptable(spec, host)
    ensures spec.upstreams != [] && !ValidUpstreams(spec.upstreams, host) ==>
              exists i :: FirstErrorAt(spec.upstreams, i, host, e)
    ensures e == Some(MissingUpstreams) <==> spec.upstreams == []
    ensures spec.upstreams != [] && ValidUpstreams(spec.upstreams, host) && e.Some? ==>
              e.value == if 0 <= spec.workerThreads <= 256 then DNSSECModeUnknown else WorkerThreadsOutOfRange
  {
    hide Acceptable;
    ValidSpecMeans(spec, host);
    if |spec.upstreams| == 0 {
      return Some(MissingUpstreams);
    }
    e := ValidateUpstreams(spec.upstreams, host);
    if e.Some? {
      return;
    }
    if spec.workerThreads < 0 || spec.workerThreads > MAX_WORKER_THREADS {
      return Some(WorkerThreadsOutOfRange);
    }
    if ParseDNSSECMode(spec.dnssecMode).None? {
      return Some(DNSSECModeUnknown);
    }
    e := None;
  }

  // ---------------------------------------------------------------- acceptance, on the raw fields

  /** Digits with exactly three dots. */
  ghost predicate DottedDigits(s: string) { exists i, j, k :: DottedAt(s, i, j, k) }

  predicate DottedAt(s: string, i: int, j: int, k: int) {
    && 0 <= i < j < k < |s| && s[i] == s[j] == s[k] == '.'
    && forall m :: 0 <= m < |s| && m != i && m != j && m != k ==> '0' <= s[m] <= '9'
  }

  ghost predicate AddressOk(address: string, host: Host) {
    && Trimmed(address) && address != ""
    && (host.isIP(address) || (host.isSubdomain(address) && !DottedDigits(address)))
  }

  ghost predicate SpellsEncrypted(raw: string) { Spells(raw, "dot") || Spells(raw, "doh") }

  ghost predicate TransportOk(raw: string) { AllSpace(raw) || Spells(raw, "dns") || SpellsEncrypted(raw) }

  predicate PortOk(port: int) { 0 <= port <= 65535 }

  /** Without a final dot, if there is one, the trimmed name is a subdomain in lower case. */
  ghost predicate ServerNameOk(raw: string, host: Host) {
    var name := TrimSpace(raw);
    exists bare :: IsBare(name, bare) && host.isSubdomain(ToLower(bare))
  }

  /** `bare` is the name without its final dot, if it has one. */
  predicate IsBare(name: string, bare: string) {
    bare != "" && (name == bare + "." || (name == bare && bare[|bare| - 1] != '.'))
  }

  ghost predicate UpstreamOk(u: Upstream, host: Host) {
    && AddressOk(u.address, host) && TransportOk(u.transport) && PortOk(u.port)
    && (AllSpace(u.tlsServerName) || (SpellsEncrypted(u.transport) && ServerNameOk(u.tlsServerName, host)))
    && 0 <= u.weight <= 100 && 0 <= u.preference <= 1000
  }

  ghost predicate DNSSECModeOk(raw: string) {
    AllSpace(raw) || Spells(raw, "off") || Spells(raw, "process") || Spells(raw, "validate")
  }

  ghost predicate AllAcceptable(us: seq<Upstream>, host: Host) {
    && (forall u :: u in us ==> UpstreamOk(u, host))
    && (forall i, j :: 0 <= i < j < |us| ==> !SameEndpoint(ConfigOf(us[i], host), ConfigOf(us[j], host)))
  }

  /** What the validation demands of a pool. */
  ghost predicate Acceptable(spec: PoolSpec, host: Host) {
    && spec.upstreams != [] && AllAcceptable(spec.upstreams, host)
    && 0 <= spec.workerThreads <= 256 && DNSSECModeOk(spec.dnssecMode)
  }

  lemma {:induction false} NoDots(s: string)
    ensures CountDots(s) == 0 <==> '.' !in s
  {
    if s != "" {
      NoDots(s[1..]);
      assert s == [s[0]] + s[1..];
    }
  }

  lemma {:induction false} FirstDot(s: string, i: nat)
    requires i < |s| && s[i] == '.' && '.' !in s[..i]
    ensures CountDots(s) == 1 + CountDots(s[i + 1..])
  {
    if i > 0 {
      assert s[..i][0] == s[0];
      assert s[1..][..i - 1] == s[..i][1..] && s[1..][i..] == s[i + 1..];
      FirstDot(s[1..], i - 1);
    }
  }

  lemma {:induction false} SomeDot(s: string) returns (i: nat)
    requires CountDots(s) > 0
    ensures i < |s| && s[i] == '.' && '.' !in s[..i] && CountDots(s[i + 1..]) == CountDots(s) - 1
  {
    i := 0;
    NoDots(s);
    while s[i] != '.'
      invariant i < |s| && '.' !in s[..i] && '.' in s[i..]
      decreases |s| - i
    {
      assert s[i..] == [s[i]] + s[i + 1..] && s[..i + 1] == s[..i] + [s[i]];
      i := i + 1;
    }
    FirstDot(s, i);
  }

  /** The positions of three dots, if there are no others. */
  lemma ThreeDots(s: string) returns (i: nat, j: nat, k: nat)
    requires CountDots(s) == 3
    ensures i < j < k < |s| && s[i] == s[j] == s[k] == '.'
    ensures forall m :: 0 <= m < |s| && m != i && m != j && m != k ==> s[m] != '.'
  {
    hide CountDots;
    i := SomeDot(s);
    var t := s[i + 1..];
    var b := SomeDot(t);
    var v := t[b + 1..];
    var c := SomeDot(v);
    NoDots(v[c + 1..]);
    j, k := i + 1 + b, i + 1 + b + 1 + c;
    forall m | 0 <= m < |s| && m != i && m != j && m != k ensures s[m] != '.' {
      NotDot(s, i, j, k, m);
    }
  }

  lemma NotDot(s: string, i: nat, j: nat, k: nat, m: nat)
    requires i < j < k < |s| && m < |s| && m != i && m != j && m != k
    requires '.' !in s[..i] && '.' !in s[i + 1..][..j - i - 1] && '.' !in s[i + 1..][j - i..][..k - j - 1]
    requires '.' !in s[i + 1..][j - i..][k - j..]
    ensures s[m] != '.'
  {
    if m < i {
      assert s[..i][m] == s[m];
    } else if m < j {
      assert s[i + 1..][..j - i - 1][m - i - 1] == s[m];
    } else if m < k {
      assert s[i + 1..][j - i..][..k - j - 1][m - j - 1] == s[m];
    } else {
      assert s[i + 1..][j - i..][k - j..][m - k - 1] == s[m];
    }
  }

  lemma CountThreeDots(s: string, i: nat, j: nat, k: nat)
    requires i < j < k < |s| && s[i] == s[j] == s[k] == '.'
    requires forall m :: 0 <= m < |s| && m != i && m != j && m != k ==> s[m] != '.'
    ensures CountDots(s) == 3
  {
    hide CountDots;
    FirstDot(s, i);
    FirstDot(s[i + 1..], j - i - 1);
    assert s[i + 1..][j - i..] == s[j + 1..];
    FirstDot(s[j + 1..], k - j - 1);
    assert s[j + 1..][k - j..] == s[k + 1..];
    NoDots(s[k + 1..]);
  }

  lemma LooksDotted(s: string)
    requires LooksLikeInvalidIPv4Literal(s)
    ensures DottedDigits(s)
  {
    var i, j, k := ThreeDots(s);
    hide CountDots;
    assert DottedAt(s, i, j, k);
  }

  lemma DottedLooks(s: string, i: int, j: int, k: int)
    requires DottedAt(s, i, j, k)
    ensures LooksLikeInvalidIPv4Literal(s)
  {
    hide CountDots;
    CountThreeDots(s, i, j, k);
  }

  lemma LooksLikeMeans(s: string)
    ensures LooksLikeInvalidIPv4Literal(s) <==> DottedDigits(s)
  {
    hide LooksLikeInvalidIPv4Literal, DottedAt;
    if LooksLikeInvalidIPv4Literal(s) {
      LooksDotted(s);
    }
    if i, j, k :| DottedAt(s, i, j, k) {
      DottedLooks(s, i, j, k);
    }
  }

  lemma ParseTransportMeans(raw: string)
    ensures ParseTransport(raw).Some? <==> TransportOk(raw)
    ensures ParseTransport(raw).Some? ==> (ParseTransport(raw).value == DNS <==> !SpellsEncrypted(raw))
  {
    BlankMeans(raw);
    SpellsMeans(raw, "dns");
    SpellsMeans(raw, "dot");
    SpellsMeans(raw, "doh");
    assert |ToLower(TrimSpace(raw))| == |TrimSpace(raw)|;
  }

  lemma ParseDNSSECModeMeans(raw: string)
    ensures ParseDNSSECMode(raw).Some? <==> DNSSECModeOk(raw)
  {
    BlankMeans(raw);
    SpellsMeans(raw, "off");
    SpellsMeans(raw, "process");
    SpellsMeans(raw, "validate");
    assert |ToLower(TrimSpace(raw))| == |TrimSpace(raw)|;
  }

  lemma AddressMeans(address: string, host: Host)
    requires Trimmed(address)
    ensures IsValidUpstreamAddress(address, host) <==> AddressOk(address, host)
  {
    TrimSpaceFacts(address);
    LooksLikeMeans(address);
  }

  lemma TrimDotMeans(name: string, bare: string)
    ensures TrimDot(name) == bare != "" <==> IsBare(name, bare)
  {
    assert (bare + ".")[..|bare|] == bare;
    if TrimDot(name) == bare && name != bare {
      assert name == bare + ".";
    }
  }

  lemma ServerNameMeans(raw: string, host: Host)
    ensures var name := TrimDot(TrimSpace(raw));
            name != "" && host.isSubdomain(ToLower(name)) <==> ServerNameOk(raw, host)
  {
    hide TrimDot, TrimSpace, ToLower, IsBare;
    var name := TrimSpace(raw);
    TrimDotMeans(name, TrimDot(name));
    if bare :| IsBare(name, bare) && host.isSubdomain(ToLower(bare)) {
      TrimDotMeans(name, bare);
    }
  }

  /** What is reported for an upstream, by its raw fields: the first check that it fails. */
  lemma ErrorAtMeans(us: seq<Upstream>, i: nat, host: Host)
    requires i < |us|
    ensures var u := us[i];
            var e := ErrorAt(us, i, host);
            var addressOk := AddressOk(u.address, host);
            var transportOk := addressOk && TransportOk(u.transport);
            var portOk := transportOk && PortOk(u.port);
            var plain := !SpellsEncrypted(u.transport);
            var named := !AllSpace(u.tlsServerName);
            var nameOk := portOk && (named ==> !plain && ServerNameOk(u.tlsServerName, host));
            var weightOk := nameOk && 0 <= u.weight <= 100;
            var doubled := exists j :: 0 <= j < i && SameEndpoint(ConfigOf(us[j], host), ConfigOf(u, host));
            && (e == Some(AddressWhitespace(i)) <==> !Trimmed(u.address))
            && (e == Some(AddressInvalid(i)) <==> Trimmed(u.address) && !addressOk)
            && (e == Some(TransportUnknown(i)) <==> addressOk && !transportOk)
            && (e == Some(PortOutOfRange(i)) <==> transportOk && !portOk)
            && (e == Some(ServerNameOnPlainDNS(i)) <==> portOk && plain && named)
            && (e == Some(ServerNameInvalid(i)) <==> portOk && !plain && named && !nameOk)
            && (e == Some(WeightOutOfRange(i)) <==> nameOk && !weightOk)
            && (e == Some(PreferenceOutOfRange(i)) <==> weightOk && !(0 <= u.preference <= 1000))
            && (e == Some(Duplicated(i)) <==> UpstreamOk(u, host) && doubled)
            && (e == None <==> UpstreamOk(u, host) && !doubled)
  {
    hide Spells, AllSpace, ServerNameOk, AddressOk, KeyOf, ConfigOf, SameEndpoint, TrimDot, IsValidUpstreamAddress;
    var u := us[i];
    TrimSpaceFacts(u.address);
    if Trimmed(u.address) {
      AddressMeans(u.address, host);
    }
    AddressTrimmed(u.address, host);
    ParseTransportMeans(u.transport);
    if ParseTransport(u.transport).Some? {
      ParsedPort(u.transport, u.port);
    }
    ServerNameMeans(u.tlsServerName, host);
    BlankMeans(u.tlsServerName);
    forall j | 0 <= j < i
      ensures KeyOf(us[j]) == KeyOf(us[i]) <==> SameEndpoint(ConfigOf(us[j], host), ConfigOf(u, host))
    {
      SameEndpointSameKey(us[j], u, host);
    }
  }

  lemma AddressTrimmed(address: string, host: Host)
    ensures AddressOk(address, host) ==> Trimmed(address)
  {
  }

  lemma ParsedPort(raw: string, port: int)
    requires ParseTransport(raw).Some?
    ensures 1 <= NormalizePort(port, ParseTransport(raw).value) <= 65535 <==> PortOk(port)
  {
  }

  /** Acceptance is a statement on the raw fields. */
  lemma ValidSpecMeans(spec: PoolSpec, host: Host)
    ensures ValidSpec(spec, host) <==> Acceptable(spec, host)
  {
    hide ValidUpstreams, AllAcceptable, ParseDNSSECMode, DNSSECModeOk;
    ParseDNSSECModeMeans(spec.dnssecMode);
    ValidUpstreamsMeans(spec.upstreams, host);
  }

  lemma ValidUpstreamsMeans(us: seq<Upstream>, host: Host)
    ensures ValidUpstreams(us, host) <==> AllAcceptable(us, host)
  {
    hide ErrorAt, UpstreamOk, ConfigOf, SameEndpoint;
    forall i | 0 <= i < |us|
      ensures ErrorAt(us, i, host) == None <==>
              UpstreamOk(us[i], host)
              && !exists j :: 0 <= j < i && SameEndpoint(ConfigOf(us[j], host), ConfigOf(us[i], host))
    {
      ErrorAtMeans(us, i, host);
    }
  }

  // ---------------------------------------------------------------- the duplicate key is faithful

  predicate ColonFree(s: string) { ':' !in s }

  lemma DecimalColonFree(n: int)
    ensures ColonFree(Decimal(n))
  {
    var digits := DigitsOf(if n < 0 then -n else n);
    assert forall i :: 0 <= i < |digits| ==> IsDigit(digits[i]);
  }

  lemma NoColonAfter(a: string, p: string)
    requires ColonFree(p)
    ensures var s := a + ":" + p; forall i :: |a| < i < |s| ==> s[i] != ':'
  {
    var s := a + ":" + p;
    forall i | |a| < i < |s| ensures s[i] != ':' {
      assert s[i] == p[i - |a| - 1];
    }
  }

  lemma LastColonSplits(a: string, p: string, b: string, q: string)
    requires ColonFree(p) && ColonFree(q) && a + ":" + p == b + ":" + q
    ensures a == b && p == q
  {
    var s, t := a + ":" + p, b + ":" + q;
    assert s[|a|] == ':' && t[|b|] == ':';
    NoColonAfter(a, p);
    NoColonAfter(b, q);
    assert a == s[..|a|] && b == t[..|b|];
    assert p == s[|a| + 1..] && q == t[|b| + 1..];
  }

  /** Equal keys mean equal transport, address and port, however many colons an address holds. */
  lemma UpstreamKeyInjective(t: string, a: string, p: int, t': string, a': string, p': int)
    requires {t, t'} <= {DNS, DOT, DOH}
    requires UpstreamKey(t, a, p) == UpstreamKey(t', a', p')
    ensures t == t' && a == a' && p == p'
  {
    DecimalColonFree(p);
    DecimalColonFree(p');
    LastColonSplits(t + ":" + a, Decimal(p), t' + ":" + a', Decimal(p'));
    DecimalInjective(p, p');
    assert t in {t, t'} && t' in {t, t'};
    assert |t| == |t'| == 3;
    assert t == (t + ":" + a)[..3] && t' == (t' + ":" + a')[..3];
    assert a == (t + ":" + a)[4..] && a' == (t' + ":" + a')[4..];
  }

  // ---------------------------------------------------------------- acceptance is sound for generation

  predicate InRange(c: UpstreamConfig) {
    1 <= c.port <= 65535 && 1 <= c.weight <= 100 && 1 <= c.preference <= 1000
  }

  predicate SameEndpoint(c: UpstreamConfig, d: UpstreamConfig) {
    c.transport == d.transport && c.address == d.address && c.port == d.port
  }

  ghost predicate DistinctEndpoints(cs: seq<UpstreamConfig>) {
    forall i, j :: 0 <= i < j < |cs| ==> !SameEndpoint(cs[i], cs[j])
  }

  lemma ParsedTransport(raw: string)
    ensures ParseTransport(raw).Some? ==> ParseTransport(raw).value == NormalizeTransport(raw)
  {
  }

  lemma AcceptedUpstream(u: Upstream, i: nat, host: Host)
    requires UpstreamError(u, i, host).None?
    ensures !Blank(u) && InRange(ConfigOf(u, host))
  {
    ParsedTransport(u.transport);
  }

  lemma SameEndpointSameKey(u: Upstream, v: Upstream, host: Host)
    ensures SameEndpoint(ConfigOf(u, host), ConfigOf(v, host)) <==> KeyOf(u) == KeyOf(v)
  {
    if KeyOf(u) == KeyOf(v) {
      var t, t' := NormalizeTransport(u.transport), NormalizeTransport(v.transport);
      UpstreamKeyInjective(t, TrimSpace(u.address), NormalizePort(u.port, t),
                           t', TrimSpace(v.address), NormalizePort(v.port, t'));
    }
  }

  function Without<T>(s: seq<T>, i: nat): (r: seq<T>)
    requires i < |s|
    ensures |r| == |s| - 1 && forall m :: 0 <= m < |r| ==> r[m] == s[if m < i then m else m + 1]
  {
    s[..i] + s[i + 1..]
  }

  lemma WithoutMembers<T>(s: seq<T>, i: nat)
    requires i < |s|
    ensures multiset(Without(s, i)) == multiset(s) - multiset{s[i]}
  {
    assert s == s[..i] + [s[i]] + s[i + 1..];
  }

  /** Two positions of a permutation come from two positions of the original. */
  lemma TwoInPermutation<T>(s: seq<T>, t: seq<T>, i: nat, j: nat) returns (k: nat, l: nat)
    requires multiset(s) == multiset(t) && i < j < |t|
    ensures k < |s| && l < |s| && k != l && s[k] == t[i] && s[l] == t[j]
  {
    assert t[i] in multiset(s);
    k :| 0 <= k < |s| && s[k] == t[i];
    WithoutMembers(s, k);
    WithoutMembers(t, i);
    hide Without;
    assert Without(t, i)[j - 1] == t[j];
    assert t[j] in multiset(Without(s, k));
    var m :| 0 <= m < |Without(s, k)| && Without(s, k)[m] == t[j];
    l := if m < k then m else m + 1;
  }

  lemma DistinctEndpointsPermuted(s: seq<UpstreamConfig>, t: seq<UpstreamConfig>)
    requires multiset(s) == multiset(t) && DistinctEndpoints(s)
    ensures DistinctEndpoints(t)
  {
    forall i, j | 0 <= i < j < |t| ensures !SameEndpoint(t[i], t[j]) {
      var k, l := TwoInPermutation(s, t, i, j);
      assert if k < l then !SameEndpoint(s[k], s[l]) else !SameEndpoint(s[l], s[k]);
    }
  }

  /** An accepted pool generates, every value is in its documented range, and no two upstreams of the
      result share transport, address and port. */
  lemma ValidationSound(spec: PoolSpec, profile: Option<ProfileSpec>, host: Host)
    requires ValidSpec(spec, host)
    ensures Generated(spec, profile, host).Ok?
    ensures var config := Generated(spec, profile, host).value;
            && 1 <= config.workerThreads <= MAX_WORKER_THREADS
            && (forall c :: c in config.upstreams ==> InRange(c))
            && DistinctEndpoints(config.upstreams)
  {
    ValidUpstreamsSound(spec.upstreams, host);
    GeneratesIff(spec, profile, host);
    var config := Generated(spec, profile, host).value;
    GeneratedOrder(spec, profile, host, []);
    var input := ConfigsOf(spec.upstreams, host);
    assert forall c :: c in config.upstreams ==> c in multiset(input);
    hide InRange, SameEndpoint;
    DistinctEndpointsPermuted(input, config.upstreams);
  }

  lemma ValidUpstreamsSound(us: seq<Upstream>, host: Host)
    requires ValidUpstreams(us, host)
    ensures forall u :: u in us ==> !Blank(u)
    ensures (forall c :: c in ConfigsOf(us, host) ==> InRange(c)) && DistinctEndpoints(ConfigsOf(us, host))
  {
    hide InRange, SameEndpoint, KeyOf, ConfigOf, UpstreamError, Blank;
    var input := ConfigsOf(us, host);
    forall i | 0 <= i < |us| ensures !Blank(us[i]) && InRange(ConfigOf(us[i], host)) {
      assert ErrorAt(us, i, host).None?;
      AcceptedUpstream(us[i], i, host);
    }
    forall i, j | 0 <= i < j < |input| ensures !SameEndpoint(input[i], input[j]) {
      assert ErrorAt(us, j, host).None?;
      SameEndpointSameKey(us[i], us[j], host);
    }
  }
}
