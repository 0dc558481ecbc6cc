/** What one run of the DNSUpstreamPool reconciler does to the cluster and to its own state. */
module PoolReconcile {
  import opened Text
  import opened Engine
  import opened Objects
  import ConfigGenerator
  import PoolValidation
  import opened Pools
  import opened PoolSelection
  import opened CircuitBreaker
  import Metric = ActivePoolMetric

  const AGENT_CONFIG_KEY := "config.json"
  const MAX_AGENT_CONFIG_JSON_BYTES := 0x10_0000 - 0x1000

  /** ConfigMap data; a string stands for its bytes. */
  type ConfigMaps = map<string, map<string, string>>

  /** `profiles` holds each namespace's DNSCacheProfile called "default"; `configMaps` holds each
      namespace's agent ConfigMap. */
  datatype World = World(
    pools: map<Key, Pool>,
    profiles: map<string, ProfileSpec>,
    configMaps: ConfigMaps,
    breaker: Breaker,
    metrics: Metric.Metrics)

  /** The renderer's verdict, the JSON encoder and the POD_NAMESPACE variable. */
  datatype Backend = Backend(
    host: Host, renders: EngineConfig -> bool, encode: EngineConfig -> Option<string>, podNamespace: string)
  {
    function OperatorNamespace(fallback: string): string {
      var ns := TrimSpace(podNamespace);
      if ns != "" then ns else fallback
    }
  }

  /** Which of a run's API calls fail, and the clock readings around its ConfigMap write. */
  datatype Api = Api(
    get: bool, stamp: bool, list: bool, profile: bool, configMap: bool, write: bool, status: bool,
    checked: int, t1: int, t2: int)
  {
    predicate NoFaults() { !get && !stamp && !list && !profile && !configMap && !write && !status }
  }

  datatype Outcome = Done | RequeueAfter(interval: int) | Failed

  datatype Upsert = Written | WriteFailed | CircuitOpen

  function Profile(w: World, ns: string): Option<ProfileSpec> {
    if ns in w.profiles then Some(w.profiles[ns]) else None
  }

  predicate FitsConfigMap(json: string) { |json| + |AGENT_CONFIG_KEY| <= MAX_AGENT_CONFIG_JSON_BYTES }

  function Data(configMaps: ConfigMaps, ns: string): map<string, string> {
    if ns in configMaps then configMaps[ns] else map[]
  }

  /** upsertConfigMap */
  function WithConfig(configMaps: ConfigMaps, ns: string, json: string): ConfigMaps {
    configMaps[ns := Data(configMaps, ns)[AGENT_CONFIG_KEY := json]]
  }

  /** removeConfigKey, for a ConfigMap that exists */
  function WithoutConfig(configMaps: ConfigMaps, ns: string): ConfigMaps {
    configMaps[ns := Data(configMaps, ns) - {AGENT_CONFIG_KEY}]
  }

  /** upsertConfigMapWithCircuitBreaker */
  function UpsertWithBreaker(w: World, ns: string, json: string, api: Api): (World, Upsert) {
    var breaker := Check(w.breaker, ns, api.checked);
    if IsOpen(w.breaker, ns, api.checked) then (w.(breaker := breaker), CircuitOpen)
    else if api.write then (w.(breaker := RecordFailure(breaker, ns, api.t1, api.t2)), WriteFailed)
    else (w.(configMaps := WithConfig(w.configMaps, ns, json), breaker := Reset(breaker, ns)), Written)
  }

  function WithCondition(w: World, key: Key, condition: Condition): World
    requires key in w.pools
  {
    w.(pools := w.pools[key := w.pools[key].(condition := Some(condition))])
  }

  /** setReadyCondition, followed by returning `outcome` if the status could be written. */
  function Report(w: World, key: Key, condition: Condition, api: Api, outcome: Outcome): (World, Outcome)
    requires key in w.pools
  {
    if api.status then (w, Failed) else (WithCondition(w, key, condition), outcome)
  }

  function Stamped(w: World, key: Key): World
    requires key in w.pools
  {
    w.(pools := w.pools[key := Stamp(w.pools[key])])
  }

  /** Records the metric for a sorted listing of the namespace. */
  function WithSelection(w: World, ns: string, sorted: seq<Pool>): World {
    if sorted == [] then w
    else w.(metrics := Metric.Record(w.metrics, ns, sorted[0].name, Metric.SelectionReason(|sorted|)))
  }

  /** Reconcile from the generation of the configuration on. */
  function Publish(w: World, key: Key, api: Api, backend: Backend): (World, Outcome)
    requires key in w.pools
  {
    if api.profile then Report(w, key, Condition(false, ProfileLookupFailed), api, Failed)
    else match ConfigGenerator.Generated(w.pools[key].spec, Profile(w, key.ns), backend.host)
      case Err(_) => Report(w, key, Condition(false, ConfigGenerationFailed), api, Done)
      case Ok(config) =>
        if !backend.renders(config) then Report(w, key, Condition(false, ValidationFailed), api, Done)
        else match backend.encode(config)
          case None => Report(w, key, Condition(false, MarshalFailed), api, Done)
          case Some(json) =>
            if !FitsConfigMap(json) then Report(w, key, Condition(false, ConfigTooLarge), api, Done)
            else match UpsertWithBreaker(w, backend.OperatorNamespace(key.ns), json, api)
              case (w', Written) => Report(w', key, Condition(true, Ready), api, Done)
              case (w', WriteFailed) => Report(w', key, Condition(false, ConfigMapUpdateFailed), api, Failed)
              case (w', CircuitOpen) =>
                Report(w', key, Condition(false, ConfigMapCircuitOpen), api, RequeueAfter(OPEN_INTERVAL))
  }

  /** Reconcile for a pool that exists; `sorted` is the sorted listing that selection works on. */
  ghost function ReconcileExisting(w: World, key: Key, sorted: seq<Pool>, api: Api, backend: Backend): (World, Outcome)
    requires key in w.pools
  {
    if !HasStamp(w.pools[key]) && api.stamp then (w, Failed)
    else
      var stamped := Stamped(w, key);
      if !PoolValidation.ValidSpec(stamped.pools[key].spec, backend.host) then
        Report(stamped, key, Condition(false, InvalidSpec), api, Done)
      else if api.list then (stamped, Failed)
      else
        var selected := WithSelection(stamped, key.ns, sorted);
        if |sorted| > 1 && selected.pools[key].name != sorted[0].name then
          Report(selected, key, Condition(false, Superseded), api, Done)
        else Publish(selected, key, api, backend)
  }

  /** reconcileAfterPoolDeletion */
  function AfterDeletion(w: World, ns: string, sorted: seq<Pool>, api: Api, backend: Backend): (World, Outcome)
    requires sorted != [] ==> Key(ns, sorted[0].name) in w.pools
  {
    var target := backend.OperatorNamespace(ns);
    if api.list then (w, Failed)
    else if sorted == [] then
      var cleared := w.(metrics := Metric.Clear(w.metrics, ns));
      if api.configMap then (cleared, Failed)
      else if target !in w.configMaps then (cleared, Done)
      else if api.write then (cleared, Failed)
      else (cleared.(configMaps := WithoutConfig(w.configMaps, target)), Done)
    else
      var selected := WithSelection(w, ns, sorted);
      var key := Key(ns, sorted[0].name);
      if api.profile then (selected, Failed)
      else match ConfigGenerator.Generated(sorted[0].spec, Profile(w, ns), backend.host)
        case Err(_) => (selected, Failed)
        case Ok(config) =>
          if !backend.renders(config) then (selected, Failed)
          else match backend.encode(config)
            case None => (selected, Failed)
            case Some(json) =>
              if !FitsConfigMap(json) then Report(selected, key, Condition(false, ConfigTooLarge), api, Done)
              else match UpsertWithBreaker(selected, target, json, api)
                case (w', Written) => Report(w', key, Condition(true, Ready), api, Done)
                case (w', WriteFailed) => (w', Failed)
                case (w', CircuitOpen) => Report(w', key, Condition(false, ConfigMapCircuitOpen), api, Done)
  }

  // ---------------------------------------------------------------- listings

  /** The pools of one namespace, in any order. */
  ghost predicate ListsNamespace(w: World, ns: string, items: seq<Pool>) {
    && DistinctNames(items)
    && (forall p :: p in items ==> Key(ns, p.name) in w.pools && w.pools[Key(ns, p.name)] == p)
    && (forall k :: k in w.pools && k.ns == ns ==> w.pools[k] in items)
  }

  ghost predicate NamesOk(w: World) {
    forall k :: k in w.pools ==> w.pools[k].name == k.name
  }

  /** The state in which a run lists the namespace: after its own stamp, if any. */
  function ListedState(w: World, key: Key): World {
    if key in w.pools then Stamped(w, key) else w
  }

  /** What a run works with: a listing of the namespace, as the API returns it and as the sort leaves it. */
  ghost predicate Listing(w: World, key: Key, items: seq<Pool>, sorted: seq<Pool>) {
    && NamesOk(w)
    && ListsNamespace(ListedState(w, key), key.ns, items)
    && SortOutcome(items, sorted)
  }

  lemma ListingMembers(w: World, key: Key, items: seq<Pool>, sorted: seq<Pool>)
    requires Listing(w, key, items, sorted)
    ensures |sorted| == |items| && forall p :: p in sorted <==> p in items
    ensures sorted != [] ==> Key(key.ns, sorted[0].name) in w.pools
    ensures key in w.pools && |sorted| <= 1 ==> sorted == [ListedState(w, key).pools[key]]
    ensures StrictOrder(items) && items != [] ==> sorted != [] && IsFirst(items, sorted[0])
  {
    SameElements(items, sorted);
    if StrictOrder(items) && items != [] {
      SortedFirst(items, sorted);
    }
    if sorted != [] {
      assert sorted[0] in items;
    }
    if key in w.pools && |sorted| <= 1 {
      assert ListedState(w, key).pools[key] in sorted;
    }
  }

  lemma SameElements(items: seq<Pool>, sorted: seq<Pool>)
    requires multiset(items) == multiset(sorted)
    ensures |sorted| == |items| && forall p :: p in sorted <==> p in items
  {
    assert |multiset(items)| == |multiset(sorted)|;
    forall p ensures p in sorted <==> p in items {
      assert p in multiset(sorted) <==> p in multiset(items);
    }
  }

  /** One run of Reconcile, for a listing that Listing admits. */
  ghost function Reconcile(w: World, key: Key, items: seq<Pool>, sorted: seq<Pool>, api: Api,
      backend: Backend): (World, Outcome)
    requires Listing(w, key, items, sorted)
  {
    ListingMembers(w, key, items, sorted);
    if api.get then (w, Failed)
    else if key in w.pools then ReconcileExisting(w, key, sorted, api, backend)
    else AfterDeletion(w, key.ns, sorted, api, backend)
  }

  // ---------------------------------------------------------------- both writing paths refine one specification

  /** The one text that may be published for a pool: generated, accepted by the renderer, encoded and
      within the size limit. */
  function Payload(spec: PoolSpec, profile: Option<ProfileSpec>, backend: Backend): Option<string> {
    match ConfigGenerator.Generated(spec, profile, backend.host)
    case Err(_) => None
    case Ok(config) =>
      if !backend.renders(config) then None
      else match backend.encode(config)
        case None => None
        case Some(json) => if FitsConfigMap(json) then Some(json) else None
  }

  /** Whatever path a run takes and whichever of its calls fail, it leaves all ConfigMaps alone, or
      writes the payload of the first pool of its listing, or, when the namespace has no pool left,
      removes config.json. */
  ghost predicate Publishes(before: ConfigMaps, after: ConfigMaps, target: string, sorted: seq<Pool>,
                            profile: Option<ProfileSpec>, backend: Backend) {
    || after == before
    || (sorted != [] && Payload(sorted[0].spec, profile, backend).Some? &&
        after == WithConfig(before, target, Payload(sorted[0].spec, profile, backend).value))
    || (sorted == [] && target in before && after == WithoutConfig(before, target))
  }

  lemma PublishWrites(w: World, key: Key, api: Api, backend: Backend)
    requires key in w.pools
    ensures var w' := Publish(w, key, api, backend).0;
            var payload := Payload(w.pools[key].spec, Profile(w, key.ns), backend);
            || w'.configMaps == w.configMaps
            || (payload.Some? &&
                w'.configMaps == WithConfig(w.configMaps, backend.OperatorNamespace(key.ns), payload.value))
  {
    hide ConfigGenerator.Generated, Check, RecordFailure;
  }

  lemma DeletionWrites(w: World, ns: string, sorted: seq<Pool>, api: Api, backend: Backend)
    requires sorted != [] ==> Key(ns, sorted[0].name) in w.pools
    ensures Publishes(w.configMaps, AfterDeletion(w, ns, sorted, api, backend).0.configMaps,
                      backend.OperatorNamespace(ns), sorted, Profile(w, ns), backend)
  {
    hide ConfigGenerator.Generated, Check, RecordFailure, Metric.Clear, Metric.Record;
  }

  /** A pool that is not superseded is the first of its listing. */
  lemma SelectedIsFirst(w: World, key: Key, items: seq<Pool>, sorted: seq<Pool>)
    requires Listing(w, key, items, sorted) && key in w.pools
    ensures sorted != []
    ensures |sorted| <= 1 || w.pools[key].name == sorted[0].name ==> sorted[0] == Stamped(w, key).pools[key]
  {
    ListingMembers(w, key, items, sorted);
    assert Stamped(w, key).pools[key] in items;
  }

  lemma ExistingWrites(w: World, key: Key, sorted: seq<Pool>, api: Api, backend: Backend)
    requires key in w.pools && sorted != []
    requires |sorted| <= 1 || w.pools[key].name == sorted[0].name ==> sorted[0] == Stamped(w, key).pools[key]
    ensures Publishes(w.configMaps, ReconcileExisting(w, key, sorted, api, backend).0.configMaps,
                      backend.OperatorNamespace(key.ns), sorted, Profile(w, key.ns), backend)
  {
    hide Publish, Payload, PoolValidation.ValidSpec, Metric.Record;
    PublishWrites(WithSelection(Stamped(w, key), key.ns, sorted), key, api, backend);
  }

  /** Every write of config.json, from either path, is the payload of the listing's first pool; when the
      comparator orders the listing, that pool is its minimum. */
  lemma EveryWriteRefines(w: World, key: Key, items: seq<Pool>, sorted: seq<Pool>, api: Api, backend: Backend)
    requires Listing(w, key, items, sorted)
    ensures Publishes(w.configMaps, Reconcile(w, key, items, sorted, api, backend).0.configMaps,
                      backend.OperatorNamespace(key.ns), sorted, Profile(w, key.ns), backend)
    ensures StrictOrder(items) && items != [] ==> sorted != [] && IsFirst(items, sorted[0])
  {
    hide Listing, ReconcileExisting, AfterDeletion, StrictOrder, IsFirst, Payload;
    ListingMembers(w, key, items, sorted);
    if key in w.pools {
      SelectedIsFirst(w, key, items, sorted);
      ExistingWrites(w, key, sorted, api, backend);
    } else {
      DeletionWrites(w, key.ns, sorted, api, backend);
    }
  }

  /** The bytes at one key of one ConfigMap. */
  function Entry(configMaps: ConfigMaps, ns: string, k: string): Option<string> {
    if ns in configMaps && k in configMaps[ns] then Some(configMaps[ns][k]) else None
  }

  /** No run touches any ConfigMap entry but config.json of the operator's namespace. */
  lemma OtherEntriesUntouched(w: World, key: Key, items: seq<Pool>, sorted: seq<Pool>, api: Api, backend: Backend,
                              ns: string, k: string)
    requires Listing(w, key, items, sorted)
    requires ns != backend.OperatorNamespace(key.ns) || k != AGENT_CONFIG_KEY
    ensures Entry(Reconcile(w, key, items, sorted, api, backend).0.configMaps, ns, k) == Entry(w.configMaps, ns, k)
  {
    hide Reconcile, Payload;
    EveryWriteRefines(w, key, items, sorted, api, backend);
  }

  /** Reconciling the deletion of a namespace's last pool, if it succeeds, leaves no config.json; without API
      failures it succeeds. */
  lemma LastPoolGone(w: World, key: Key, items: seq<Pool>, sorted: seq<Pool>, api: Api, backend: Backend)
    requires Listing(w, key, items, sorted)
    requires !exists k :: k in w.pools && k.ns == key.ns
    ensures var (w', outcome) := Reconcile(w, key, items, sorted, api, backend);
            && (api.NoFaults() ==> outcome == Done)
            && (outcome == Done ==> Entry(w'.configMaps, backend.OperatorNamespace(key.ns), AGENT_CONFIG_KEY) == None)
  {
    ListingMembers(w, key, items, sorted);
    assert sorted == [];
  }

  /** The deletion path reports success without having published anything exactly when the remaining
      pool's configuration is too large or the circuit is open; it does not ask to be run again. */
  lemma DeletionSkipsPublishing(w: World, key: Key, items: seq<Pool>, sorted: seq<Pool>, api: Api, backend: Backend)
    requires Listing(w, key, items, sorted) && key !in w.pools && sorted != [] && api.NoFaults()
    ensures var (w', outcome) := Reconcile(w, key, items, sorted, api, backend);
            var target := backend.OperatorNamespace(key.ns);
            var payload := Payload(sorted[0].spec, Profile(w, key.ns), backend);
            var generated := ConfigGenerator.Generated(sorted[0].spec, Profile(w, key.ns), backend.host);
            var encoded :=
              if generated.Ok? && backend.renders(generated.value) then backend.encode(generated.value) else None;
            && (outcome == Done <==> encoded.Some?)
            && !outcome.RequeueAfter?
            && (outcome == Done ==>
                  if FitsConfigMap(encoded.value) && !IsOpen(w.breaker, target, api.checked)
                  then payload == encoded && w'.configMaps == WithConfig(w.configMaps, target, payload.value)
                  else w'.configMaps == w.configMaps)
  {
    hide ConfigGenerator.Generated, Check, RecordFailure, Metric.Record;
    ListingMembers(w, key, items, sorted);
  }

  /** One namespace "a", whose pool "old" has been deleted while its configuration is published; the pool
      "b" is left. Everything else about the reconcile succeeds. */
  function Leftover(openUntil: map<string, int>): World {
    var upstream := Upstream("1.1.1.1", 0, "", "", 0, 0);
    var spec := PoolSpec([upstream], 0, "", DomainFilter([], [], ""));
    World(map[Key("a", "b") := Pool("b", 10, "2", map[INITIAL_RV_ANNOTATION := "2"], spec, None)], map[],
          map["a" := map[AGENT_CONFIG_KEY := "old"]], Breaker(map[], openUntil), Metric.Metrics(map[], map[]))
  }

  /** Renders everything as `json`. */
  function Renders(json: string): Backend {
    Backend(Host(_ => true, _ => true, 4), _ => true, _ => Some(json), "")
  }

  lemma LeftoverListed(openUntil: map<string, int>)
    ensures var w := Leftover(openUntil);
            var left := [w.pools[Key("a", "b")]];
            && Listing(w, Key("a", "old"), left, left)
            && ConfigGenerator.Generated(left[0].spec, None, Renders("").host).Ok?
  {
    var spec := Leftover(openUntil).pools[Key("a", "b")].spec;
    assert spec.upstreams[0].address == "1.1.1.1" && TrimSpace("1.1.1.1") == "1.1.1.1";
    ConfigGenerator.GeneratesIff(spec, None, Renders("").host);
  }

  /** Both cases of skipping occur: behind an open circuit, and with a text that is too large, the deletion
      of a pool is done with although its configuration is still the published one. */
  lemma DeletionCanLeaveStale(openUntil: map<string, int>, json: string, api: Api)
    requires api.NoFaults()
    requires IsOpen(Leftover(openUntil).breaker, "a", api.checked) || !FitsConfigMap(json)
    ensures var w := Leftover(openUntil);
            var left := [w.pools[Key("a", "b")]];
            && Listing(w, Key("a", "old"), left, left)
            && var (w', outcome) := Reconcile(w, Key("a", "old"), left, left, api, Renders(json));
            && outcome == Done && Entry(w'.configMaps, "a", AGENT_CONFIG_KEY) == Some("old")
  {
    hide ConfigGenerator.Generated, Reconcile, Listing;
    LeftoverListed(openUntil);
    var w := Leftover(openUntil);
    var left := [w.pools[Key("a", "b")]];
    assert Renders(json).OperatorNamespace("a") == "a" by { assert TrimSpace("") == ""; }
    assert Renders(json).host == Renders("").host;
    DeletionSkipsPublishing(w, Key("a", "old"), left, left, api, Renders(json));
  }

  /** Such circuits and such texts exist. */
  lemma SkippingOccurs() returns (api: Api, json: string)
    ensures api.NoFaults() && !FitsConfigMap(json)
    ensures IsOpen(Leftover(map["a" := OPEN_INTERVAL]).breaker, "a", api.checked)
  {
    api := Api(false, false, false, false, false, false, false, 1, 1, 1);
    json := seq(MAX_AGENT_CONFIG_JSON_BYTES, _ => 'x');
  }
}
