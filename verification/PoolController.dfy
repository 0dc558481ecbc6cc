/** DNSUpstreamPoolReconciler: the reconciler's own maps and the cluster objects it writes, changed step
    by step and proved against PoolReconcile. */
module PoolController {
  import opened Text
  import opened Engine
  import opened Objects
  import ConfigGenerator
  import PoolValidation
  import opened Pools
  import opened PoolSelection
  import opened CircuitBreaker
  import Metric = ActivePoolMetric
  import opened PoolReconcile

  class DNSUpstreamPoolReconciler {
    const backend: Backend

    // the objects in the cluster
    var pools: map<Key, Pool>
    var profiles: map<string, ProfileSpec>
    var configMaps: ConfigMaps
    var gauge: map<Metric.Labels, int>

    // the reconciler's own state
    var configMapFailureCounts: map<string, int>
    var configMapCircuitOpenUntil: map<string, int>
    var activePoolMetricState: map<string, Metric.Selection>

    function World(): World
      reads this
    {
      PoolReconcile.World(pools, profiles, configMaps, Breaker(configMapFailureCounts, configMapCircuitOpenUntil),
                          Metric.Metrics(activePoolMetricState, gauge))
    }

    constructor (backend: Backend, pools: map<Key, Pool>, profiles: map<string, ProfileSpec>, configMaps: ConfigMaps)
      ensures World() == PoolReconcile.World(pools, profiles, configMaps, Breaker(map[], map[]),
              Metric.Metrics(map[], map[]))
      ensures this.backend == backend
    {
      this.backend := backend;
      this.pools, this.profiles, this.configMaps := pools, profiles, configMaps;
      gauge, configMapFailureCounts, configMapCircuitOpenUntil, activePoolMetricState := map[], map[], map[], map[];
    }

    method IsConfigMapCircuitOpen(ns: string, now: int) returns (open: bool)
      modifies this`configMapCircuitOpenUntil
      ensures open == IsOpen(old(World().breaker), ns, now)
      ensures World() == old(World()).(breaker := Check(old(World().breaker), ns, now))
    {
      if ns !in configMapCircuitOpenUntil {
        return false;
      }
      if now > configMapCircuitOpenUntil[ns] {
        configMapCircuitOpenUntil := configMapCircuitOpenUntil - {ns};
        return false;
      }
      open := true;
    }

    method RecordConfigMapUpdateFailure(ns: string, t1: int, t2: int)
      modifies this`configMapCircuitOpenUntil, this`configMapFailureCounts
      ensures World() == old(World()).(breaker := RecordFailure(old(World().breaker), ns, t1, t2))
    {
      if ns in configMapCircuitOpenUntil {
        if t1 < configMapCircuitOpenUntil[ns] {
          return;
        }
        configMapCircuitOpenUntil := configMapCircuitOpenUntil - {ns};
      }
      assert configMapCircuitOpenUntil == old(configMapCircuitOpenUntil) - {ns};
      var nextFailureCount := 1 + if ns in configMapFailureCounts then configMapFailureCounts[ns] else 0;
      if nextFailureCount >= FAILURE_THRESHOLD {
        configMapCircuitOpenUntil := configMapCircuitOpenUntil[ns := t2 + OPEN_INTERVAL];
        configMapFailureCounts := configMapFailureCounts[ns := 0];
        return;
      }
      configMapFailureCounts := configMapFailureCounts[ns := nextFailureCount];
    }

    method ResetConfigMapUpdateFailures(ns: string)
      modifies this`configMapCircuitOpenUntil, this`configMapFailureCounts
      ensures World() == old(World()).(breaker := Reset(old(World().breaker), ns))
    {
      configMapFailureCounts := configMapFailureCounts - {ns};
      configMapCircuitOpenUntil := configMapCircuitOpenUntil - {ns};
    }

    method UpsertConfigMap(ns: string, json: string, fails: bool) returns (ok: bool)
      modifies this`configMaps
      ensures ok == !fails
      ensures World() == old(World()).(
                configMaps := if ok then WithConfig(old(configMaps), ns, json) else old(configMaps))
    {
      if fails {
        return false;
      }
      var data := if ns in configMaps then configMaps[ns] else map[];
      configMaps := configMaps[ns := data[AGENT_CONFIG_KEY := json]];
      ok := true;
    }

    method UpsertConfigMapWithCircuitBreaker(ns: string, json: string, api: Api) returns (u: Upsert)
      modifies this`configMaps, this`configMapCircuitOpenUntil, this`configMapFailureCounts
      ensures (World(), u) == UpsertWithBreaker(old(World()), ns, json, api)
    {
      hide WithConfig, RecordFailure, Reset;
      var open := IsConfigMapCircuitOpen(ns, api.checked);
      if open {
        return CircuitOpen;
      }
      var ok := UpsertConfigMap(ns, json, api.write);
      if !ok {
        RecordConfigMapUpdateFailure(ns, api.t1, api.t2);
        return WriteFailed;
      }
      ResetConfigMapUpdateFailures(ns);
      u := Written;
    }

    method RemoveConfigKey(ns: string, getFails: bool, writeFails: bool) returns (ok: bool)
      modifies this`configMaps
      ensures ok == !(getFails || (ns in old(configMaps) && writeFails))
      ensures World() == old(World()).(
                configMaps :=
                  if ok && ns in old(configMaps) then WithoutConfig(old(configMaps), ns) else old(configMaps))
    {
      if getFails {
        return false;
      }
      if ns !in configMaps {
        return true;
      }
      if writeFails {
        return false;
      }
      configMaps := configMaps[ns := configMaps[ns] - {AGENT_CONFIG_KEY}];
      ok := true;
    }

    method RecordActivePoolSelectionMetric(ns: string, pool: string, reason: string)
      modifies this`gauge, this`activePoolMetricState
      ensures World() == old(World()).(metrics := Metric.Record(old(World().metrics), ns, pool, reason))
    {
      if ns == "" || pool == "" {
        return;
      }
      var selectionReason := reason;
      if TrimSpace(selectionReason) == "" {
        selectionReason := Metric.SINGLE_POOL;
      }
      var selection := Metric.Selection(pool, selectionReason);
      if ns in activePoolMetricState {
        var previous := activePoolMetricState[ns];
        if previous.pool == pool && previous.reason == selectionReason {
          gauge := gauge[Metric.Labels(ns, selection) := 1];
          return;
        }
        gauge := gauge - {Metric.Labels(ns, previous)};
      }
      gauge := gauge[Metric.Labels(ns, selection) := 1];
      activePoolMetricState := activePoolMetricState[ns := selection];
    }

    method ClearActivePoolSelectionMetric(ns: string)
      modifies this`gauge, this`activePoolMetricState
      ensures World() == old(World()).(metrics := Metric.Clear(old(World().metrics), ns))
    {
      if ns == "" || ns !in activePoolMetricState {
        return;
      }
      gauge := gauge - {Metric.Labels(ns, activePoolMetricState[ns])};
      activePoolMetricState := activePoolMetricState - {ns};
    }

    method SetReadyCondition(key: Key, condition: Condition, fails: bool) returns (ok: bool)
      requires key in pools
      modifies this`pools
      ensures ok == !fails
      ensures World() == if ok then WithCondition(old(World()), key, condition) else old(World())
    {
      if !fails {
        pools := pools[key := pools[key].(condition := Some(condition))];
      }
      ok := !fails;
    }

    /** setReadyCondition as the reconcilers use it: a failed status write fails the run. */
    method ReportCondition(key: Key, condition: Condition, api: Api, outcome: Outcome) returns (result: Outcome)
      requires key in pools
      modifies this`pools
      ensures (World(), result) == Report(old(World()), key, condition, api, outcome)
    {
      var ok := SetReadyCondition(key, condition, api.status);
      result := if ok then outcome else Failed;
    }

    method EnsureInitialRVAnnotation(key: Key, fails: bool) returns (ok: bool)
      requires key in pools
      modifies this`pools
      ensures ok == (HasStamp(old(pools)[key]) || !fails)
      ensures World() == if ok then Stamped(old(World()), key) else old(World())
    {
      var pool := pools[key];
      if INITIAL_RV_ANNOTATION in pool.annotations {
        assert pools == pools[key := pools[key]];
        return true;
      }
      if fails {
        return false;
      }
      pools := pools[key := pool.(annotations := pool.annotations[INITIAL_RV_ANNOTATION := pool.resourceVersion])];
      ok := true;
    }

    method GetDefaultCacheProfile(ns: string) returns (profile: Option<ProfileSpec>)
      ensures profile == Profile(World(), ns)
    {
      profile := if ns in profiles then Some(profiles[ns]) else None;
    }

    /** Sorts a listing and records the selection; selectActivePoolName and the metric call after it. */
    method SelectActivePool(ns: string, items: array<Pool>)
      modifies items, this`gauge, this`activePoolMetricState
      ensures SortOutcome(old(items[..]), items[..])
      ensures World() == WithSelection(old(World()), ns, items[..])
    {
      hide SortOutcome, Metric.Record;
      SortPoolsForSelection(items);
      if items.Length > 0 {
        var reason := Metric.SINGLE_POOL;
        if items.Length > 1 {
          reason := Metric.OLDEST_POOL;
        }
        RecordActivePoolSelectionMetric(ns, items[0].name, reason);
      }
    }

    /** The part of Reconcile from the profile lookup on. */
    method PublishConfig(key: Key, api: Api) returns (outcome: Outcome)
      requires key in pools
      modifies this
      ensures (World(), outcome) == Publish(old(World()), key, api, backend)
    {
      hide Report, UpsertWithBreaker, ConfigGenerator.Generated, FitsConfigMap;
      if api.profile {
        outcome := ReportCondition(key, Condition(false, ProfileLookupFailed), api, Failed);
        return;
      }
      var profile := GetDefaultCacheProfile(key.ns);
      var generated := ConfigGenerator.Generate(pools[key].spec, profile, backend.host);
      if generated.Err? {
        outcome := ReportCondition(key, Condition(false, ConfigGenerationFailed), api, Done);
        return;
      }
      if !backend.renders(generated.value) {
        outcome := ReportCondition(key, Condition(false, ValidationFailed), api, Done);
        return;
      }
      var encoded := backend.encode(generated.value);
      if encoded.None? {
        outcome := ReportCondition(key, Condition(false, MarshalFailed), api, Done);
        return;
      }
      if !FitsConfigMap(encoded.value) {
        outcome := ReportCondition(key, Condition(false, ConfigTooLarge), api, Done);
        return;
      }
      var upsert := UpsertConfigMapWithCircuitBreaker(backend.OperatorNamespace(key.ns), encoded.value, api);
      match upsert {
        case Written => outcome := ReportCondition(key, Condition(true, Ready), api, Done);
        case WriteFailed => outcome := ReportCondition(key, Condition(false, ConfigMapUpdateFailed), api, Failed);
        case CircuitOpen =>
          outcome := ReportCondition(key, Condition(false, ConfigMapCircuitOpen), api, RequeueAfter(OPEN_INTERVAL));
      }
    }

    /** `items` is the listing of the namespace, in whatever order the API returned it. */
    method ReconcileAfterPoolDeletion(ns: string, items: array<Pool>, api: Api) returns (outcome: Outcome)
      requires forall p :: p in items[..] ==> Key(ns, p.name) in pools
      modifies this, items
      ensures api.list || SortOutcome(old(items[..]), items[..])
      ensures items[..] != [] ==> Key(ns, items[0].name) in old(pools)
      ensures (World(), outcome) == AfterDeletion(old(World()), ns, items[..], api, backend)
    {
      hide Report, UpsertWithBreaker, ConfigGenerator.Generated, FitsConfigMap, Metric.Clear, Metric.Record;
      if api.list {
        assert items[..] != [] ==> items[0] in items[..];
        return Failed;
      }
      var target := backend.OperatorNamespace(ns);
      if items.Length == 0 {
        assert SortOutcome(items[..], items[..]);
        ClearActivePoolSelectionMetric(ns);
        var ok := RemoveConfigKey(target, api.configMap, api.write);
        return if ok then Done else Failed;
      }
      SelectActivePool(ns, items);
      assert items[0] in multiset(old(items[..]));
      var key := Key(ns, items[0].name);
      if api.profile {
        return Failed;
      }
      var profile := GetDefaultCacheProfile(ns);
      var generated := ConfigGenerator.Generate(items[0].spec, profile, backend.host);
      if generated.Err? || !backend.renders(generated.value) {
        return Failed;
      }
      var encoded := backend.encode(generated.value);
      if encoded.None? {
        return Failed;
      }
      if !FitsConfigMap(encoded.value) {
        outcome := ReportCondition(key, Condition(false, ConfigTooLarge), api, Done);
        return;
      }
      var upsert := UpsertConfigMapWithCircuitBreaker(target, encoded.value, api);
      match upsert {
        case Written => outcome := ReportCondition(key, Condition(true, Ready), api, Done);
        case WriteFailed => outcome := Failed;
        case CircuitOpen => outcome := ReportCondition(key, Condition(false, ConfigMapCircuitOpen), api, Done);
      }
    }

    /** Reconcile for a pool that exists. */
    method ReconcilePool(key: Key, items: array<Pool>, api: Api) returns (outcome: Outcome, ghost sorted: seq<Pool>)
      requires key in pools
      modifies this, items
      ensures SortOutcome(old(items[..]), sorted)
      ensures (World(), outcome) == ReconcileExisting(old(World()), key, sorted, api, backend)
    {
      hide Report, Publish, PoolValidation.ValidSpec, SortOutcome, Metric.Record;
      sorted := SortOutcomeExists(items[..]);
      var stamped := EnsureInitialRVAnnotation(key, api.stamp);
      if !stamped {
        return Failed, sorted;
      }
      var invalid := PoolValidation.ValidateDNSUpstreamPool(pools[key].spec, backend.host);
      if invalid.Some? {
        outcome := ReportCondition(key, Condition(false, InvalidSpec), api, Done);
        return;
      }
      if api.list {
        return Failed, sorted;
      }
      SelectActivePool(key.ns, items);
      sorted := items[..];
      if items.Length > 1 && pools[key].name != items[0].name {
        outcome := ReportCondition(key, Condition(false, Superseded), api, Done);
        return;
      }
      outcome := PublishConfig(key, api);
    }

    /** One run of the reconciler does what PoolReconcile.Reconcile says for some outcome of its sort. */
    method Reconcile(key: Key, items: array<Pool>, api: Api) returns (outcome: Outcome, ghost sorted: seq<Pool>)
      requires NamesOk(World()) && ListsNamespace(ListedState(World(), key), key.ns, items[..])
      modifies this, items
      ensures Listing(old(World()), key, old(items[..]), sorted)
      ensures (World(), outcome) == PoolReconcile.Reconcile(old(World()), key, old(items[..]), sorted, api, backend)
    {
      hide ReconcileExisting, AfterDeletion, SortOutcome;
      sorted := SortOutcomeExists(items[..]);
      if api.get {
        return Failed, sorted;
      }
      if key in pools {
        outcome, sorted := ReconcilePool(key, items, api);
      } else {
        ListedNames(World(), key, items[..]);
        ListingMembers(World(), key, items[..], sorted);
        outcome := ReconcileAfterPoolDeletion(key.ns, items, api);
        if api.list {
          FailedListing(old(World()), key.ns, sorted, items[..], api, backend);
        } else {
          sorted := items[..];
        }
      }
    }
  }

  lemma ListedNames(w: World, key: Key, items: seq<Pool>)
    requires ListsNamespace(ListedState(w, key), key.ns, items) && key !in w.pools
    ensures forall p :: p in items ==> Key(key.ns, p.name) in w.pools
  {
  }

  /** When the listing fails, its contents do not matter. */
  lemma FailedListing(w: World, ns: string, sorted: seq<Pool>, items: seq<Pool>, api: Api, backend: Backend)
    requires api.list
    requires sorted != [] ==> Key(ns, sorted[0].name) in w.pools
    requires items != [] ==> Key(ns, items[0].name) in w.pools
    ensures AfterDeletion(w, ns, sorted, api, backend) == AfterDeletion(w, ns, items, api, backend)
  {
  }
}
