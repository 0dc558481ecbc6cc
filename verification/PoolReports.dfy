/** What a reconcile reports, writes and asks for in each case, read off the raw pool, the API's verdicts and
    plain numbers. */
module PoolReports {
  import opened Text
  import opened Engine
  import opened Objects
  import ConfigGenerator
  import PoolValidation
  import opened Pools
  import opened PoolSelection
  import opened CircuitBreaker
  import Metric = ActivePoolMetric
  import opened PoolReconcile

  // ---------------------------------------------------------------- names and numbers

  /** 1 MiB less 4 KiB, for the text and its key "config.json". */
  lemma SizesMean(json: string)
    ensures FitsConfigMap(json) <==> |json| + 11 <= 1048576 - 4096
    ensures AGENT_CONFIG_KEY == "config.json" && OPEN_INTERVAL == 30_000_000_000 && FAILURE_THRESHOLD == 3
  {
  }

  lemma OperatorNamespaceMeans(backend: Backend, ns: string)
    ensures AllSpace(backend.podNamespace) ==> backend.OperatorNamespace(ns) == ns
    ensures !AllSpace(backend.podNamespace) ==> backend.OperatorNamespace(ns) == TrimSpace(backend.podNamespace)
  {
    ConfigGenerator.BlankMeans(backend.podNamespace);
  }

  /** The stamp is the revision the pool had, under this key; a stamped pool keeps its stamp. */
  lemma StampMeans(p: Pool)
    ensures var key := "dns.astradns.com/initial-resource-version";
            && Stamp(p).annotations ==
                 (if key in p.annotations then p.annotations else p.annotations[key := p.resourceVersion])
            && Stamp(p) == p.(annotations := Stamp(p).annotations)
            && (key !in p.annotations ==> InitialRV(p) == 0)
            && (key in p.annotations && ParseInt64(p.annotations[key]).None? ==> InitialRV(p) == 0)
            && (key in p.annotations && ParseInt64(p.annotations[key]).Some? ==>
                  InitialRV(p) == ParseInt64(p.annotations[key]).value)
  {
  }

  /** The reason that goes with a selection. */
  lemma SelectionReasonMeans(count: nat)
    ensures Metric.SelectionReason(count) == if count >= 2 then "oldest_pool" else "single_pool"
  {
  }

  // ---------------------------------------------------------------- a pool that exists

  /** Whether the circuit in front of the ConfigMap is open when the run asks. */
  predicate CircuitIsOpen(w: World, key: Key, api: Api, backend: Backend) {
    var target := backend.OperatorNamespace(key.ns);
    target in w.breaker.openUntil && api.checked <= w.breaker.openUntil[target]
  }

  /** The text to publish for an acceptable pool, before its size is looked at. */
  function Encoded(w: World, key: Key, spec: PoolSpec, backend: Backend): Option<string> {
    var g := ConfigGenerator.Generated(spec, Profile(w, key.ns), backend.host);
    if g.Ok? && backend.renders(g.value) then backend.encode(g.value) else None
  }

  /** What a run that has come to publishing has to report on the pool, and how it ends if it can report that. */
  ghost function DueOnPublishing(w: World, key: Key, spec: PoolSpec, api: Api, backend: Backend): (Reason, Outcome) {
    var g := ConfigGenerator.Generated(spec, Profile(w, key.ns), backend.host);
    if api.profile then (ProfileLookupFailed, Failed)
    else if g.Err? then (ConfigGenerationFailed, Done)
    else if !backend.renders(g.value) then (ValidationFailed, Done)
    else match Encoded(w, key, spec, backend)
      case None => (MarshalFailed, Done)
      case Some(json) =>
        if |json| + 11 > 1044480 then (ConfigTooLarge, Done)
        else if CircuitIsOpen(w, key, api, backend) then (ConfigMapCircuitOpen, RequeueAfter(30_000_000_000))
        else if api.write then (ConfigMapUpdateFailed, Failed)
        else (Ready, Done)
  }

  /** The same for the whole run; None if there is nothing to report. */
  ghost function Due(w: World, key: Key, first: bool, api: Api, backend: Backend): (Option<Reason>, Outcome)
    requires key in w.pools
  {
    var p := w.pools[key];
    if api.get || (api.stamp && "dns.astradns.com/initial-resource-version" !in p.annotations) then (None, Failed)
    else if !PoolValidation.Acceptable(p.spec, backend.host) then (Some(InvalidSpec), Done)
    else if api.list then (None, Failed)
    else if !first then (Some(Superseded), Done)
    else var (reason, due) := DueOnPublishing(w, key, p.spec, api, backend); (Some(reason), due)
  }

  /** What `w'` and `outcome` are if `reason` is reported on the pool: a status that cannot be written fails the
      run; config.json is written just before Ready is reported; and the breaker hears of the attempt to write. */
  ghost predicate Reports(w: World, w': World, outcome: Outcome, key: Key, spec: PoolSpec, reason: Option<Reason>,
                          due: Outcome, api: Api, backend: Backend)
    requires key in w.pools
  {
    var target := backend.OperatorNamespace(key.ns);
    && outcome == (if reason.Some? && api.status then Failed else due)
    && key in w'.pools
    && w'.pools[key].condition ==
         (if reason.None? || api.status then w.pools[key].condition
          else Some(Condition(reason == Some(Ready), reason.value)))
    && (reason == Some(Ready) ==>
          Encoded(w, key, spec, backend).Some?
          && w'.configMaps == WithConfig(w.configMaps, target, Encoded(w, key, spec, backend).value))
    && (reason != Some(Ready) ==> w'.configMaps == w.configMaps)
    && w'.breaker == if reason in {Some(Ready), Some(ConfigMapUpdateFailed), Some(ConfigMapCircuitOpen)}
                     then AfterCall(w.breaker, Call(target, api.checked, !api.write, api.t1, api.t2)) else w.breaker
  }

  lemma PublishReports(w: World, key: Key, api: Api, backend: Backend)
    requires key in w.pools
    ensures var (w', outcome) := Publish(w, key, api, backend);
            var (reason, due) := DueOnPublishing(w, key, w.pools[key].spec, api, backend);
            Reports(w, w', outcome, key, w.pools[key].spec, Some(reason), due, api, backend) && w'.metrics == w.metrics
  {
    hide ConfigGenerator.Generated, UpsertWithBreaker, AfterCall, WithConfig;
    var json := Encoded(w, key, w.pools[key].spec, backend);
    if json.Some? {
      UpsertReports(w, key, json.value, api, backend);
    }
  }

  lemma UpsertReports(w: World, key: Key, json: string, api: Api, backend: Backend)
    ensures var target := backend.OperatorNamespace(key.ns);
            var (w', upsert) := UpsertWithBreaker(w, target, json, api);
            && (upsert == CircuitOpen <==> CircuitIsOpen(w, key, api, backend))
            && (upsert == WriteFailed <==> !CircuitIsOpen(w, key, api, backend) && api.write)
            && w'.configMaps == (if upsert == Written then WithConfig(w.configMaps, target, json) else w.configMaps)
            && w'.breaker == AfterCall(w.breaker, Call(target, api.checked, !api.write, api.t1, api.t2))
            && w'.pools == w.pools && w'.metrics == w.metrics
  {
    hide RecordFailure, Reset, WithConfig;
  }

  /** The run's outcome, the pool's condition, the ConfigMaps and the breaker, case by case. */
  lemma ReconcileReports(w: World, key: Key, items: seq<Pool>, sorted: seq<Pool>, api: Api, backend: Backend)
    requires Listing(w, key, items, sorted) && key in w.pools
    ensures var (w', outcome) := Reconcile(w, key, items, sorted, api, backend);
            var (reason, due) := Due(w, key, sorted != [] && sorted[0].name == key.name, api, backend);
            Reports(w, w', outcome, key, w.pools[key].spec, reason, due, api, backend)
  {
    hide Publish, DueOnPublishing, PoolValidation.ValidSpec, PoolValidation.Acceptable, Listing, WithConfig, AfterCall,
         Metric.Record, ConfigGenerator.Generated;
    ListingMembers(w, key, items, sorted);
    FirstMeans(w, key, items, sorted);
    PoolValidation.ValidSpecMeans(w.pools[key].spec, backend.host);
    var selected := WithSelection(Stamped(w, key), key.ns, sorted);
    PublishReports(selected, key, api, backend);
    SameDue(w, selected, key, w.pools[key].spec, api, backend);
  }

  lemma SameDue(w: World, w': World, key: Key, spec: PoolSpec, api: Api, backend: Backend)
    requires w'.profiles == w.profiles && w'.breaker == w.breaker
    ensures DueOnPublishing(w', key, spec, api, backend) == DueOnPublishing(w, key, spec, api, backend)
    ensures Encoded(w', key, spec, backend) == Encoded(w, key, spec, backend)
  {
    hide ConfigGenerator.Generated;
  }

  lemma FirstMeans(w: World, key: Key, items: seq<Pool>, sorted: seq<Pool>)
    requires Listing(w, key, items, sorted) && key in w.pools
    ensures sorted != [] && w.pools[key].name == key.name
    ensures |sorted| <= 1 ==> sorted[0].name == key.name
  {
    ListingMembers(w, key, items, sorted);
    SelectedIsFirst(w, key, items, sorted);
  }

  /** A pool that is not acceptable is not published, nor selected, nor counted, whatever fails; without
      failures the run says InvalidSpec and is done. */
  lemma InvalidPoolStops(w: World, key: Key, items: seq<Pool>, sorted: seq<Pool>, api: Api, backend: Backend)
    requires Listing(w, key, items, sorted) && key in w.pools
    requires !PoolValidation.Acceptable(w.pools[key].spec, backend.host)
    ensures var (w', outcome) := Reconcile(w, key, items, sorted, api, backend);
            && w'.configMaps == w.configMaps && w'.breaker == w.breaker && w'.metrics == w.metrics
            && (api.NoFaults() ==>
                  outcome == Done && key in w'.pools && w'.pools[key].condition == Some(Condition(false, InvalidSpec)))
  {
    hide Publish, PoolValidation.ValidSpec, PoolValidation.Acceptable, Listing;
    ListingMembers(w, key, items, sorted);
    PoolValidation.ValidSpecMeans(w.pools[key].spec, backend.host);
  }

  /** A run leaves a pool with a new Ready=True exactly if the pool is acceptable and the first of its listing,
      its configuration is rendered, encoded and small enough, the circuit is closed, and no call fails; then
      it has published that configuration. */
  lemma ReadyIff(w: World, key: Key, items: seq<Pool>, sorted: seq<Pool>, api: Api, backend: Backend)
    requires Listing(w, key, items, sorted) && key in w.pools && w.pools[key].condition != Some(Condition(true, Ready))
    ensures var (w', outcome) := Reconcile(w, key, items, sorted, api, backend);
            var json := Encoded(w, key, w.pools[key].spec, backend);
            var target := backend.OperatorNamespace(key.ns);
            && key in w'.pools
            && (w'.pools[key].condition == Some(Condition(true, Ready)) <==>
                  && PoolValidation.Acceptable(w.pools[key].spec, backend.host)
                  && sorted != [] && sorted[0].name == key.name
                  && json.Some? && |json.value| <= 1044469 && !CircuitIsOpen(w, key, api, backend)
                  && !api.get && !api.list && !api.profile && !api.write && !api.status
                  && !(api.stamp && "dns.astradns.com/initial-resource-version" !in w.pools[key].annotations))
            && (w'.pools[key].condition == Some(Condition(true, Ready)) ==>
                  outcome == Done && Entry(w'.configMaps, target, "config.json") == json)
  {
    hide Reconcile, Listing, ConfigGenerator.Generated, PoolValidation.Acceptable;
    ReconcileReports(w, key, items, sorted, api, backend);
  }

  // ---------------------------------------------------------------- a pool that is gone

  /** What the run for a deleted pool has to report on the first pool that is left. */
  ghost function DueAfterDeletion(w: World, key: Key, left: Pool, api: Api, backend: Backend): (Option<Reason>,
      Outcome) {
    if api.get || api.list || api.profile then (None, Failed)
    else match Encoded(w, key, left.spec, backend)
      case None => (None, Failed)
      case Some(json) =>
        if |json| + 11 > 1044480 then (Some(ConfigTooLarge), Done)
        else if CircuitIsOpen(w, key, api, backend) then (Some(ConfigMapCircuitOpen), Done)
        else if api.write then (None, Failed)
        else (Some(Ready), Done)
  }

  lemma DeletionReports(w: World, key: Key, items: seq<Pool>, sorted: seq<Pool>, api: Api, backend: Backend)
    requires Listing(w, key, items, sorted) && key !in w.pools && sorted != []
    ensures var (w', outcome) := Reconcile(w, key, items, sorted, api, backend);
            var left := Key(key.ns, sorted[0].name);
            var (reason, due) := DueAfterDeletion(w, key, sorted[0], api, backend);
            && left in w.pools && left in w'.pools
            && outcome == (if reason.Some? && api.status then Failed else due)
            && w'.pools[left].condition ==
                 (if reason.None? || api.status then w.pools[left].condition
                  else Some(Condition(reason == Some(Ready), reason.value)))
            && (reason == Some(Ready) ==>
                  Encoded(w, key, sorted[0].spec, backend).Some?
                  && w'.configMaps == WithConfig(w.configMaps, backend.OperatorNamespace(key.ns),
                                                 Encoded(w, key, sorted[0].spec, backend).value))
            && (reason != Some(Ready) ==> w'.configMaps == w.configMaps)
  {
    hide ConfigGenerator.Generated, UpsertWithBreaker, AfterCall, Metric.Record, Listing, WithConfig, Encoded;
    ListingMembers(w, key, items, sorted);
    var selected := WithSelection(w, key.ns, sorted);
    var json := Encoded(w, key, sorted[0].spec, backend);
    if json.Some? {
      UpsertReports(selected, key, json.value, api, backend);
    }
    EncodedMeans(w, key, sorted[0].spec, backend);
  }

  lemma EncodedMeans(w: World, key: Key, spec: PoolSpec, backend: Backend)
    ensures var g := ConfigGenerator.Generated(spec, Profile(w, key.ns), backend.host);
            Encoded(w, key, spec, backend) == if g.Ok? && backend.renders(g.value) then backend.encode(g.value)
                else None
  {
  }

  // ---------------------------------------------------------------- the gauge

  /** The gauge shows the first pool of the listing, as the single or the oldest one, once a run has listed an
      acceptable pool's namespace; it shows none for a namespace without pools. */
  lemma GaugeAfter(w: World, key: Key, items: seq<Pool>, sorted: seq<Pool>, api: Api, backend: Backend)
    requires Listing(w, key, items, sorted) && !api.get && !api.list && key.ns != ""
    requires sorted != [] ==> sorted[0].name != ""
    requires key in w.pools ==>
               && PoolValidation.Acceptable(w.pools[key].spec, backend.host)
               && !(api.stamp && "dns.astradns.com/initial-resource-version" !in w.pools[key].annotations)
    ensures var m := Reconcile(w, key, items, sorted, api, backend).0.metrics;
            && (sorted == [] ==> key.ns !in m.shadow)
            && (sorted != [] ==>
                  key.ns in m.shadow
                  && m.shadow[key.ns] == Metric.Selection(sorted[0].name,
                                                          if |items| >= 2 then "oldest_pool" else "single_pool"))
  {
    hide ReconcileExisting, AfterDeletion, PoolValidation.Acceptable, Listing, Metric.Record;
    ListingMembers(w, key, items, sorted);
    if sorted != [] {
      RecordedSelection(w.metrics, key.ns, sorted);
    }
    if key in w.pools {
      FirstMeans(w, key, items, sorted);
      ExistingMetrics(w, key, sorted, api, backend);
    } else {
      DeletionMetrics(w, key.ns, sorted, api, backend);
    }
  }

  lemma ExistingMetrics(w: World, key: Key, sorted: seq<Pool>, api: Api, backend: Backend)
    requires key in w.pools && !api.list && (!api.stamp || HasStamp(w.pools[key]))
    requires PoolValidation.Acceptable(w.pools[key].spec, backend.host)
    ensures ReconcileExisting(w, key, sorted, api, backend).0.metrics == WithSelection(w, key.ns, sorted).metrics
  {
    hide Publish, PoolValidation.ValidSpec, PoolValidation.Acceptable, DueOnPublishing, Reports, Metric.Record;
    PoolValidation.ValidSpecMeans(w.pools[key].spec, backend.host);
    PublishReports(WithSelection(Stamped(w, key), key.ns, sorted), key, api, backend);
  }

  lemma DeletionMetrics(w: World, ns: string, sorted: seq<Pool>, api: Api, backend: Backend)
    requires !api.list && (sorted != [] ==> Key(ns, sorted[0].name) in w.pools)
    ensures AfterDeletion(w, ns, sorted, api, backend).0.metrics ==
            if sorted == [] then Metric.Clear(w.metrics, ns) else WithSelection(w, ns, sorted).metrics
  {
    hide ConfigGenerator.Generated, UpsertWithBreaker, Metric.Record, Metric.Clear, WithoutConfig;
    UpsertKeepsMetrics();
  }

  lemma UpsertKeepsMetrics()
    ensures forall w, ns, json, api {:trigger UpsertWithBreaker(w, ns, json, api)} ::
              UpsertWithBreaker(w, ns, json, api).0.metrics == w.metrics
              && UpsertWithBreaker(w, ns, json, api).0.pools == w.pools
  {
  }

  lemma RecordedSelection(m: Metric.Metrics, ns: string, sorted: seq<Pool>)
    requires ns != "" && sorted != [] && sorted[0].name != ""
    ensures var m' := Metric.Record(m, ns, sorted[0].name, Metric.SelectionReason(|sorted|));
            && ns in m'.shadow
            && m'.shadow[ns] == Metric.Selection(sorted[0].name, if |sorted| >= 2 then "oldest_pool" else "single_pool")
  {
    TrimSpaceFacts("oldest_pool");
    TrimSpaceFacts("single_pool");
  }
}
