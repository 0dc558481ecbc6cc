/** Any sequence of reconciles that covers every pool of a stable namespace brings its ConfigMap, its
    conditions and its metric to one determined state, where they stay. */
module PoolConvergence {
  import opened Text
  import opened Engine
  import opened Objects
  import ConfigGenerator
  import PoolValidation
  import opened Pools
  import opened PoolSelection
  import opened CircuitBreaker
  import Metric = ActivePoolMetric
  import opened PoolReconcile

  /** One run of the reconciler, with the listing it works on. */
  datatype Visit = Visit(key: Key, items: seq<Pool>, sorted: seq<Pool>, api: Api)

  ghost predicate Possible(w: World, v: Visit) { Listing(w, v.key, v.items, v.sorted) }

  ghost function After(w: World, v: Visit, backend: Backend): World
    requires Possible(w, v)
  {
    Reconcile(w, v.key, v.items, v.sorted, v.api, backend).0
  }

  /** The pool `m` of namespace `ns` comes first, all pools of the namespace are stamped and valid, and
      `json` may be published for `m`. */
  ghost predicate Stable(w: World, ns: string, m: string, json: string, backend: Backend) {
    && ns != "" && m != "" && NamesOk(w) && Metric.Agrees(w.metrics)
    && Key(ns, m) in w.pools
    && Payload(w.pools[Key(ns, m)].spec, Profile(w, ns), backend) == Some(json)
    && forall k :: k in w.pools && k.ns == ns ==> StablePool(w, k, m, backend)
  }

  ghost predicate StablePool(w: World, k: Key, m: string, backend: Backend)
    requires k in w.pools && Key(k.ns, m) in w.pools
  {
    var p := w.pools[k];
    && p.creation != 0 && InitialRV(p) > 0 && PoolValidation.ValidSpec(p.spec, backend.host)
    && (k.name != m ==> SelectsBefore(w.pools[Key(k.ns, m)], p))
  }

  /** The breaker's entry for `target` is still the initial one, or gone. */
  predicate EntryFrom(b0: Breaker, b: Breaker, target: string) {
    target in b.openUntil ==> target in b0.openUntil && b.openUntil[target] == b0.openUntil[target]
  }

  function Expected(name: string, m: string): Condition {
    if name == m then Condition(true, Ready) else Condition(false, Superseded)
  }

  function PoolCount(w: World, ns: string): nat { |set k | k in w.pools && k.ns == ns| }

  function ExpectedReason(w: World, ns: string): string { Metric.SelectionReason(PoolCount(w, ns)) }

  // ---------------------------------------------------------------- one visit

  lemma {:induction false} CountListed(w: World, ns: string, items: seq<Pool>)
    requires NamesOk(w) && ListsNamespace(w, ns, items)
    ensures |items| == PoolCount(w, ns)
  {
    var keys := set k | k in w.pools && k.ns == ns;
    var listed := set i | 0 <= i < |items| :: Key(ns, items[i].name);
    assert forall k :: k in keys ==> k in listed by {
      forall k | k in keys ensures k in listed {
        var i :| 0 <= i < |items| && items[i] == w.pools[k];
        assert k == Key(ns, items[i].name);
      }
    }
    assert keys == listed;
    DistinctKeys(ns, items);
  }

  lemma {:induction false} DistinctKeys(ns: string, items: seq<Pool>)
    requires DistinctNames(items)
    ensures |set i | 0 <= i < |items| :: Key(ns, items[i].name)| == |items|
  {
    var all := set i | 0 <= i < |items| :: Key(ns, items[i].name);
    if items == [] {
      assert all == {};
    } else {
      var n := |items| - 1;
      var init := items[..n];
      DistinctKeys(ns, init);
      var fewer := set i | 0 <= i < |init| :: Key(ns, init[i].name);
      assert forall i :: 0 <= i < n ==> init[i] == items[i];
      assert all == fewer + {Key(ns, items[n].name)};
      assert Key(ns, items[n].name) !in fewer;
    }
  }

  lemma StampKept(w: World, key: Key, m: string, backend: Backend)
    requires key in w.pools && Key(key.ns, m) in w.pools && StablePool(w, key, m, backend)
    ensures Stamped(w, key) == w
  {
    hide SelectsBefore, PoolValidation.ValidSpec;
    assert HasStamp(w.pools[key]);
    assert w.pools[key := w.pools[key]] == w.pools;
  }

  lemma IncumbentIsFirst(w: World, ns: string, m: string, json: string, backend: Backend, items: seq<Pool>)
    requires Stable(w, ns, m, json, backend) && ListsNamespace(w, ns, items)
    ensures StrictOrder(items) && items != [] && IsFirst(items, w.pools[Key(ns, m)])
  {
    hide SelectsBefore, InitialRV, StrictOrder, PoolValidation.ValidSpec, Payload, Metric.Agrees;
    forall p | p in items
      ensures p.creation != 0 && InitialRV(p) > 0
      ensures p.name != m ==> SelectsBefore(w.pools[Key(ns, m)], p)
    {
      assert StablePool(w, Key(ns, p.name), m, backend);
    }
    UniformlyStampedOrder(items);
  }

  /** In a stable namespace every listing sorts `m` to the front. */
  lemma SortsFirst(w: World, v: Visit, m: string, json: string, backend: Backend)
    requires Stable(w, v.key.ns, m, json, backend) && Possible(w, v)
    ensures v.sorted != [] && v.sorted[0] == w.pools[Key(v.key.ns, m)]
    ensures |v.sorted| == PoolCount(w, v.key.ns)
    ensures v.key in w.pools ==> Stamped(w, v.key) == w
  {
    hide StrictOrder, IsFirst, Payload, Metric.Agrees, StablePool, Stamped, PoolCount;
    if v.key in w.pools {
      StampKept(w, v.key, m, backend);
    }
    IncumbentIsFirst(w, v.key.ns, m, json, backend, v.items);
    ListingMembers(w, v.key, v.items, v.sorted);
    CountListed(w, v.key.ns, v.items);
    FirstIsUnique(v.items, v.sorted[0], w.pools[Key(v.key.ns, m)]);
  }

  /** The state after a fault-free visit: of the incumbent or of a deleted pool ... */
  ghost function PublishedBy(w: World, ns: string, m: string, json: string, backend: Backend): World
    requires Key(ns, m) in w.pools
  {
    var target := backend.OperatorNamespace(ns);
    WithCondition(w, Key(ns, m), Expected(m, m)).(
      configMaps := WithConfig(w.configMaps, target, json),
      breaker := Reset(w.breaker, target),
      metrics := Metric.Record(w.metrics, ns, m, ExpectedReason(w, ns)))
  }

  /** ... and of any other pool. */
  ghost function SupersededBy(w: World, ns: string, name: string, m: string): World
    requires Key(ns, name) in w.pools
  {
    WithCondition(w, Key(ns, name), Expected(name, m)).(
      metrics := Metric.Record(w.metrics, ns, m, ExpectedReason(w, ns)))
  }

  lemma PayloadMeans(spec: PoolSpec, profile: Option<ProfileSpec>, backend: Backend, json: string)
    requires Payload(spec, profile, backend) == Some(json)
    ensures var g := ConfigGenerator.Generated(spec, profile, backend.host);
            g.Ok? && backend.renders(g.value) && backend.encode(g.value) == Some(json) && FitsConfigMap(json)
  {
  }

  lemma ResetAfterCheck(b: Breaker, ns: string, now: int)
    ensures Reset(Check(b, ns, now), ns) == Reset(b, ns)
  {
  }

  lemma ReasonOfCount(w: World, ns: string, n: nat)
    requires n == PoolCount(w, ns)
    ensures Metric.SelectionReason(n) == ExpectedReason(w, ns)
  {
  }

  /** A fault-free visit of a stable namespace with the circuit closed does exactly this. */
  lemma VisitEffect(w: World, v: Visit, m: string, json: string, backend: Backend)
    requires var ns := v.key.ns;
             && Stable(w, ns, m, json, backend) && Possible(w, v) && v.api.NoFaults()
             && !IsOpen(w.breaker, backend.OperatorNamespace(ns), v.api.checked)
    ensures var ns := v.key.ns;
            Reconcile(w, v.key, v.items, v.sorted, v.api, backend) ==
            (if v.key in w.pools && v.key.name != m then (SupersededBy(w, ns, v.key.name, m), Done)
             else (PublishedBy(w, ns, m, json, backend), Done))
  {
    var ns := v.key.ns;
    SortsFirst(w, v, m, json, backend);
    PayloadMeans(w.pools[Key(ns, m)].spec, Profile(w, ns), backend, json);
    ResetAfterCheck(w.breaker, backend.OperatorNamespace(ns), v.api.checked);
    if v.key in w.pools {
      assert StablePool(w, v.key, m, backend);
      if v.key.name != m {
        TwoPools(w, v.key, m);
      }
    }
    hide ConfigGenerator.Generated, Check, Reset, Metric.Record, Payload, PoolValidation.ValidSpec, SelectsBefore,
         FitsConfigMap, Listing, SortOutcome, ExpectedReason, PoolCount;
    assert Metric.SelectionReason(|v.sorted|) == ExpectedReason(w, ns) by { ReasonOfCount(w, ns, |v.sorted|); }
  }

  lemma TwoPools(w: World, k: Key, m: string)
    requires k in w.pools && Key(k.ns, m) in w.pools && k.name != m
    ensures PoolCount(w, k.ns) > 1
  {
    var keys := set k' | k' in w.pools && k'.ns == k.ns;
    assert {k, Key(k.ns, m)} <= keys;
    assert |keys - {k}| + 1 == |keys|;
    assert Key(k.ns, m) in keys - {k};
  }

  // ---------------------------------------------------------------- what a visit keeps

  /** The same pools up to their conditions, and the same profiles. */
  ghost predicate SamePools(w: World, w': World, ns: string) {
    && w.profiles == w'.profiles
    && (forall k: Key :: k.ns == ns ==> (k in w.pools <==> k in w'.pools))
    && (forall k :: k in w.pools && k.ns == ns ==> w'.pools[k] == w.pools[k].(condition := w'.pools[k].condition))
  }

  lemma StableKept(w: World, w': World, ns: string, m: string, json: string, backend: Backend)
    requires Stable(w, ns, m, json, backend) && SamePools(w, w', ns)
    requires NamesOk(w') && Metric.Agrees(w'.metrics)
    ensures Stable(w', ns, m, json, backend) && ExpectedReason(w', ns) == ExpectedReason(w, ns)
  {
    hide PoolValidation.ValidSpec, ParseInt64, Payload;
    forall k | k in w'.pools && k.ns == ns ensures StablePool(w', k, m, backend) {
      assert StablePool(w, k, m, backend);
    }
    assert (set k | k in w.pools && k.ns == ns) == (set k | k in w'.pools && k.ns == ns);
  }

  /** Everything that concerns namespace `ns`, when the operator writes to the pools' own namespaces. */
  ghost predicate SameFor(w: World, w': World, ns: string) {
    && (forall k: Key :: k.ns == ns ==> (k in w.pools <==> k in w'.pools))
    && (forall k :: k in w.pools && k.ns == ns ==> w'.pools[k] == w.pools[k])
    && w'.profiles == w.profiles
    && Entry(w'.configMaps, ns, AGENT_CONFIG_KEY) == Entry(w.configMaps, ns, AGENT_CONFIG_KEY)
    && SameCircuit(w.breaker, w'.breaker, ns)
    && (ns in w'.metrics.shadow <==> ns in w.metrics.shadow)
    && (ns in w.metrics.shadow ==> w'.metrics.shadow[ns] == w.metrics.shadow[ns])
  }

  /** A run elsewhere: nothing of `ns` changes, and names and gauge stay in order. */
  ghost predicate Frame(w: World, w': World, ns: string) {
    && SameFor(w, w', ns)
    && (NamesOk(w) ==> NamesOk(w'))
    && (Metric.Agrees(w.metrics) ==> Metric.Agrees(w'.metrics))
  }

  lemma ReportFrame(w: World, w': World, key: Key, condition: Condition, api: Api, outcome: Outcome, ns: string)
    requires Frame(w, w', ns) && key in w'.pools && key.ns != ns
    ensures Frame(w, Report(w', key, condition, api, outcome).0, ns)
  {
    hide Metric.Agrees;
  }

  lemma ReportsFrame(w: World, ns: string)
    ensures forall w', key, condition, api, outcome {:trigger Report(w', key, condition, api, outcome)} ::
              Frame(w, w', ns) && key in w'.pools && key.ns != ns ==>
                  Frame(w, Report(w', key, condition, api, outcome).0, ns)
  {
    forall w', key, condition, api, outcome | Frame(w, w', ns) && key in w'.pools && key.ns != ns
      ensures Frame(w, Report(w', key, condition, api, outcome).0, ns)
    {
      ReportFrame(w, w', key, condition, api, outcome, ns);
    }
  }

  lemma UpsertFrame(w: World, w': World, target: string, json: string, api: Api, ns: string)
    requires Frame(w, w', ns) && target != ns
    ensures var w'' := UpsertWithBreaker(w', target, json, api).0; Frame(w, w'', ns) && w''.pools == w'.pools
  {
    hide Frame, WithConfig, Entry, Check, RecordFailure, Reset, IsOpen;
    WithConfigElsewhere(w'.configMaps, target, json, ns);
    BreakerElsewhere(w'.breaker, target, api, ns);
    FrameExtends(w, w', UpsertWithBreaker(w', target, json, api).0, ns);
  }

  lemma FrameExtends(w: World, w': World, w'': World, ns: string)
    requires Frame(w, w', ns)
    requires w''.pools == w'.pools && w''.profiles == w'.profiles && w''.metrics == w'.metrics
    requires Entry(w''.configMaps, ns, AGENT_CONFIG_KEY) == Entry(w'.configMaps, ns, AGENT_CONFIG_KEY)
    requires SameCircuit(w'.breaker, w''.breaker, ns)
    ensures Frame(w, w'', ns)
  {
    hide Metric.Agrees, Entry;
  }

  predicate SameCircuit(b: Breaker, b': Breaker, ns: string) {
    && (ns in b'.openUntil <==> ns in b.openUntil) && (ns in b'.counts <==> ns in b.counts)
    && (ns in b.openUntil ==> b'.openUntil[ns] == b.openUntil[ns])
  }

  lemma WithConfigElsewhere(configMaps: ConfigMaps, target: string, json: string, ns: string)
    requires target != ns
    ensures Entry(WithConfig(configMaps, target, json), ns, AGENT_CONFIG_KEY) == Entry(configMaps, ns, AGENT_CONFIG_KEY)
  {
  }

  /** The circuits of two namespaces are independent. */
  lemma BreakerElsewhere(b: Breaker, target: string, api: Api, ns: string)
    requires target != ns
    ensures var checked := Check(b, target, api.checked);
            && SameCircuit(b, checked, ns) && SameCircuit(b, Reset(checked, target), ns)
            && SameCircuit(b, RecordFailure(checked, target, api.t1, api.t2), ns)
  {
  }

  lemma UpsertsFrame(w: World, ns: string)
    ensures forall w', target, json, api {:trigger UpsertWithBreaker(w', target, json, api)} ::
              Frame(w, w', ns) && target != ns ==>
                var w'' := UpsertWithBreaker(w', target, json, api).0; Frame(w, w'', ns) && w''.pools == w'.pools
  {
    forall w', target, json, api | Frame(w, w', ns) && target != ns
      ensures var w'' := UpsertWithBreaker(w', target, json, api).0; Frame(w, w'', ns) && w''.pools == w'.pools
    {
      UpsertFrame(w, w', target, json, api, ns);
    }
  }

  lemma SelectionFrame(w: World, w': World, other: string, sorted: seq<Pool>, ns: string)
    requires Frame(w, w', ns) && other != ns
    ensures Frame(w, WithSelection(w', other, sorted), ns)
  {
    if sorted != [] && Metric.Agrees(w.metrics) {
      Metric.CallKeepsAgreement(w'.metrics, Metric.RecordCall(other, sorted[0].name, Metric.SelectionReason(|sorted|)));
    }
    hide Metric.Agrees;
  }

  lemma SelectionPools(w: World, ns: string, sorted: seq<Pool>)
    ensures WithSelection(w, ns, sorted).pools == w.pools
  {
  }

  lemma StampFrame(w: World, key: Key, ns: string)
    requires key in w.pools && key.ns != ns
    ensures Frame(w, Stamped(w, key), ns) && Frame(w, w, ns)
  {
  }

  lemma PublishFrame(w: World, w': World, key: Key, api: Api, backend: Backend, ns: string)
    requires Frame(w, w', ns) && key in w'.pools && key.ns != ns && TrimSpace(backend.podNamespace) == ""
    ensures Frame(w, Publish(w', key, api, backend).0, ns)
  {
    ReportsFrame(w, ns);
    UpsertsFrame(w, ns);
    hide ConfigGenerator.Generated, Report, UpsertWithBreaker, Frame;
  }

  lemma ExistingFrame(w: World, key: Key, sorted: seq<Pool>, api: Api, backend: Backend, ns: string)
    requires key in w.pools && key.ns != ns && TrimSpace(backend.podNamespace) == ""
    ensures Frame(w, ReconcileExisting(w, key, sorted, api, backend).0, ns)
  {
    StampFrame(w, key, ns);
    SelectionFrame(w, Stamped(w, key), key.ns, sorted, ns);
    PublishFrame(w, WithSelection(Stamped(w, key), key.ns, sorted), key, api, backend, ns);
    ReportsFrame(w, ns);
    hide Publish, PoolValidation.ValidSpec, Report, Frame, Metric.Record;
  }

  lemma ClearFrame(w: World, other: string, ns: string)
    requires other != ns
    ensures Frame(w, w, ns)
    ensures Frame(w, w.(metrics := Metric.Clear(w.metrics, other)), ns)
    ensures Frame(w, w.(metrics := Metric.Clear(w.metrics, other), configMaps := WithoutConfig(w.configMaps, other)),
            ns)
  {
    hide Metric.Agrees;
    if Metric.Agrees(w.metrics) {
      Metric.CallKeepsAgreement(w.metrics, Metric.ClearCall(other));
    }
  }

  lemma DeletionFrame(w: World, other: string, sorted: seq<Pool>, api: Api, backend: Backend, ns: string)
    requires sorted != [] ==> Key(other, sorted[0].name) in w.pools
    requires other != ns && TrimSpace(backend.podNamespace) == ""
    ensures Frame(w, AfterDeletion(w, other, sorted, api, backend).0, ns)
  {
    hide ConfigGenerator.Generated, Report, UpsertWithBreaker, Frame, WithSelection, Metric.Clear, WithoutConfig,
         SameFor;
    ClearFrame(w, other, ns);
    if sorted != [] {
      SelectionFrame(w, w, other, sorted, ns);
      assert WithSelection(w, other, sorted).pools == w.pools by { SelectionPools(w, other, sorted); }
      ReportsFrame(w, ns);
      UpsertsFrame(w, ns);
    }
  }

  /** Whatever fails in it, a run for another namespace leaves this one alone. */
  lemma VisitElsewhere(w: World, v: Visit, backend: Backend, ns: string)
    requires Possible(w, v) && v.key.ns != ns && TrimSpace(backend.podNamespace) == ""
    ensures Frame(w, After(w, v, backend), ns)
  {
    hide ReconcileExisting, AfterDeletion, Frame, Listing;
    ListingMembers(w, v.key, v.items, v.sorted);
    ClearFrame(w, v.key.ns, ns);
    if v.key in w.pools {
      ExistingFrame(w, v.key, v.sorted, v.api, backend, ns);
    } else {
      DeletionFrame(w, v.key.ns, v.sorted, v.api, backend, ns);
    }
  }

  // ---------------------------------------------------------------- runs

  ghost predicate PossibleRun(w: World, visits: seq<Visit>, backend: Backend)
    decreases |visits|
  {
    visits == [] || (Possible(w, visits[0]) && PossibleRun(After(w, visits[0], backend), visits[1..], backend))
  }

  ghost function Run(w: World, visits: seq<Visit>, backend: Backend): World
    requires PossibleRun(w, visits, backend)
    decreases |visits|
  {
    if visits == [] then w else Run(After(w, visits[0], backend), visits[1..], backend)
  }

  /** The visits of namespace `ns` meet no API failure and find the circuit, as it was at first, closed. */
  predicate CalmVisit(b0: Breaker, ns: string, v: Visit) {
    v.key.ns == ns ==> v.api.NoFaults() && !IsOpen(b0, ns, v.api.checked)
  }

  /** config.json, the breaker and the condition of `m` are as a successful publication leaves them. */
  ghost predicate Published(w: World, ns: string, m: string, json: string) {
    && Key(ns, m) in w.pools && w.pools[Key(ns, m)].condition == Some(Expected(m, m))
    && Entry(w.configMaps, ns, AGENT_CONFIG_KEY) == Some(json)
    && ns !in w.breaker.openUntil && ns !in w.breaker.counts
  }

  /** What a visit under `name` leaves behind. */
  ghost predicate Settled(w: World, ns: string, m: string, json: string, name: string) {
    && ns in w.metrics.shadow && w.metrics.shadow[ns] == Metric.Selection(m, ExpectedReason(w, ns))
    && if Key(ns, name) in w.pools && name != m then w.pools[Key(ns, name)].condition == Some(Expected(name, m))
       else Published(w, ns, m, json)
  }

  ghost predicate Track(w0: World, w: World, ns: string, m: string, json: string, done: set<string>, backend: Backend) {
    && Stable(w, ns, m, json, backend)
    && EntryFrom(w0.breaker, w.breaker, ns)
    && (forall k: Key :: k.ns == ns ==> (k in w0.pools <==> k in w.pools))
    && forall name :: name in done ==> Settled(w, ns, m, json, name)
  }

  lemma RecordShows(metrics: Metric.Metrics, ns: string, m: string, count: nat)
    requires ns != "" && m != ""
    ensures var reason := Metric.SelectionReason(count);
            var metrics' := Metric.Record(metrics, ns, m, reason);
            ns in metrics'.shadow && metrics'.shadow[ns] == Metric.Selection(m, reason)
  {
    TrimSpaceFacts(Metric.SINGLE_POOL);
    TrimSpaceFacts(Metric.OLDEST_POOL);
    assert Trimmed(Metric.SINGLE_POOL) && Trimmed(Metric.OLDEST_POOL);
  }

  /** Both effects change conditions and record the same selection. */
  lemma EffectKeepsStable(w: World, w': World, name: string, ns: string, m: string, json: string, backend: Backend)
    requires Stable(w, ns, m, json, backend) && Key(ns, name) in w.pools
    requires w'.pools == WithCondition(w, Key(ns, name), Expected(name, m)).pools && w'.profiles == w.profiles
    requires w'.metrics == Metric.Record(w.metrics, ns, m, ExpectedReason(w, ns))
    ensures Stable(w', ns, m, json, backend) && ExpectedReason(w', ns) == ExpectedReason(w, ns)
    ensures ns in w'.metrics.shadow && w'.metrics.shadow[ns] == Metric.Selection(m, ExpectedReason(w, ns))
  {
    hide Metric.Record, Metric.Agrees, StablePool, Payload, PoolCount;
    Metric.CallKeepsAgreement(w.metrics, Metric.RecordCall(ns, m, ExpectedReason(w, ns)));
    RecordShows(w.metrics, ns, m, PoolCount(w, ns));
    assert SamePools(w, w', ns);
    StableKept(w, w', ns, m, json, backend);
  }

  lemma PublishingPublishes(w: World, ns: string, m: string, json: string, backend: Backend)
    requires Key(ns, m) in w.pools && TrimSpace(backend.podNamespace) == ""
    ensures Published(PublishedBy(w, ns, m, json, backend), ns, m, json)
  {
    hide Metric.Record, ExpectedReason;
  }

  lemma TrackPublished(w0: World, w: World, ns: string, m: string, json: string, done: set<string>, name: string,
                       backend: Backend)
    requires Track(w0, w, ns, m, json, done, backend) && TrimSpace(backend.podNamespace) == ""
    requires Key(ns, m) in w.pools && (Key(ns, name) !in w.pools || name == m)
    ensures Track(w0, PublishedBy(w, ns, m, json, backend), ns, m, json, done + {name}, backend)
  {
    hide Stable, Metric.Record, ExpectedReason, WithConfig, Reset;
    var w' := PublishedBy(w, ns, m, json, backend);
    EffectKeepsStable(w, w', m, ns, m, json, backend);
    PublishingPublishes(w, ns, m, json, backend);
    forall n | n in done + {name} ensures Settled(w', ns, m, json, n) {
      assert n in done ==> Settled(w, ns, m, json, n);
    }
  }

  lemma TrackSuperseded(w0: World, w: World, ns: string, m: string, json: string, done: set<string>, name: string,
                        backend: Backend)
    requires Track(w0, w, ns, m, json, done, backend) && Key(ns, name) in w.pools && name != m
    ensures Track(w0, SupersededBy(w, ns, name, m), ns, m, json, done + {name}, backend)
  {
    hide Stable, Metric.Record, ExpectedReason;
    var w' := SupersededBy(w, ns, name, m);
    EffectKeepsStable(w, w', name, ns, m, json, backend);
    forall n | n in done + {name} ensures Settled(w', ns, m, json, n) {
      assert n in done ==> Settled(w, ns, m, json, n);
    }
  }

  lemma TrackElsewhere(w0: World, w: World, w': World, ns: string, m: string, json: string, done: set<string>,
                       backend: Backend)
    requires Track(w0, w, ns, m, json, done, backend) && Frame(w, w', ns)
    ensures Track(w0, w', ns, m, json, done, backend)
  {
    hide Metric.Agrees, StablePool, Payload, PoolCount;
    StableKept(w, w', ns, m, json, backend);
  }

  lemma TrackVisit(w0: World, w: World, v: Visit, ns: string, m: string, json: string, done: set<string>,
      backend: Backend)
    requires Track(w0, w, ns, m, json, done, backend) && TrimSpace(backend.podNamespace) == ""
    requires Possible(w, v) && CalmVisit(w0.breaker, ns, v)
    ensures Track(w0, After(w, v, backend), ns, m, json,
                  done + if v.key.ns == ns then {v.key.name} else {}, backend)
  {
    if v.key.ns == ns {
      VisitEffect(w, v, m, json, backend);
      if v.key in w.pools && v.key.name != m {
        TrackSuperseded(w0, w, ns, m, json, done, v.key.name, backend);
      } else {
        TrackPublished(w0, w, ns, m, json, done, v.key.name, backend);
      }
    } else {
      VisitElsewhere(w, v, backend, ns);
      TrackElsewhere(w0, w, After(w, v, backend), ns, m, json, done, backend);
      assert done + {} == done;
    }
  }

  function Visited(visits: seq<Visit>, ns: string): set<string> {
    set i | 0 <= i < |visits| && visits[i].key.ns == ns :: visits[i].key.name
  }

  lemma {:induction false} TrackRun(w0: World, w: World, visits: seq<Visit>, ns: string, m: string, json: string,
                                    done: set<string>, backend: Backend)
    requires Track(w0, w, ns, m, json, done, backend) && TrimSpace(backend.podNamespace) == ""
    requires PossibleRun(w, visits, backend)
    requires forall v :: v in visits ==> CalmVisit(w0.breaker, ns, v)
    ensures Track(w0, Run(w, visits, backend), ns, m, json, done + Visited(visits, ns), backend)
    decreases |visits|
  {
    hide Track, CalmVisit, After, Possible;
    if visits == [] {
      assert done + Visited(visits, ns) == done;
    } else {
      var v := visits[0];
      var more := done + if v.key.ns == ns then {v.key.name} else {};
      TrackVisit(w0, w, v, ns, m, json, done, backend);
      TrackRun(w0, After(w, v, backend), visits[1..], ns, m, json, more, backend);
      assert more + Visited(visits[1..], ns) == done + Visited(visits, ns);
    }
  }

  /** The state in which a namespace comes to rest. */
  ghost predicate Converged(w: World, ns: string, m: string, json: string, backend: Backend) {
    && Stable(w, ns, m, json, backend)
    && Published(w, ns, m, json)
    && ns in w.metrics.shadow && w.metrics.shadow[ns] == Metric.Selection(m, ExpectedReason(w, ns))
    && forall k :: k in w.pools && k.ns == ns ==> w.pools[k].condition == Some(Expected(k.name, m))
  }

  /** Any run that visits every pool of a stable namespace at least once, in any order, with visits to
      deleted pools and to other namespaces (failing or not) in between, ends in that state. */
  lemma Converges(w: World, visits: seq<Visit>, ns: string, m: string, json: string, backend: Backend)
    requires Stable(w, ns, m, json, backend) && TrimSpace(backend.podNamespace) == ""
    requires PossibleRun(w, visits, backend)
    requires forall v :: v in visits ==> CalmVisit(w.breaker, ns, v)
    requires forall k :: k in w.pools && k.ns == ns ==> exists v :: v in visits && v.key == k
    ensures Converged(Run(w, visits, backend), ns, m, json, backend)
  {
    TrackRun(w, w, visits, ns, m, json, {}, backend);
    var w' := Run(w, visits, backend);
    forall k | k in w'.pools && k.ns == ns ensures Settled(w', ns, m, json, k.name) {
      var v :| v in visits && v.key == k;
      var i :| 0 <= i < |visits| && visits[i] == v;
      assert k.name in {} + Visited(visits, ns);
    }
    SettledIsConverged(w', ns, m, json, backend);
  }

  lemma SettledIsConverged(w: World, ns: string, m: string, json: string, backend: Backend)
    requires Stable(w, ns, m, json, backend)
    requires forall k :: k in w.pools && k.ns == ns ==> Settled(w, ns, m, json, k.name)
    ensures Converged(w, ns, m, json, backend)
  {
    hide ExpectedReason, Payload, StablePool;
    assert Settled(w, ns, m, json, Key(ns, m).name);
    forall k | k in w.pools && k.ns == ns ensures w.pools[k].condition == Some(Expected(k.name, m)) {
      assert Settled(w, ns, m, json, k.name) && k == Key(ns, k.name);
    }
  }

  lemma RecordAgain(metrics: Metric.Metrics, ns: string, m: string, count: nat)
    requires Metric.Agrees(metrics) && ns != "" && m != ""
    requires ns in metrics.shadow && metrics.shadow[ns] == Metric.Selection(m, Metric.SelectionReason(count))
    ensures Metric.Record(metrics, ns, m, Metric.SelectionReason(count)) == metrics
  {
    RecordShows(metrics, ns, m, count);
    assert Metric.Labels(ns, metrics.shadow[ns]) in metrics.gauge;
  }

  lemma PublishAgain(w: World, ns: string, m: string, json: string)
    requires Published(w, ns, m, json)
    ensures WithCondition(w, Key(ns, m), Expected(m, m)) == w
    ensures WithConfig(w.configMaps, ns, json) == w.configMaps && Reset(w.breaker, ns) == w.breaker
  {
    assert Reset(w.breaker, ns).counts == w.breaker.counts && Reset(w.breaker, ns).openUntil == w.breaker.openUntil;
    assert WithCondition(w, Key(ns, m), Expected(m, m)).pools == w.pools;
    assert Data(w.configMaps, ns)[AGENT_CONFIG_KEY := json] == Data(w.configMaps, ns);
  }

  /** In that state a further fault-free visit, of any pool existing or deleted, changes nothing at all. */
  lemma StaysConverged(w: World, v: Visit, ns: string, m: string, json: string, backend: Backend)
    requires Converged(w, ns, m, json, backend) && TrimSpace(backend.podNamespace) == ""
    requires Possible(w, v) && v.key.ns == ns && v.api.NoFaults()
    ensures Reconcile(w, v.key, v.items, v.sorted, v.api, backend) == (w, Done)
  {
    hide Metric.Record, Metric.Agrees, StablePool, Payload, PoolCount, Reconcile, Listing, Published;
    ConvergedBasics(w, ns, m, json, backend);
    VisitEffect(w, v, m, json, backend);
    RecordAgain(w.metrics, ns, m, PoolCount(w, ns));
    ReasonOfCount(w, ns, PoolCount(w, ns));
    PublishAgain(w, ns, m, json);
    if v.key in w.pools {
      assert WithCondition(w, v.key, Expected(v.key.name, m)).pools == w.pools;
    }
  }

  lemma ConvergedBasics(w: World, ns: string, m: string, json: string, backend: Backend)
    requires Converged(w, ns, m, json, backend) && TrimSpace(backend.podNamespace) == ""
    ensures backend.OperatorNamespace(ns) == ns && forall now :: !IsOpen(w.breaker, ns, now)
  {
  }

  // ---------------------------------------------------------------- from any namespace of valid pools

  /** A pool's stamp, or the one it is going to get, is readable; and once all are stamped, `m` comes first. */
  ghost predicate StampablePool(w: World, k: Key, m: string, backend: Backend)
    requires k in w.pools && Key(k.ns, m) in w.pools
  {
    var p := w.pools[k];
    && p.creation != 0 && InitialRV(Stamp(p)) > 0 && PoolValidation.ValidSpec(p.spec, backend.host)
    && (k.name != m ==> SelectsBefore(Stamp(w.pools[Key(k.ns, m)]), Stamp(p)))
  }

  /** Stable, but for stamps. */
  ghost predicate Stampable(w: World, ns: string, m: string, json: string, backend: Backend) {
    && ns != "" && m != "" && NamesOk(w) && Metric.Agrees(w.metrics)
    && Key(ns, m) in w.pools
    && Payload(w.pools[Key(ns, m)].spec, Profile(w, ns), backend) == Some(json)
    && forall k :: k in w.pools && k.ns == ns ==> StampablePool(w, k, m, backend)
  }

  /** Nothing happens but reports on the pool with this key and what successful writes do to the breaker. */
  ghost predicate OnlyReports(w: World, w': World, key: Key)
    requires key in w.pools
  {
    && w'.pools.Keys == w.pools.Keys && (forall k :: k in w.pools && k != key ==> w'.pools[k] == w.pools[k])
    && w'.pools[key] == w.pools[key].(condition := w'.pools[key].condition)
    && w'.profiles == w.profiles && w'.metrics == w.metrics
    && forall target :: EntryFrom(w.breaker, w'.breaker, target)
  }

  lemma ReportOnlyReports(w: World, w': World, key: Key, condition: Condition, api: Api, outcome: Outcome)
    requires key in w.pools && OnlyReports(w, w', key)
    ensures OnlyReports(w, Report(w', key, condition, api, outcome).0, key)
  {
  }

  lemma UpsertOnlyReports(w: World, key: Key, target: string, json: string, api: Api)
    requires key in w.pools && api.NoFaults()
    ensures OnlyReports(w, UpsertWithBreaker(w, target, json, api).0, key)
  {
    hide WithConfig;
  }

  lemma PublishOnlyReports(w: World, key: Key, api: Api, backend: Backend)
    requires key in w.pools && api.NoFaults()
    ensures OnlyReports(w, Publish(w, key, api, backend).0, key)
  {
    hide ConfigGenerator.Generated, UpsertWithBreaker, OnlyReports, Report, FitsConfigMap;
    NothingReported(w, key);
    forall condition, outcome {:trigger Report(w, key, condition, api, outcome)}
      ensures OnlyReports(w, Report(w, key, condition, api, outcome).0, key)
    {
      ReportOnlyReports(w, w, key, condition, api, outcome);
    }
    var g := ConfigGenerator.Generated(w.pools[key].spec, Profile(w, key.ns), backend.host);
    if g.Ok? && backend.renders(g.value) && backend.encode(g.value).Some?
        && FitsConfigMap(backend.encode(g.value).value) {
      var (w', upsert) := UpsertWithBreaker(w, backend.OperatorNamespace(key.ns), backend.encode(g.value).value, api);
      UpsertOnlyReports(w, key, backend.OperatorNamespace(key.ns), backend.encode(g.value).value, api);
      OnlyReportsKeeps(w, w', key);
      match upsert
      case Written => ReportOnlyReports(w, w', key, Condition(true, Ready), api, Done);
      case WriteFailed => ReportOnlyReports(w, w', key, Condition(false, ConfigMapUpdateFailed), api, Failed);
      case CircuitOpen =>
        ReportOnlyReports(w, w', key, Condition(false, ConfigMapCircuitOpen), api, RequeueAfter(OPEN_INTERVAL));
    }
  }

  lemma NothingReported(w: World, key: Key)
    requires key in w.pools
    ensures OnlyReports(w, w, key)
  {
  }

  lemma OnlyReportsKeeps(w: World, w': World, key: Key)
    requires key in w.pools && OnlyReports(w, w', key)
    ensures key in w'.pools
  {
  }

  /** A fault-free visit of an existing pool stamps it, before anything else, and changes no other pool. */
  lemma VisitStamps(w: World, key: Key, sorted: seq<Pool>, api: Api, backend: Backend)
    requires key in w.pools && api.NoFaults() && Metric.Agrees(w.metrics)
    ensures var w' := ReconcileExisting(w, key, sorted, api, backend).0;
            && w'.pools.Keys == w.pools.Keys && (forall k :: k in w.pools && k != key ==> w'.pools[k] == w.pools[k])
            && w'.pools[key] == Stamp(w.pools[key]).(condition := w'.pools[key].condition)
            && w'.profiles == w.profiles && Metric.Agrees(w'.metrics)
            && forall target :: EntryFrom(w.breaker, w'.breaker, target)
  {
    hide Publish, PoolValidation.ValidSpec, Metric.Agrees, Metric.Record, Stamp, Report;
    var stamped := Stamped(w, key);
    var selected := WithSelection(stamped, key.ns, sorted);
    SelectionAgrees(stamped, key.ns, sorted);
    NothingReported(stamped, key);
    NothingReported(selected, key);
    ReportOnlyReports(stamped, stamped, key, Condition(false, InvalidSpec), api, Done);
    ReportOnlyReports(selected, selected, key, Condition(false, Superseded), api, Done);
    PublishOnlyReports(selected, key, api, backend);
  }

  lemma SelectionAgrees(w: World, ns: string, sorted: seq<Pool>)
    requires Metric.Agrees(w.metrics)
    ensures Metric.Agrees(WithSelection(w, ns, sorted).metrics)
  {
    if sorted != [] {
      Metric.CallKeepsAgreement(w.metrics, Metric.RecordCall(ns, sorted[0].name, Metric.SelectionReason(|sorted|)));
    }
  }

  /** The pools keep their identity, up to stamps, and those in `done` have theirs. */
  ghost predicate Stamping(w0: World, w: World, ns: string, m: string, json: string, done: set<string>,
      backend: Backend) {
    && Stampable(w, ns, m, json, backend)
    && EntryFrom(w0.breaker, w.breaker, ns)
    && (forall k: Key :: k.ns == ns ==> (k in w0.pools <==> k in w.pools))
    && forall k :: k in w.pools && k.ns == ns && k.name in done ==> HasStamp(w.pools[k])
  }

  /** The same pools up to stamps and conditions. */
  ghost predicate SameButStamps(w: World, w': World, ns: string) {
    && w'.profiles == w.profiles
    && (forall k: Key :: k.ns == ns ==> (k in w.pools <==> k in w'.pools))
    && (forall k :: k in w.pools && k.ns == ns ==>
          && (HasStamp(w.pools[k]) ==> HasStamp(w'.pools[k]))
          && Stamp(w'.pools[k]) == Stamp(w.pools[k]).(condition := w'.pools[k].condition))
  }

  lemma StampableKept(w: World, w': World, ns: string, m: string, json: string, backend: Backend)
    requires Stampable(w, ns, m, json, backend) && SameButStamps(w, w', ns)
    requires NamesOk(w') && Metric.Agrees(w'.metrics)
    ensures Stampable(w', ns, m, json, backend)
  {
    hide PoolValidation.ValidSpec, ParseInt64, Payload, Metric.Agrees;
    forall k | k in w'.pools && k.ns == ns ensures StampablePool(w', k, m, backend) {
      assert StampablePool(w, k, m, backend);
    }
  }

  /** A visit during the first round: of an existing pool of the namespace, without failures, or elsewhere. */
  predicate StampingVisit(w0: World, ns: string, v: Visit) {
    v.key.ns == ns ==> v.key in w0.pools && v.api.NoFaults()
  }

  lemma StampingHere(w: World, v: Visit, backend: Backend)
    requires Possible(w, v) && v.key in w.pools && v.api.NoFaults() && Metric.Agrees(w.metrics) && NamesOk(w)
    ensures var w' := After(w, v, backend);
            && SameButStamps(w, w', v.key.ns) && NamesOk(w') && Metric.Agrees(w'.metrics)
            && EntryFrom(w.breaker, w'.breaker, v.key.ns) && v.key in w'.pools && HasStamp(w'.pools[v.key])
  {
    hide ReconcileExisting, AfterDeletion, Listing, Metric.Agrees;
    var w' := After(w, v, backend);
    ListingMembers(w, v.key, v.items, v.sorted);
    VisitStamps(w, v.key, v.sorted, v.api, backend);
    StampTwice(w.pools[v.key], w'.pools[v.key].condition);
  }

  lemma StampingElsewhere(w: World, v: Visit, backend: Backend, ns: string)
    requires Possible(w, v) && v.key.ns != ns && Metric.Agrees(w.metrics) && NamesOk(w)
    requires TrimSpace(backend.podNamespace) == ""
    ensures var w' := After(w, v, backend);
            && SameButStamps(w, w', ns) && NamesOk(w') && Metric.Agrees(w'.metrics)
            && EntryFrom(w.breaker, w'.breaker, ns)
  {
    hide Reconcile, Listing, Metric.Agrees;
    VisitElsewhere(w, v, backend, ns);
  }

  lemma StampingStep(w0: World, w: World, v: Visit, ns: string, m: string, json: string, done: set<string>,
                     backend: Backend)
    requires Stamping(w0, w, ns, m, json, done, backend) && TrimSpace(backend.podNamespace) == ""
    requires Possible(w, v) && StampingVisit(w0, ns, v)
    ensures Stamping(w0, After(w, v, backend), ns, m, json, done + if v.key.ns == ns then {v.key.name} else {}, backend)
  {
    hide Reconcile, Listing, Metric.Agrees, StampablePool, Payload, Stamp, NamesOk;
    var w' := After(w, v, backend);
    if v.key.ns == ns {
      StampingHere(w, v, backend);
    } else {
      StampingElsewhere(w, v, backend, ns);
    }
    StampableKept(w, w', ns, m, json, backend);
  }

  lemma StampTwice(p: Pool, condition: Option<Condition>)
    ensures HasStamp(Stamp(p)) && Stamp(Stamp(p).(condition := condition)) == Stamp(p).(condition := condition)
    ensures HasStamp(p) ==> Stamp(p) == p
  {
  }

  lemma {:induction false} StampingRun(w0: World, w: World, visits: seq<Visit>, ns: string, m: string, json: string,
                                       done: set<string>, backend: Backend)
    requires Stamping(w0, w, ns, m, json, done, backend) && TrimSpace(backend.podNamespace) == ""
    requires PossibleRun(w, visits, backend)
    requires forall v :: v in visits ==> StampingVisit(w0, ns, v)
    ensures Stamping(w0, Run(w, visits, backend), ns, m, json, done + Visited(visits, ns), backend)
    decreases |visits|
  {
    hide Stamping, StampingVisit, After, Possible;
    if visits == [] {
      assert done + Visited(visits, ns) == done;
    } else {
      var v := visits[0];
      var more := done + if v.key.ns == ns then {v.key.name} else {};
      StampingStep(w0, w, v, ns, m, json, done, backend);
      StampingRun(w0, After(w, v, backend), visits[1..], ns, m, json, more, backend);
      assert more + Visited(visits[1..], ns) == done + Visited(visits, ns);
    }
  }

  /** One fault-free round over the pools makes the namespace stable. */
  lemma OneRoundStamps(w: World, visits: seq<Visit>, ns: string, m: string, json: string, backend: Backend)
    requires Stampable(w, ns, m, json, backend) && TrimSpace(backend.podNamespace) == ""
    requires PossibleRun(w, visits, backend)
    requires forall v :: v in visits ==> StampingVisit(w, ns, v)
    requires forall k :: k in w.pools && k.ns == ns ==> exists v :: v in visits && v.key == k
    ensures var w' := Run(w, visits, backend);
            && Stable(w', ns, m, json, backend) && EntryFrom(w.breaker, w'.breaker, ns)
            && forall k: Key :: k.ns == ns ==> (k in w.pools <==> k in w'.pools)
  {
    hide PoolValidation.ValidSpec, ParseInt64, Payload, Metric.Agrees, PossibleRun, Run;
    StampingRun(w, w, visits, ns, m, json, {}, backend);
    var w' := Run(w, visits, backend);
    forall k | k in w'.pools && k.ns == ns ensures HasStamp(w'.pools[k]) && Stamp(w'.pools[k]) == w'.pools[k] {
      var v :| v in visits && v.key == k;
      var i :| 0 <= i < |visits| && visits[i] == v;
      assert k.name in {} + Visited(visits, ns);
    }
    forall k | k in w'.pools && k.ns == ns ensures StablePool(w', k, m, backend) {
      assert StampablePool(w', k, m, backend);
    }
  }

  /** So two rounds bring any namespace of valid pools there, whether they are stamped or not: `m` is the pool
      that comes first once all are. */
  lemma ConvergesInTwoRounds(w: World, first: seq<Visit>, second: seq<Visit>, ns: string, m: string, json: string,
                             backend: Backend)
    requires Stampable(w, ns, m, json, backend) && TrimSpace(backend.podNamespace) == ""
    requires PossibleRun(w, first, backend) && PossibleRun(Run(w, first, backend), second, backend)
    requires forall v :: v in first ==> StampingVisit(w, ns, v)
    requires forall v :: v in second ==> CalmVisit(w.breaker, ns, v)
    requires forall k :: k in w.pools && k.ns == ns ==>
               (exists v :: v in first && v.key == k) && exists v :: v in second && v.key == k
    ensures Converged(Run(Run(w, first, backend), second, backend), ns, m, json, backend)
  {
    hide Stampable, Stable, PossibleRun, Run, Converged, StampingVisit;
    OneRoundStamps(w, first, ns, m, json, backend);
    Converges(Run(w, first, backend), second, ns, m, json, backend);
  }
}
