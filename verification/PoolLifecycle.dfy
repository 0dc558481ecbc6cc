/** Runs over the pools of one namespace: users create, edit and delete them, the operator stamps them
    and reports their conditions. Shows that the active pool does not change hands while it exists. */
module PoolLifecycle {
  import opened Text
  import opened Engine
  import opened Pools
  import opened PoolSelection

  /** `revision` is the API server's last revision, `clock` its last creation time. */
  datatype Registry = Registry(pools: map<string, Pool>, revision: int, clock: int)

  datatype Step =
    | Create(name: string, time: int, annotations: map<string, string>, spec: PoolSpec)
    | Update(name: string, annotations: map<string, string>, spec: PoolSpec)
    | EnsureStamp(name: string)
    | Report(name: string, condition: Condition)
    | Delete(name: string)

  /** Revisions fit 64 bits, time does not run backwards, and users leave the stamp alone. */
  predicate Enabled(r: Registry, step: Step) {
    && r.revision + 1 < INT64_LIMIT
    && match step
       case Create(name, time, annotations, _) =>
         name !in r.pools && r.clock <= time && INITIAL_RV_ANNOTATION !in annotations
       case Update(name, annotations, _) => name in r.pools && INITIAL_RV_ANNOTATION !in annotations
       case _ => step.name in r.pools
  }

  /** A write of an existing object gives it the next revision. */
  function Write(r: Registry, pool: Pool): Registry {
    r.(pools := r.pools[pool.name := pool.(resourceVersion := Decimal(r.revision + 1))], revision := r.revision + 1)
  }

  function Apply(r: Registry, step: Step): Registry
    requires Enabled(r, step)
  {
    match step
    case Create(name, time, annotations, spec) =>
      Write(r.(clock := time), Pool(name, time, "", annotations, spec, None))
    case Update(name, annotations, spec) =>
      var pool := r.pools[name];
      var kept := if HasStamp(pool) then map[INITIAL_RV_ANNOTATION := pool.annotations[INITIAL_RV_ANNOTATION]]
          else map[];
      Write(r, pool.(name := name, annotations := annotations + kept, spec := spec))
    case EnsureStamp(name) =>
      var pool := r.pools[name];
      if HasStamp(pool) then r else Write(r, Stamp(pool).(name := name))
    case Report(name, condition) =>
      Write(r, r.pools[name].(name := name, condition := Some(condition)))
    case Delete(name) => r.(pools := r.pools - {name}, revision := r.revision + 1)
  }

  predicate EnabledRun(r: Registry, steps: seq<Step>)
    decreases |steps|
  {
    steps == [] || (Enabled(r, steps[0]) && EnabledRun(Apply(r, steps[0]), steps[1..]))
  }

  function Run(r: Registry, steps: seq<Step>): Registry
    requires EnabledRun(r, steps)
    decreases |steps|
  {
    if steps == [] then r else Run(Apply(r, steps[0]), steps[1..])
  }

  predicate RevisionIn(s: string, low: int, high: int) {
    var v := ParseInt64(s);
    v.Some? && low < v.value <= high
  }

  predicate PoolOk(r: Registry, name: string, p: Pool) {
    && p.name == name
    && 0 < p.creation <= r.clock
    && RevisionIn(p.resourceVersion, 0, r.revision)
    && (HasStamp(p) ==> RevisionIn(p.annotations[INITIAL_RV_ANNOTATION], 0, r.revision))
  }

  ghost predicate Inv(r: Registry) {
    && 0 < r.clock && 0 <= r.revision < INT64_LIMIT
    && forall name :: name in r.pools ==> PoolOk(r, name, r.pools[name])
  }

  lemma InvPreserved(r: Registry, step: Step)
    requires Inv(r) && Enabled(r, step)
    ensures Inv(Apply(r, step))
  {
    hide ParseInt64, Decimal;
    ParseDecimal(r.revision + 1);
    var r' := Apply(r, step);
    forall q | q in r'.pools ensures PoolOk(r', q, r'.pools[q]) {
      assert q in r.pools ==> PoolOk(r, q, r.pools[q]);
    }
  }

  ghost predicate FullyStamped(r: Registry) {
    forall name :: name in r.pools ==> HasStamp(r.pools[name])
  }

  /** The pool that selection picks. */
  ghost predicate IsIncumbent(r: Registry, m: string) {
    m in r.pools && forall q :: q in r.pools && q != m ==> SelectsBefore(r.pools[m], r.pools[q])
  }

  ghost predicate Lists(r: Registry, items: seq<Pool>) {
    && DistinctNames(items)
    && (forall p :: p in items ==> p.name in r.pools && r.pools[p.name] == p)
    && (forall name :: name in r.pools ==> r.pools[name] in items)
  }

  /** Once all pools are stamped there is an incumbent, and sorting any listing puts it first. */
  lemma SelectionPicksIncumbent(r: Registry, items: seq<Pool>, sorted: seq<Pool>)
    requires Inv(r) && FullyStamped(r) && r.pools != map[]
    requires Lists(r, items) && SortOutcome(items, sorted)
    ensures sorted != [] && IsIncumbent(r, sorted[0].name) && r.pools[sorted[0].name] == sorted[0]
  {
    forall p | p in items ensures InitialRV(p) > 0 && p.creation != 0 {
      assert PoolOk(r, p.name, r.pools[p.name]);
    }
    UniformlyStampedOrder(items);
    var name :| name in r.pools;
    assert r.pools[name] in items;
    SortedFirst(items, sorted);
    forall q | q in r.pools && q != sorted[0].name ensures SelectsBefore(sorted[0], r.pools[q]) {
      assert PoolOk(r, q, r.pools[q]);
    }
  }

  // ---------------------------------------------------------------- stamps are written once

  predicate Deletes(steps: seq<Step>, name: string) {
    exists i :: 0 <= i < |steps| && steps[i] == Delete(name)
  }

  /** The identity of a pool as far as selection sees it. */
  predicate SameIdentity(p: Pool, q: Pool) {
    && p.name == q.name && p.creation == q.creation
    && HasStamp(p) && HasStamp(q) && p.annotations[INITIAL_RV_ANNOTATION] == q.annotations[INITIAL_RV_ANNOTATION]
  }

  /** A stamped pool that is not deleted keeps its creation time and its stamp through any run. */
  lemma {:induction false} StampIsForever(r: Registry, steps: seq<Step>, name: string)
    requires EnabledRun(r, steps) && name in r.pools && r.pools[name].name == name && HasStamp(r.pools[name])
    requires !Deletes(steps, name)
    ensures name in Run(r, steps).pools && SameIdentity(r.pools[name], Run(r, steps).pools[name])
    decreases |steps|
  {
    hide Decimal;
    if steps != [] {
      assert steps[0] != Delete(name);
      assert forall i :: 0 <= i < |steps[1..]| ==> steps[1..][i] == steps[i + 1];
      StampIsForever(Apply(r, steps[0]), steps[1..], name);
    }
  }

  // ---------------------------------------------------------------- the incumbent stays

  /** Created, or at least still unstamped, after the state `r0`. */
  predicate Newcomer(r0: Registry, p: Pool) {
    && r0.clock <= p.creation
    && (if HasStamp(p) then InitialRV(p) > r0.revision else RevisionIn(p.resourceVersion, r0.revision, INT64_LIMIT))
  }

  ghost predicate Since(r0: Registry, r: Registry) {
    && r0.revision <= r.revision && r0.clock <= r.clock
    && forall q :: q in r.pools ==> SinceFor(r0, q, r.pools[q])
  }

  predicate SinceFor(r0: Registry, q: string, p: Pool) {
    (q in r0.pools && SameIdentity(r0.pools[q], p)) || Newcomer(r0, p)
  }

  lemma SinceForPreserved(r0: Registry, r: Registry, step: Step, q: string)
    requires 0 <= r0.revision <= r.revision && r0.clock <= r.clock && Enabled(r, step)
    requires q in r.pools ==> PoolOk(r, q, r.pools[q]) && SinceFor(r0, q, r.pools[q])
    requires q in Apply(r, step).pools
    ensures SinceFor(r0, q, Apply(r, step).pools[q])
  {
    hide ParseInt64, Decimal;
    ParseDecimal(r.revision + 1);
    var p := Apply(r, step).pools[q];
    if step.Create? && step.name == q {
      assert Newcomer(r0, p);
    } else {
      assert HasStamp(r.pools[q]) ==> SameIdentity(r.pools[q], p);
    }
  }

  lemma SincePreserved(r0: Registry, r: Registry, step: Step)
    requires Inv(r0) && Inv(r) && Since(r0, r) && Enabled(r, step)
    ensures Since(r0, Apply(r, step))
  {
    forall q | q in Apply(r, step).pools ensures SinceFor(r0, q, Apply(r, step).pools[q]) {
      assert q in r.pools ==> PoolOk(r, q, r.pools[q]) && SinceFor(r0, q, r.pools[q]);
      SinceForPreserved(r0, r, step, q);
    }
  }

  lemma {:induction false} SinceRun(r0: Registry, r: Registry, steps: seq<Step>)
    requires Inv(r0) && Inv(r) && Since(r0, r) && EnabledRun(r, steps)
    ensures Inv(Run(r, steps)) && Since(r0, Run(r, steps))
    decreases |steps|
  {
    if steps != [] {
      InvPreserved(r, steps[0]);
      SincePreserved(r0, r, steps[0]);
      SinceRun(r0, Apply(r, steps[0]), steps[1..]);
    }
  }

  /** An unstamped pool of the second in which `m` was created whose name comes before that of `m`. */
  predicate Overtakes(r: Registry, q: string, m: string)
    requires m in r.pools
  {
    && q in r.pools && !HasStamp(r.pools[q])
    && r.pools[q].creation == r.pools[m].creation && StringLess(q, m)
  }

  /** The incumbent `p` of the state `r0` against one other pool of a later state. */
  lemma NotOvertaken(r0: Registry, p: Pool, p': Pool, q: Pool, was: Pool)
    requires 0 < p.creation <= r0.clock && 0 < InitialRV(p) <= r0.revision && SameIdentity(p, p') && q.creation > 0
    requires p.name != q.name && (HasStamp(q) ==> InitialRV(q) > 0)
    requires (SameIdentity(was, q) && SelectsBefore(p, was)) || Newcomer(r0, q)
    ensures SelectsBefore(p', q) <==> !(!HasStamp(q) && q.creation == p'.creation && StringLess(q.name, p'.name))
  {
    hide ParseInt64, StringLess;
    StringLessTrichotomy(p.name, q.name);
  }

  /** Exactly when a run that starts fully stamped and does not delete the incumbent keeps it. */
  lemma IncumbentStaysIff(r: Registry, steps: seq<Step>, m: string)
    requires Inv(r) && FullyStamped(r) && IsIncumbent(r, m)
    requires EnabledRun(r, steps) && !Deletes(steps, m)
    ensures var r' := Run(r, steps);
            m in r'.pools && (IsIncumbent(r', m) <==> forall q :: q in r'.pools ==> !Overtakes(r', q, m))
  {
    hide SelectsBefore, StringLess, Run, EnabledRun, RevisionIn, Newcomer;
    var r' := Run(r, steps);
    assert PoolOk(r, m, r.pools[m]);
    StampIsForever(r, steps, m);
    SinceRunStart(r, steps);
    StampPositive(r, m, r.pools[m]);
    forall q | q in r'.pools && q != m
      ensures SelectsBefore(r'.pools[m], r'.pools[q]) <==> !Overtakes(r', q, m)
    {
      assert PoolOk(r', q, r'.pools[q]) && PoolOk(r', m, r'.pools[m]) && SinceFor(r, q, r'.pools[q]);
      StampPositive(r', q, r'.pools[q]);
      NotOvertaken(r, r.pools[m], r'.pools[m], r'.pools[q], if q in r.pools then r.pools[q] else r'.pools[q]);
    }
    StringLessTrichotomy(m, m);
  }

  lemma StampPositive(r: Registry, name: string, p: Pool)
    requires PoolOk(r, name, p)
    ensures HasStamp(p) ==> 0 < InitialRV(p) <= r.revision
  {
    hide ParseInt64;
  }

  /** The same in terms of selectActivePoolName: wherever the comparator orders the listing, the incumbent
      stays selected exactly if nothing overtakes it. */
  lemma SelectionStaysIff(r: Registry, steps: seq<Step>, m: string, items: seq<Pool>, sorted: seq<Pool>)
    requires Inv(r) && FullyStamped(r) && IsIncumbent(r, m)
    requires EnabledRun(r, steps) && !Deletes(steps, m)
    requires Lists(Run(r, steps), items) && SortOutcome(items, sorted) && StrictOrder(items)
    ensures var r' := Run(r, steps);
            && m in r'.pools && sorted != []
            && (sorted[0].name == m <==> forall q :: q in r'.pools ==> !Overtakes(r', q, m))
  {
    hide SelectsBefore;
    var r' := Run(r, steps);
    IncumbentStaysIff(r, steps, m);
    SinceRunStart(r, steps);
    assert r'.pools[m] in items;
    SortedFirst(items, sorted);
    assert sorted[0] in items && r'.pools[sorted[0].name] == sorted[0];
    forall q | q in r'.pools && q != sorted[0].name ensures SelectsBefore(sorted[0], r'.pools[q]) {
      assert r'.pools[q] in items && PoolOk(r', q, r'.pools[q]);
    }
    SelectsBeforeAsymmetric(sorted[0], r'.pools[m]);
  }

  /** Between two fully stamped states the selected pool changes only if it was deleted on the way. */
  lemma IncumbentStays(r: Registry, steps: seq<Step>, m: string)
    requires Inv(r) && FullyStamped(r) && IsIncumbent(r, m)
    requires EnabledRun(r, steps) && FullyStamped(Run(r, steps))
    requires !Deletes(steps, m)
    ensures IsIncumbent(Run(r, steps), m)
  {
    IncumbentStaysIff(r, steps, m);
  }

  /** The same in terms of selectActivePoolName: two selections, made in any two fully stamped states of
      one run from any listings, name the same pool unless that pool was deleted in between. */
  lemma ActivePoolStable(r: Registry, steps: seq<Step>, items: seq<Pool>, sorted: seq<Pool>,
                         items': seq<Pool>, sorted': seq<Pool>)
    requires Inv(r) && FullyStamped(r) && r.pools != map[]
    requires EnabledRun(r, steps) && FullyStamped(Run(r, steps))
    requires Lists(r, items) && SortOutcome(items, sorted)
    requires Lists(Run(r, steps), items') && SortOutcome(items', sorted')
    ensures sorted != [] && (Deletes(steps, sorted[0].name) || (sorted' != [] && sorted'[0].name == sorted[0].name))
  {
    SelectionPicksIncumbent(r, items, sorted);
    var m := sorted[0].name;
    if !Deletes(steps, m) {
      IncumbentStays(r, steps, m);
      SinceRunStart(r, steps);
      SelectionPicksIncumbent(Run(r, steps), items', sorted');
      SelectsBeforeAsymmetric(sorted'[0], Run(r, steps).pools[m]);
    }
  }

  lemma SinceRunStart(r: Registry, steps: seq<Step>)
    requires Inv(r) && FullyStamped(r) && EnabledRun(r, steps)
    ensures Inv(Run(r, steps)) && Since(r, Run(r, steps))
  {
    forall q | q in r.pools ensures SinceFor(r, q, r.pools[q]) {
      assert PoolOk(r, q, r.pools[q]);
    }
    SinceRun(r, r, steps);
  }

  /** While a newcomer of the same second is still unstamped it can come before the incumbent. */
  lemma UnstampedNewcomerCanWin()
    ensures
      var spec := PoolSpec([], 0, "", DomainFilter([], [], ""));
      var r := Registry(map["b" := Pool("b", 10, "1", map[INITIAL_RV_ANNOTATION := "1"], spec, None)], 1, 10);
      var steps := [Create("a", 10, map[], spec)];
      && Inv(r) && FullyStamped(r) && IsIncumbent(r, "b")
      && EnabledRun(r, steps) && !IsIncumbent(Run(r, steps), "b") && IsIncumbent(Run(r, steps), "a")
      && EnabledRun(r, steps + [EnsureStamp("a")]) && IsIncumbent(Run(r, steps + [EnsureStamp("a")]), "b")
  {
    var spec := PoolSpec([], 0, "", DomainFilter([], [], ""));
    var incumbent := Pool("b", 10, "1", map[INITIAL_RV_ANNOTATION := "1"], spec, None);
    var r := Registry(map["b" := incumbent], 1, 10);
    var steps := [Create("a", 10, map[], spec)];
    ParseDecimal(1);
    ParseDecimal(2);
    assert Decimal(1) == "1";
    assert PoolOk(r, "b", incumbent);
    var r1 := Apply(r, steps[0]);
    assert Run(r, steps) == Run(r1, steps[1..]) == r1;
    assert StringLess("a", "b");
    var longer := steps + [EnsureStamp("a")];
    assert longer[1..] == [EnsureStamp("a")];
    var r2 := Apply(r1, longer[1]);
    assert Run(r1, longer[1..]) == Run(r2, longer[1..][1..]) == r2;
    assert InitialRV(r2.pools["a"]) == 2;
    IncumbentStays(r, longer, "b");
  }

  lemma NobodyFirst(r: Registry)
    requires r.pools.Keys == {"z", "a", "m"}
    requires SelectsBefore(r.pools["z"], r.pools["a"]) && SelectsBefore(r.pools["a"], r.pools["m"])
    requires SelectsBefore(r.pools["m"], r.pools["z"])
    ensures forall x :: !IsIncumbent(r, x)
  {
    hide SelectsBefore;
    assert "z" in r.pools && "a" in r.pools && "m" in r.pools;
    SelectsBeforeAsymmetric(r.pools["z"], r.pools["a"]);
    SelectsBeforeAsymmetric(r.pools["a"], r.pools["m"]);
    SelectsBeforeAsymmetric(r.pools["m"], r.pools["z"]);
  }

  /** A straddled newcomer occurs: with "z" and "a" stamped in this order, creating "m" in the same second
      makes the comparator cyclic, and nobody is the incumbent until "m" is stamped. */
  lemma StraddledNewcomer()
    ensures
      var spec := PoolSpec([], 0, "", DomainFilter([], [], ""));
      var z := Pool("z", 10, "1", map[INITIAL_RV_ANNOTATION := "1"], spec, None);
      var a := Pool("a", 10, "2", map[INITIAL_RV_ANNOTATION := "2"], spec, None);
      var r := Registry(map["z" := z, "a" := a], 2, 10);
      var steps := [Create("m", 10, map[], spec)];
      && Inv(r) && FullyStamped(r) && IsIncumbent(r, "z") && EnabledRun(r, steps)
      && var r' := Run(r, steps);
      && r'.pools.Keys == {"z", "a", "m"} && Straddled(r'.pools["z"], r'.pools["a"], r'.pools["m"])
      && forall x :: !IsIncumbent(r', x)
  {
    var spec := PoolSpec([], 0, "", DomainFilter([], [], ""));
    var z := Pool("z", 10, "1", map[INITIAL_RV_ANNOTATION := "1"], spec, None);
    var a := Pool("a", 10, "2", map[INITIAL_RV_ANNOTATION := "2"], spec, None);
    var r := Registry(map["z" := z, "a" := a], 2, 10);
    var steps := [Create("m", 10, map[], spec)];
    ParseDecimal(1);
    ParseDecimal(2);
    ParseDecimal(3);
    assert Decimal(1) == "1" && Decimal(2) == "2" && Decimal(3) == "3";
    assert PoolOk(r, "z", z) && PoolOk(r, "a", a);
    assert StringLess("a", "m") && StringLess("m", "z");
    hide Decimal, ParseInt64;
    var r' := Apply(r, steps[0]);
    assert Run(r, steps) == Run(r', steps[1..]) == r';
    StraddledIsCycle(z, a, r'.pools["m"]);
    NobodyFirst(r');
  }
}
