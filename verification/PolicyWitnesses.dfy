/** Runs from an initial state that reach the cases which the theorems except: a valid policy that rests without
    being enforced, a release that wipes a user's annotation, and a worker that need never come to rest. */
module PolicyWitnesses {
  import opened Text
  import opened Objects
  import opened Policies
  import opened PolicyEnforcement
  import opened PolicyProtocol
  import opened PolicyInvariants
  import opened PolicyLiveness
  import opened PolicyLivelock

  // ---------------------------------------------------------------- runs, step by step

  ghost predicate Leads(s: State, steps: seq<Step>, s': State) {
    EnabledRun(s, steps) && Run(s, steps) == s'
  }

  lemma LeadsNowhere(s: State)
    ensures Leads(s, [], s)
  {
  }

  lemma LeadsOn(s: State, step: Step, s': State, steps: seq<Step>, s'': State)
    requires Enabled(s, step) && Apply(s, step) == s' && Leads(s', steps, s'')
    ensures Leads(s, [step] + steps, s'')
  {
    hide Apply, Enabled;
    assert ([step] + steps)[1..] == steps;
  }

  lemma {:induction false} LeadsThen(s: State, first: seq<Step>, s': State, second: seq<Step>, s'': State)
    requires Leads(s, first, s') && Leads(s', second, s'')
    ensures Leads(s, first + second, s'')
    decreases |first|
  {
    hide Apply, Enabled;
    if first == [] {
      assert first + second == second;
    } else {
      LeadsThen(Apply(s, first[0]), first[1..], s', second, s'');
      assert (first + second)[1..] == first[1..] + second;
    }
  }

  // ---------------------------------------------------------------- one namespace, one pool, one policy

  const KEY := Key("a", "c")
  const CREATED := Policy("u", PolicySpec(["n"], "p", ""), 1, false, false, Status(None, 0, 0))
  const ADOPTED := CREATED.(finalizer := true)

  /** What the policy writes to "n". */
  const MARKS: Annotations := map[OWNER_UID := "u", POLICY_NAME := "a/c", UPSTREAM_REF := "p"]

  function Scene(p: Policy, n: Annotations, queue: set<Key>, worker: Worker, misled: map<Key, ReferenceError>): State {
    State(map[KEY := p], map["n" := n], {Key("a", "p")}, {}, queue, worker, {"u"}, Names(_ => true, _ => true), misled)
  }

  function Beginning(): State {
    State(map[], map["n" := map[]], {Key("a", "p")}, {}, {}, Idle, {}, Names(_ => true, _ => true), map[])
  }

  lemma Creation()
    ensures Initial(Beginning())
    ensures Enabled(Beginning(), CreatePolicy(KEY, "u", CREATED.spec))
    ensures Apply(Beginning(), CreatePolicy(KEY, "u", CREATED.spec)) == Scene(CREATED, map[], {KEY}, Idle, map[])
  {
  }

  /** The references are valid, and looked up. */
  lemma References(s: State)
    requires s.names == Scene(CREATED, map[], {}, Idle, map[]).names && s.pools == {Key("a", "p")} && s.profiles == {}
    ensures PoolRefOk("a", CREATED.spec, s.pools, s.names) && ProfileRefOk("a", CREATED.spec, s.profiles, s.names)
    ensures Selected(CREATED.spec) == {"n"}
  {
    assert CREATED.spec.selector == ["n"] && TrimSpace("n") == "n" && TrimSpace("p") == "p" && TrimSpace("") == "";
    assert Selected(CREATED.spec) == {TrimSpace(CREATED.spec.selector[0])};
  }

  lemma FirstCheck()
    ensures Leads(Scene(CREATED, map[], {KEY}, Idle, map[]),
                  [Dequeue(KEY)] + ([Proceed("")] + ([Proceed("")] + [])),
                  Scene(ADOPTED, map[], {KEY}, Busy(KEY, CheckingPool(ADOPTED)), map[]))
  {
    hide EnabledRun, Run, Leads;
    var go := Proceed("");
    var s1 := Scene(CREATED, map[], {KEY}, Idle, map[]);
    var s2 := Scene(CREATED, map[], {}, Busy(KEY, Started), map[]);
    var s3 := Scene(CREATED, map[], {}, Busy(KEY, Adopting(CREATED)), map[]);
    var s4 := Scene(ADOPTED, map[], {KEY}, Busy(KEY, CheckingPool(ADOPTED)), map[]);
    LeadsNowhere(s4);
    LeadsOn(s3, go, s4, [], s4);
    LeadsOn(s2, go, s3, [go] + [], s4);
    LeadsOn(s1, Dequeue(KEY), s2, [go] + ([go] + []), s4);
  }

  // ---------------------------------------------------------------- a lookup that fails twice

  /** What a failed pool lookup with this error makes the policy report. */
  function Unknown(error: string): Status { Invalid(1, UpstreamPoolUnknown(error)) }

  /** The report changes the status, and so queues the policy, unless it is what the status says already. */
  lemma {:induction false} LookupFailsOnce(p: Policy, queue: set<Key>, error: string)
    requires p.spec == CREATED.spec && p.generation == 1
    ensures Leads(Scene(p, map[], queue, Busy(KEY, CheckingPool(p)), map[]),
                  [CallFails(error)] + ([Proceed("")] + []),
                  Scene(p.(status := Unknown(error)), map[], if p.status == Unknown(error) then queue
                      else queue + {KEY},
                        Idle, map[KEY := UpstreamPoolUnknown(error)]))
  {
    hide EnabledRun, Run, Leads, PoolRefOk, SelectorOk, RefName;
    var go := Proceed("");
    var e := UpstreamPoolUnknown(error);
    var s1 := Scene(p, map[], queue, Busy(KEY, CheckingPool(p)), map[]);
    var s2 := Scene(p, map[], queue, Busy(KEY, Reporting(p, Unknown(error))), map[KEY := e]);
    var s3 := Scene(p.(status := Unknown(error)), map[], if p.status == Unknown(error) then queue else queue + {KEY},
                    Idle, map[KEY := e]);
    ReportsFailure(s2, s3, p, queue, error);
    LeadsNowhere(s3);
    LeadsOn(s2, go, s3, [], s3);
    LookupIsMade(s1, p);
    assert Apply(s1, CallFails(error)) == s2;
    LeadsOn(s1, CallFails(error), s2, [go] + [], s3);
  }

  lemma ReportsFailure(s: State, s': State, p: Policy, queue: set<Key>, error: string)
    requires s == Scene(p, map[], queue, Busy(KEY, Reporting(p, Unknown(error))),
             map[KEY := UpstreamPoolUnknown(error)])
    requires s' == Scene(p.(status := Unknown(error)), map[],
                         if p.status == Unknown(error) then queue else queue + {KEY}, Idle,
                         map[KEY := UpstreamPoolUnknown(error)])
    ensures Enabled(s, Proceed("")) && Apply(s, Proceed("")) == s'
  {
    assert PatchStatus(p.status, Unknown(error), p.status) == Unknown(error);
    assert map[KEY := p][KEY := p.(status := Unknown(error))] == map[KEY := p.(status := Unknown(error))];
  }

  lemma LookupIsMade(s: State, p: Policy)
    requires s.worker == Busy(KEY, CheckingPool(p)) && p.spec == CREATED.spec
    requires s.names == Scene(CREATED, map[], {}, Idle, map[]).names && s.pools == {Key("a", "p")} && s.profiles == {}
    ensures MakesCall(s)
  {
    References(s);
  }

  lemma SecondCheck(p: Policy, e: ReferenceError)
    requires p.finalizer && !p.deleting
    ensures Leads(Scene(p, map[], {KEY}, Idle, map[KEY := e]),
                  [Dequeue(KEY)] + ([Proceed("")] + []),
                  Scene(p, map[], {}, Busy(KEY, CheckingPool(p)), map[]))
  {
    hide EnabledRun, Run, Leads;
    var go := Proceed("");
    var s1 := Scene(p, map[], {KEY}, Idle, map[KEY := e]);
    var s2 := Scene(p, map[], {}, Busy(KEY, Started), map[]);
    var s3 := Scene(p, map[], {}, Busy(KEY, CheckingPool(p)), map[]);
    LeadsNowhere(s3);
    LeadsOn(s2, go, s3, [], s3);
    LeadsOn(s1, Dequeue(KEY), s2, [go] + [], s3);
  }

  /** A pool lookup that fails twice, with the same error, leaves a policy with valid references at rest
      although it owns none of the free namespaces it selects. The first failure changes the status, and so
      queues the policy once more; the second finds the status as it is. (With another error the second would
      queue it again: see LookupFailsOnce.) */
  lemma FailedLookupStrands(error: string) returns (s0: State, steps: seq<Step>)
    ensures Initial(s0) && EnabledRun(s0, steps)
    ensures var s := Run(s0, steps);
            && KEY in s.policies && AtRest(s, KEY)
            && ReferencesOk(KEY.ns, s.policies[KEY].spec, s.pools, s.profiles, s.names)
            && Targets(s.namespaces, s.policies[KEY]) == {"n"} && Managed(s.namespaces, s.policies[KEY].uid) == {}
            && !Conflicted(s.namespaces, s.policies[KEY])
  {
    hide EnabledRun, Run, Leads;
    var go := Proceed("");
    var e := UpstreamPoolUnknown(error);
    var p := ADOPTED.(status := Unknown(error));
    var s1 := Scene(CREATED, map[], {KEY}, Idle, map[]);
    var s4 := Scene(ADOPTED, map[], {KEY}, Busy(KEY, CheckingPool(ADOPTED)), map[]);
    var s6 := Scene(p, map[], {KEY}, Idle, map[KEY := e]);
    var s8 := Scene(p, map[], {}, Busy(KEY, CheckingPool(p)), map[]);
    var s10 := Scene(p, map[], {}, Idle, map[KEY := e]);
    var first, second := [Dequeue(KEY)] + ([go] + ([go] + [])), [Dequeue(KEY)] + ([go] + []);
    var fails := [CallFails(error)] + ([go] + []);
    FirstCheck();
    LookupFailsOnce(ADOPTED, {KEY}, error);
    SecondCheck(p, e);
    LookupFailsOnce(p, {}, error);
    assert {KEY} + {KEY} == {KEY};
    LeadsThen(s6, second, s8, fails, s10);
    LeadsThen(s4, fails, s6, second + fails, s10);
    LeadsThen(s1, first, s4, fails + (second + fails), s10);
    s0 := Beginning();
    Creation();
    LeadsOn(s0, CreatePolicy(KEY, "u", CREATED.spec), s1, first + (fails + (second + fails)), s10);
    steps := [CreatePolicy(KEY, "u", CREATED.spec)] + (first + (fails + (second + fails)));
    StrandedFacts(s0, steps, p, e);
  }

  lemma StrandedFacts(s0: State, steps: seq<Step>, p: Policy, e: ReferenceError)
    requires Leads(s0, steps, Scene(p, map[], {}, Idle, map[KEY := e])) && p.spec == CREATED.spec && p.uid == "u"
    ensures var s := Scene(p, map[], {}, Idle, map[KEY := e]);
            && EnabledRun(s0, steps) && Run(s0, steps) == s
            && AtRest(s, KEY) && ReferencesOk("a", p.spec, s.pools, s.profiles, s.names)
            && Targets(s.namespaces, p) == {"n"} && Managed(s.namespaces, "u") == {}
            && !Conflicted(s.namespaces, p)
  {
    hide EnabledRun, Run, PoolRefOk, ProfileRefOk, Selected;
    References(Scene(p, map[], {}, Idle, map[KEY := e]));
  }

  // ---------------------------------------------------------------- a release from a stale copy

  const ENFORCED := ADOPTED.(status := Enforcement(1, 1))
  const DOOMED := ENFORCED.(deleting := true, generation := 2)

  lemma Validates()
    ensures Leads(Scene(ADOPTED, map[], {KEY}, Busy(KEY, CheckingPool(ADOPTED)), map[]),
                  [Proceed("")] + ([Proceed("")] + []),
                  Scene(ADOPTED, map[], {KEY}, Busy(KEY, ListingManaged(ADOPTED)), map[]))
  {
    hide EnabledRun, Run, Leads, PoolRefOk, ProfileRefOk, Selected;
    var go := Proceed("");
    var s1 := Scene(ADOPTED, map[], {KEY}, Busy(KEY, CheckingPool(ADOPTED)), map[]);
    var s2 := Scene(ADOPTED, map[], {KEY}, Busy(KEY, CheckingProfile(ADOPTED)), map[]);
    var s3 := Scene(ADOPTED, map[], {KEY}, Busy(KEY, ListingManaged(ADOPTED)), map[]);
    References(s1);
    LeadsNowhere(s3);
    LeadsOn(s2, go, s3, [], s3);
    LeadsOn(s1, go, s2, [go] + [], s3);
  }

  lemma StartsToApply()
    ensures Leads(Scene(ADOPTED, map[], {KEY}, Busy(KEY, ListingManaged(ADOPTED)), map[]),
                  [Proceed("")] + ([Proceed("")] + []),
                  Scene(ADOPTED, map[], {KEY}, Busy(KEY, Applying(ADOPTED, {"n"}, 0)), map[]))
  {
    hide EnabledRun, Run, Leads, PoolRefOk, ProfileRefOk, Selected;
    var go := Proceed("");
    var s1 := Scene(ADOPTED, map[], {KEY}, Busy(KEY, ListingManaged(ADOPTED)), map[]);
    var s2 := Scene(ADOPTED, map[], {KEY}, Busy(KEY, Removing(ADOPTED, map[])), map[]);
    var s3 := Scene(ADOPTED, map[], {KEY}, Busy(KEY, Applying(ADOPTED, {"n"}, 0)), map[]);
    References(s1);
    assert Apply(s1, go) == s2 by {
      assert Owner(map[]) == "";
      assert Apply(s1, go).worker.phase.pending == map[];
    }
    LeadsNowhere(s3);
    LeadsOn(s2, go, s3, [], s3);
    LeadsOn(s1, go, s2, [go] + [], s3);
  }

  lemma Marks()
    ensures Annotate(map[], KEY, ADOPTED) == MARKS && Owner(MARKS) == "u"
  {
    assert TrimSpace("") == "" && QualifiedName(KEY) == "a/c";
    assert CACHE_REF !in MARKS;
  }

  lemma Applies()
    ensures Leads(Scene(ADOPTED, map[], {KEY}, Busy(KEY, Applying(ADOPTED, {"n"}, 0)), map[]),
                  [Proceed("n")] + ([Proceed("")] + ([Proceed("")] + [])),
                  Scene(ENFORCED, MARKS, {KEY}, Idle, map[]))
  {
    hide EnabledRun, Run, Leads, PoolRefOk, ProfileRefOk, Selected, Annotate, Owner, Selecting;
    var go := Proceed("");
    var s1 := Scene(ADOPTED, map[], {KEY}, Busy(KEY, Applying(ADOPTED, {"n"}, 0)), map[]);
    var s2 := Scene(ADOPTED, MARKS, {KEY}, Busy(KEY, Applying(ADOPTED, {}, 1)), map[]);
    var s3 := Scene(ADOPTED, MARKS, {KEY}, Busy(KEY, Reporting(ADOPTED, Enforcement(1, 1))), map[]);
    var s4 := Scene(ENFORCED, MARKS, {KEY}, Idle, map[]);
    Claim(s1, s2);
    Report(s3, s4);
    LeadsNowhere(s4);
    LeadsOn(s3, go, s4, [], s4);
    LeadsOn(s2, go, s3, [go] + [], s4);
    LeadsOn(s1, Proceed("n"), s2, [go] + ([go] + []), s4);
  }

  lemma OnlySelecting(s: State)
    requires s.policies.Keys == {KEY}
    ensures Selecting(s, "n") <= {KEY}
  {
  }

  lemma Claim(s: State, s': State)
    requires s == Scene(ADOPTED, map[], {KEY}, Busy(KEY, Applying(ADOPTED, {"n"}, 0)), map[])
    requires s' == Scene(ADOPTED, MARKS, {KEY}, Busy(KEY, Applying(ADOPTED, {}, 1)), map[])
    ensures Enabled(s, Proceed("n")) && Apply(s, Proceed("n")) == s'
  {
    hide Annotate, Selected, Selecting;
    Marks();
    OnlySelecting(s);
    assert MARKS != map[] by { assert OWNER_UID in MARKS; }
    assert map["n" := map[]]["n" := MARKS] == map["n" := MARKS];
    assert {KEY} + Selecting(s, "n") == {KEY};
    assert {"n"} - {"n"} == {};
    var t := ApplyNext(s, KEY, ADOPTED, {"n"}, 0, "n");
    assert SetNamespace(s, "n", MARKS).namespaces == map["n" := MARKS];
    assert SetNamespace(s, "n", MARKS).queue == {KEY};
    assert t == s';
  }

  lemma Report(s: State, s': State)
    requires s == Scene(ADOPTED, MARKS, {KEY}, Busy(KEY, Reporting(ADOPTED, Enforcement(1, 1))), map[])
    requires s' == Scene(ENFORCED, MARKS, {KEY}, Idle, map[])
    ensures Enabled(s, Proceed("")) && Apply(s, Proceed("")) == s'
  {
    assert map[KEY := ADOPTED][KEY := ENFORCED] == map[KEY := ENFORCED];
    assert {KEY} + {KEY} == {KEY};
  }

  lemma Dooms(s: State, s': State)
    requires s == Scene(ENFORCED, MARKS, {KEY}, Idle, map[]) && s' == Scene(DOOMED, MARKS, {KEY}, Idle, map[])
    ensures Enabled(s, DeletePolicy(KEY)) && Apply(s, DeletePolicy(KEY)) == s'
  {
    assert map[KEY := ENFORCED][KEY := DOOMED] == map[KEY := DOOMED];
    assert {KEY} + {KEY} == {KEY};
  }

  lemma Lists(s: State, s': State)
    requires s == Scene(DOOMED, MARKS, {}, Busy(KEY, ListingOwned(DOOMED)), map[])
    requires s' == Scene(DOOMED, MARKS, {}, Busy(KEY, Clearing(DOOMED, map["n" := MARKS])), map[])
    ensures Enabled(s, Proceed("")) && Apply(s, Proceed("")) == s'
  {
    hide Owner;
    Marks();
    assert Apply(s, Proceed("")).worker.phase.pending == map["n" := MARKS];
  }

  lemma StartsToClear()
    ensures Leads(Scene(ENFORCED, MARKS, {KEY}, Idle, map[]),
                  [DeletePolicy(KEY)] + ([Dequeue(KEY)] + ([Proceed("")] + ([Proceed("")] + []))),
                  Scene(DOOMED, MARKS, {}, Busy(KEY, Clearing(DOOMED, map["n" := MARKS])), map[]))
  {
    hide EnabledRun, Run, Leads, PoolRefOk, ProfileRefOk, Selected, Annotate, Owner;
    var go := Proceed("");
    var s1 := Scene(ENFORCED, MARKS, {KEY}, Idle, map[]);
    var s2 := Scene(DOOMED, MARKS, {KEY}, Idle, map[]);
    var s3 := Scene(DOOMED, MARKS, {}, Busy(KEY, Started), map[]);
    var s4 := Scene(DOOMED, MARKS, {}, Busy(KEY, ListingOwned(DOOMED)), map[]);
    var s5 := Scene(DOOMED, MARKS, {}, Busy(KEY, Clearing(DOOMED, map["n" := MARKS])), map[]);
    Dooms(s1, s2);
    Lists(s4, s5);
    LeadsNowhere(s5);
    LeadsOn(s4, go, s5, [], s5);
    LeadsOn(s3, go, s4, [go] + [], s5);
    LeadsOn(s2, Dequeue(KEY), s3, [go] + ([go] + []), s5);
    LeadsOn(s1, DeletePolicy(KEY), s2, [Dequeue(KEY)] + ([go] + ([go] + [])), s5);
  }

  /** A user's annotation that arrives between the listing and the patch ... */
  lemma Annotates(s: State)
    requires s == Scene(DOOMED, MARKS, {}, Busy(KEY, Clearing(DOOMED, map["n" := MARKS])), map[])
    ensures Enabled(s, AnnotateNamespace("n", map["team" := "dns"]))
    ensures var s' := Apply(s, AnnotateNamespace("n", map["team" := "dns"]));
            && s'.namespaces == map["n" := MARKS["team" := "dns"]]
            && s'.worker == s.worker && s'.policies == s.policies
    ensures Others(MARKS["team" := "dns"]) == map["team" := "dns"]
  {
    hide Selected;
    assert |"team"| == 4 && |OWNER_UID| > 4 && |POLICY_NAME| > 4 && |UPSTREAM_REF| > 4 && |CACHE_REF| > 4;
    assert "team" !in POLICY_KEYS;
    assert Reannotated(MARKS, map["team" := "dns"]) == MARKS["team" := "dns"];
    assert "team" !in MARKS;
  }

  /** ... is gone after it. */
  lemma Wipes(s: State)
    requires s.namespaces == map["n" := MARKS["team" := "dns"]]
    requires s.worker == Busy(KEY, Clearing(DOOMED, map["n" := MARKS]))
    ensures Enabled(s, Proceed("n")) && Apply(s, Proceed("n")).namespaces == map["n" := map[]]
  {
    hide Selected, Selecting;
    assert OWNER_UID in MARKS.Keys * POLICY_KEYS;
    assert MARKS.Keys <= POLICY_KEYS;
    assert "team" in s.namespaces["n"];
    assert map["n" := MARKS["team" := "dns"]]["n" := map[]] == map["n" := map[]];
    assert RemovePatch(s.namespaces["n"], MARKS) == map[];
    hide RemovePatch;
    var pending := map["n" := MARKS];
    assert "n" in pending && pending != map[];
    SetNamespaceIsChange(s, "n", map[], KEY, Clearing(DOOMED, pending - {"n"}));
  }

  /** A policy is created, enforced and deleted; while its namespace is being released, a user annotates the
      namespace. The last step of the run takes the user's annotation away with the policy's. */
  lemma ReleaseCanWipe() returns (s0: State, steps: seq<Step>)
    ensures Initial(s0) && steps != [] && EnabledRun(s0, steps) && EnabledRun(s0, steps[..|steps| - 1])
    ensures var before, after := Run(s0, steps[..|steps| - 1]), Run(s0, steps);
            && before.worker.Busy? && steps[|steps| - 1] == Proceed("n")
            && "n" in before.namespaces && Others(before.namespaces["n"]) == map["team" := "dns"]
            && "n" in after.namespaces && after.namespaces["n"] == map[]
  {
    hide EnabledRun, Run, Leads, Apply, Enabled, Others;
    var go := Proceed("");
    var s1 := Scene(CREATED, map[], {KEY}, Idle, map[]);
    var s2 := Scene(ADOPTED, map[], {KEY}, Busy(KEY, CheckingPool(ADOPTED)), map[]);
    var s3 := Scene(ADOPTED, map[], {KEY}, Busy(KEY, ListingManaged(ADOPTED)), map[]);
    var s4 := Scene(ADOPTED, map[], {KEY}, Busy(KEY, Applying(ADOPTED, {"n"}, 0)), map[]);
    var s5 := Scene(ENFORCED, MARKS, {KEY}, Idle, map[]);
    var s6 := Scene(DOOMED, MARKS, {}, Busy(KEY, Clearing(DOOMED, map["n" := MARKS])), map[]);
    s0 := Beginning();
    Creation();
    FirstCheck();
    Validates();
    StartsToApply();
    Applies();
    StartsToClear();
    Annotates(s6);
    var create, annotate := CreatePolicy(KEY, "u", CREATED.spec), AnnotateNamespace("n", map["team" := "dns"]);
    var s7 := Apply(s6, annotate);
    Wipes(s7);
    var s8 := Apply(s7, Proceed("n"));
    LeadsNowhere(s1);
    LeadsOn(s0, create, s1, [], s1);
    var run := [create] + [];
    LeadsThen(s0, run, s1, [Dequeue(KEY)] + ([go] + ([go] + [])), s2);
    run := run + ([Dequeue(KEY)] + ([go] + ([go] + [])));
    LeadsThen(s0, run, s2, [go] + ([go] + []), s3);
    run := run + ([go] + ([go] + []));
    LeadsThen(s0, run, s3, [go] + ([go] + []), s4);
    run := run + ([go] + ([go] + []));
    LeadsThen(s0, run, s4, [Proceed("n")] + ([go] + ([go] + [])), s5);
    run := run + ([Proceed("n")] + ([go] + ([go] + [])));
    LeadsThen(s0, run, s5, [DeletePolicy(KEY)] + ([Dequeue(KEY)] + ([go] + ([go] + []))), s6);
    run := run + ([DeletePolicy(KEY)] + ([Dequeue(KEY)] + ([go] + ([go] + []))));
    LeadsNowhere(s7);
    LeadsOn(s6, annotate, s7, [], s7);
    LeadsThen(s0, run, s6, [annotate] + [], s7);
    run := run + ([annotate] + []);
    LeadsNowhere(s8);
    LeadsOn(s7, Proceed("n"), s8, [], s8);
    LeadsThen(s0, run, s7, [Proceed("n")] + [], s8);
    steps := run + ([Proceed("n")] + []);
    assert steps[..|steps| - 1] == run;
    Facts(s0, run, s7);
    Facts(s0, steps, s8);
  }

  lemma Facts(s0: State, steps: seq<Step>, s: State)
    requires Leads(s0, steps, s)
    ensures EnabledRun(s0, steps) && Run(s0, steps) == s
  {
  }

  // ---------------------------------------------------------------- a livelock

  /** What a run of the worker leaves as it is: see Shrinks. */
  ghost predicate Stays(s: State, s': State) {
    && s'.namespaces.Keys == s.namespaces.Keys && s'.pools == s.pools && s'.profiles == s.profiles
    && s'.names == s.names && s'.uids == s.uids && s'.misled.Keys <= s.misled.Keys
    && s'.policies.Keys <= s.policies.Keys
    && (forall k :: k in s'.policies ==> SamePolicy(s.policies[k], s'.policies[k]))
    && (forall k :: k in s.policies && !s.policies[k].deleting ==> k in s'.policies)
  }

  lemma MoveStays(s: State, step: Step)
    requires Moves(s, step)
    ensures Stays(s, Apply(s, step))
  {
    hide Apply, Enabled;
    MoveEnabled(s, step);
    if step.Dequeue? {
      DequeueShape(s, step.key);
    } else {
      ProceedShape(s, step.choice);
      ProceedShrinks(s, step.choice);
    }
  }

  lemma {:induction false} RunStays(s: State, steps: seq<Step>)
    requires EnabledRun(s, steps) && MovingRun(s, steps)
    ensures Stays(s, Run(s, steps))
    decreases |steps|
  {
    hide Apply, Enabled, Moves;
    if steps != [] {
      MoveStays(s, steps[0]);
      RunStays(Apply(s, steps[0]), steps[1..]);
    }
  }

  const X := Key("a", "x")
  const Y := Key("a", "y")
  const BOTH := PolicySpec(["n1", "n2"], "p", "")

  function TwoNamespaces(): State {
    State(map[], map["n1" := map[], "n2" := map[]], {Key("a", "p")}, {}, {}, Idle, {}, Names(_ => true, _ => true),
        map[])
  }

  function WithPolicy(s: State, key: Key, uid: string): State {
    s.(policies := s.policies[key := Policy(uid, BOTH, 1, false, false, Status(None, 0, 0))], queue := s.queue + {key},
       uids := s.uids + {uid})
  }

  lemma Creates(s: State, key: Key, uid: string)
    requires key !in s.policies && uid != "" && uid !in s.uids
    ensures Enabled(s, CreatePolicy(key, uid, BOTH))
            && Apply(s, CreatePolicy(key, uid, BOTH)) == WithPolicy(s, key, uid)
  {
  }

  lemma BothSelected(s: State, k: Key, p: Policy)
    requires s.names == TwoNamespaces().names && s.pools == {Key("a", "p")} && p.spec == BOTH && k.ns == "a"
    requires s.namespaces.Keys == {"n1", "n2"}
    ensures RefsOk(s, k, p) && Selected(BOTH) == {"n1", "n2"} && Targets(s.namespaces, p) == {"n1", "n2"}
  {
    assert TrimSpace("n1") == "n1" && TrimSpace("n2") == "n2" && TrimSpace("p") == "p" && TrimSpace("") == "";
    assert BOTH.selector[0] == "n1" && BOTH.selector[1] == "n2" && "n1"[1] != "n2"[1];
    RefErrorMeans(k.ns, BOTH, s.pools, s.profiles, s.names);
    assert Selected(BOTH) == {TrimSpace(BOTH.selector[0]), TrimSpace(BOTH.selector[1])};
  }

  lemma Unopposed(s: State, k: Key)
    requires NoOrphans(s) && s.policies.Keys == {k}
    ensures !Conflicted(s.namespaces, s.policies[k])
  {
    hide Owner, Selected;
    var p := s.policies[k];
    forall n | n in Targets(s.namespaces, p) ensures !Conflicts(s.namespaces[n], p.uid) {
      if Owner(s.namespaces[n]) != "" {
        var l :| Owns(s.policies, l, Owner(s.namespaces[n]));
        assert l == k;
      }
    }
  }

  /** At rest, the only policy owns both namespaces. */
  lemma OnlyOwner(s: State)
    requires Inv(s) && Quiet(s) && Stays(WithPolicy(TwoNamespaces(), X, "x"), s)
    ensures s.namespaces.Keys == {"n1", "n2"} && Owner(s.namespaces["n1"]) == Owner(s.namespaces["n2"]) == "x"
    ensures s.policies.Keys == {X} && s.uids == {"x"}
  {
    hide IdsOk, AllCoherent, NoOrphans, WorkerOk, RefsOk, Owner, Selected, Carries, Conflicts, Blocked;
    var p := s.policies[X];
    BothSelected(s, X, p);
    assert Settled(s, X);
    Unopposed(s, X);
    assert "n1" in Managed(s.namespaces, p.uid) && "n2" in Managed(s.namespaces, p.uid);
  }

  /** A second policy for the same two namespaces is torn. */
  lemma SecondTorn(s: State)
    requires s.namespaces.Keys == {"n1", "n2"} && Owner(s.namespaces["n1"]) == Owner(s.namespaces["n2"]) == "x"
    requires s.names == TwoNamespaces().names && s.pools == {Key("a", "p")}
    ensures Torn(WithPolicy(s, Y, "y"), Y)
  {
    hide RefsOk, Owner, Selected;
    var s' := WithPolicy(s, Y, "y");
    BothSelected(s', Y, s'.policies[Y]);
    assert "n1"[1] != "n2"[1] && "x"[0] != "y"[0];
    assert "n1" in Targets(s'.namespaces, s'.policies[Y]) && "n2" in Targets(s'.namespaces, s'.policies[Y]);
  }

  /** Two policies that select the same two namespaces are enough: once the first owns them, the worker can go
      on with the second for as long as one likes, although no user does anything and no call fails. */
  lemma LivelockOccurs() returns (s0: State, history: seq<Step>)
    ensures Initial(s0) && EnabledRun(s0, history)
    ensures forall length: nat :: CanRunFor(Run(s0, history), length)
  {
    hide Inv, Run, EnabledRun, MovingRun, Torn, Apply, Enabled, Quiet, CanRunFor, Flapping;
    s0 := TwoNamespaces();
    assert Initial(s0);
    var s1 := WithPolicy(s0, X, "x");
    Creates(s0, X, "x");
    InitialInv(s0);
    StepKeepsInv(s0, CreatePolicy(X, "x", BOTH));
    var settling := SomeRunSettles(s1);
    var s2 := Run(s1, settling);
    ReachableInv(s1, settling);
    RunStays(s1, settling);
    OnlyOwner(s2);
    assert "x"[0] != "y"[0] && X.name[0] != Y.name[0];
    var s3 := WithPolicy(s2, Y, "y");
    Creates(s2, Y, "y");
    StepKeepsInv(s2, CreatePolicy(Y, "y", BOTH));
    SecondTorn(s2);
    QuietIsIdle(s2);
    var flapping := RunFlaps(s3, Y);
    assert FlappingRun(s3, flapping);
    UnboundedIff(s3);
    LeadsNowhere(s3);
    LeadsOn(s2, CreatePolicy(Y, "y", BOTH), s3, [], s3);
    Leading(s1, settling);
    LeadsThen(s1, settling, s2, [CreatePolicy(Y, "y", BOTH)] + [], s3);
    LeadsOn(s0, CreatePolicy(X, "x", BOTH), s1, settling + ([CreatePolicy(Y, "y", BOTH)] + []), s3);
    history := [CreatePolicy(X, "x", BOTH)] + (settling + ([CreatePolicy(Y, "y", BOTH)] + []));
    Facts(s0, history, s3);
  }

  lemma QuietIsIdle(s: State)
    requires Quiet(s)
    ensures s.worker.Idle? && s.queue == {}
  {
  }

  lemma Leading(s: State, steps: seq<Step>)
    requires EnabledRun(s, steps)
    ensures Leads(s, steps, Run(s, steps))
  {
  }
}
