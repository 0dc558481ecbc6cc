/** When the worker, left alone, can go on without bound: exactly if it can get to a queued policy with valid
    references and two conflicts. Each run of such a policy may come across the other conflict first, which
    changes its status, which queues it again. */
module PolicyLivelock {
  import opened Objects
  import opened Policies
  import opened PolicyEnforcement
  import opened PolicyProtocol
  import opened PolicyInvariants
  import opened PolicyTheorems
  import opened PolicyLiveness

  // ---------------------------------------------------------------- a torn policy stays torn

  /** A run does not write a namespace that another policy owns. */
  lemma ForeignUnwritten(s: State, choice: string, n: string)
    requires Current(s) && s.worker.Busy? && !s.worker.phase.Started?
    requires n in s.namespaces && Conflicts(s.namespaces[n], s.worker.phase.snap.uid)
    ensures Written(s, choice, n) == s.namespaces[n]
  {
    hide RefsOk, Truthful, Applied, Annotate, RemovePatch, Selected;
  }

  lemma TornStays(s: State, choice: string)
    requires Inv(s) && Current(s) && s.worker.Busy? && Torn(s, s.worker.key)
    ensures Torn(Apply(s, Proceed(choice)), s.worker.key)
  {
    hide Inv, Current, Apply, PoolRefError, ProfileRefError, Selected, Conflicts, Written;
    var k := s.worker.key;
    var s' := Apply(s, Proceed(choice));
    ProceedShrinks(s, choice);
    var p, p' := s.policies[k], s'.policies[k];
    var m, n :| m != n && m in Targets(s.namespaces, p) && n in Targets(s.namespaces, p)
                && Conflicts(s.namespaces[m], p.uid) && Conflicts(s.namespaces[n], p.uid);
    UnwrittenConflict(s, choice, m);
    UnwrittenConflict(s, choice, n);
    assert m in Targets(s'.namespaces, p') && n in Targets(s'.namespaces, p');
  }

  lemma UnwrittenConflict(s: State, choice: string, n: string)
    requires Inv(s) && Current(s) && s.worker.Busy? && s.worker.key in s.policies && n in s.namespaces
    requires Conflicts(s.namespaces[n], s.policies[s.worker.key].uid)
    ensures var s' := Apply(s, Proceed(choice)); n in s'.namespaces && s'.namespaces[n] == s.namespaces[n]
  {
    hide Inv, Current, Apply, Conflicts;
    ProceedWrites(s, choice, n);
    if !s.worker.phase.Started? {
      CurrentSnap(s);
      ForeignUnwritten(s, choice, n);
    }
  }

  // ---------------------------------------------------------------- from one report of it to the next

  /** One of the conflicts is not the one that the status tells. */
  lemma UntoldConflict(s: State) returns (n: string)
    requires Inv(s) && Current(s) && s.worker.Busy? && s.worker.phase.Applying? && Torn(s, s.worker.key)
    ensures n in s.worker.phase.todo && n in s.namespaces && Conflicts(s.namespaces[n], s.worker.phase.snap.uid)
    ensures Blocked(s.worker.phase.snap.generation, n, s.namespaces[n]) != s.worker.phase.snap.status
  {
    hide Inv, RefsOk, Conflicts, Carries, Selected;
    var snap := s.worker.phase.snap;
    var l, m :| l != m && l in Targets(s.namespaces, snap) && m in Targets(s.namespaces, snap)
                && Conflicts(s.namespaces[l], snap.uid) && Conflicts(s.namespaces[m], snap.uid);
    n := if Blocked(snap.generation, l, s.namespaces[l]) != snap.status then l else m;
    if n !in s.worker.phase.todo {
      CarriersOwn(s.namespaces[n], s.worker.key, snap);
      assert false;
    }
  }

  /** A torn policy that is going to report something else than before flaps. */
  lemma ReportFlaps(s: State)
    requires Inv(s) && Current(s) && s.worker.Busy? && s.worker.phase.Reporting? && Torn(s, s.worker.key)
    requires s.worker.phase.status != s.worker.phase.snap.status
    ensures Flapping(ReportStatus(s, s.worker.key, s.worker.phase.snap, s.worker.phase.status))
  {
    hide IdsOk, NoOrphans, AllCoherent, NoLostWakeup, Truthful, Torn, Justified;
    var key := s.worker.key;
    var p' := s.policies[key].(status := s.worker.phase.status);
    var s' := ReportStatus(s, key, s.worker.phase.snap, s.worker.phase.status);
    assert s' == Finish(SetPolicy(s, key, p'));
    TornKept(s, s', key);
  }

  /** The next step on the way there. */
  lemma TowardsReport(s: State) returns (step: Step)
    requires Inv(s) && Current(s) && s.worker.Busy? && !s.worker.phase.Reporting? && Torn(s, s.worker.key)
    ensures Moves(s, step) && step.Proceed?
    ensures var s' := Apply(s, step);
            && Current(s') && s'.worker.Busy? && s'.worker.key == s.worker.key && Torn(s', s.worker.key)
            && (s'.worker.phase.Reporting? ==> s'.worker.phase.status != s'.worker.phase.snap.status)
  {
    hide Inv, Current, Apply, Torn, Steady;
    if s.worker.phase.Applying? {
      var n := UntoldConflict(s);
      step := Proceed(n);
      ConflictReported(s, n);
    } else {
      step := CanMove(s);
      BusyProceeds(s, step);
      NotReporting(s);
      ProceedSettles(s, step.choice);
      ReportsAfter(s, step.choice);
      StaysBusy(s, step.choice);
      TornStays(s, step.choice);
      TornRefs(Apply(s, step), s.worker.key);
    }
    TornStays(s, step.choice);
  }

  lemma TornRefs(s: State, k: Key)
    requires Torn(s, k)
    ensures k in s.policies && !s.policies[k].deleting && RefsOk(s, k, s.policies[k])
  {
  }

  lemma StaysBusy(s: State, choice: string)
    requires Inv(s) && Current(s) && s.worker.Busy? && !s.worker.phase.Reporting? && Torn(s, s.worker.key)
    ensures Apply(s, Proceed(choice)).worker.Busy? && Apply(s, Proceed(choice)).worker.key == s.worker.key
  {
    hide Inv, Current, Torn, RemoveNext, ApplyNext, ClearNext, ListOwned, PoolRefError, ProfileRefError, ListManaged;
    var key := s.worker.key;
    TornRefs(s, key);
    match s.worker.phase
    case Removing(_, _) => RemovingStaysBusy(s, choice);
    case Applying(snap, todo, applied) => ApplyNextCases(s, key, snap, todo, applied, choice);
    case ListingManaged(snap) => ListingStaysBusy(s);
    case ListingOwned(_) => NotDeleting(s);
    case Clearing(_, _) => NotDeleting(s);
    case _ =>
  }

  lemma RemovingStaysBusy(s: State, choice: string)
    requires s.worker.Busy? && s.worker.phase.Removing?
    ensures var worker := RemoveNext(s, s.worker.key, s.worker.phase.snap, s.worker.phase.pending, choice).worker;
            worker.Busy? && worker.key == s.worker.key
  {
    hide RemoveNext, Release;
    RemoveNextCases(s, choice);
  }

  lemma ListingStaysBusy(s: State)
    requires s.worker.Busy? && s.worker.phase.ListingManaged?
    ensures var worker := ListManaged(s, s.worker.key, s.worker.phase.snap).worker;
            worker.Busy? && worker.key == s.worker.key
  {
  }

  lemma NotDeleting(s: State)
    requires Inv(s) && s.worker.Busy? && (s.worker.phase.ListingOwned? || s.worker.phase.Clearing?)
    ensures s.worker.key in s.policies && s.policies[s.worker.key].deleting
  {
    hide IdsOk, NoOrphans, AllCoherent, NoLostWakeup, AllCopied, OwnsWithin;
  }

  lemma ConflictReported(s: State, n: string)
    requires Inv(s) && Current(s) && s.worker.Busy? && s.worker.phase.Applying? && n in s.worker.phase.todo
    requires n in s.namespaces && Conflicts(s.namespaces[n], s.worker.phase.snap.uid)
    ensures Moves(s, Proceed(n)) && Current(Apply(s, Proceed(n)))
    ensures var snap := s.worker.phase.snap;
            Apply(s, Proceed(n)).worker ==
                Busy(s.worker.key, Reporting(snap, Blocked(snap.generation, n, s.namespaces[n])))
  {
    hide Inv, Conflicts, ApplyNext, Settling, Blocked, Current, Truthful;
    var key, snap, todo, applied := s.worker.key, s.worker.phase.snap, s.worker.phase.todo, s.worker.phase.applied;
    ConflictTruth(s, n);
    CurrentSnap(s);
    ApplyNextCases(s, key, snap, todo, applied, n);
    ReportStartsCurrent(s, Blocked(snap.generation, n, s.namespaces[n]));
    SettlingIsCurrent(s, At(s, key, Reporting(snap, Blocked(snap.generation, n, s.namespaces[n]))));
  }

  lemma SettlingIsCurrent(s: State, s': State)
    requires Settling(s, s')
    ensures Current(s')
  {
    hide Current, Writes, Untruthful;
  }

  lemma {:induction false} RunsToReport(s: State, keys: set<Key>, limit: nat) returns (steps: seq<Step>)
    requires Inv(s) && Current(s) && Within(s, keys, limit) && s.worker.Busy? && Torn(s, s.worker.key)
    requires s.worker.phase.Reporting? ==> s.worker.phase.status != s.worker.phase.snap.status
    ensures steps != [] && EnabledRun(s, steps) && MovingRun(s, steps) && Flapping(Run(s, steps))
    decreases Remaining(s.worker, limit)
  {
    hide Inv, Current, Within, Torn, Remaining, Apply, Closer, Flapping, Moves, Enabled;
    var step := Proceed("");
    if s.worker.phase.Reporting? {
      ReportFlaps(s);
      step := CanMove(s);
      ReportIsNext(s, step);
      OneMove(s, step);
      steps := [step];
    } else {
      step := TowardsReport(s);
      ProceedAdvances(s, step.choice, keys, limit);
      WithinKept(s, step, keys, limit);
      MoveEnabled(s, step);
      StepKeepsInv(s, step);
      var rest := RunsToReport(Apply(s, step), keys, limit);
      steps := [step] + rest;
      assert steps[0] == step && steps[1..] == rest;
    }
  }

  lemma MoveEnabled(s: State, step: Step)
    requires Moves(s, step)
    ensures Enabled(s, step)
  {
  }

  lemma OneMove(s: State, step: Step)
    requires Moves(s, step)
    ensures EnabledRun(s, [step]) && MovingRun(s, [step]) && Run(s, [step]) == Apply(s, step)
  {
    hide Apply, Enabled;
    assert [step][1..] == [];
  }

  /** From a queued torn policy, adopted or not, the worker can get to where it is queued again. */
  lemma RunFlaps(s: State, k: Key) returns (steps: seq<Step>)
    requires Inv(s) && s.worker.Idle? && k in s.queue && Torn(s, k)
    ensures steps != [] && EnabledRun(s, steps) && MovingRun(s, steps) && Flapping(Run(s, steps))
  {
    hide Inv, Within, Torn, EnabledRun, MovingRun, Run, Flapping, Current;
    var s' := Apply(s, Dequeue(k));
    DequeueShape(s, k);
    StepKeepsInv(s, Dequeue(k));
    TornRefs(s, k);
    TornKept(s, s', k);
    StartedIsCurrent(s');
    var keys, limit := LimitsExist(s');
    var rest := RunsToReport(s', keys, limit);
    OneMove(s, Dequeue(k));
    RunsThen(s, [Dequeue(k)], rest);
    steps := [Dequeue(k)] + rest;
  }

  lemma StartedIsCurrent(s: State)
    requires s.worker.Busy? && s.worker.phase.Started?
    ensures Current(s)
  {
  }

  // ---------------------------------------------------------------- exactly then

  ghost predicate LongRun(s: State, steps: seq<Step>, length: nat) {
    EnabledRun(s, steps) && MovingRun(s, steps) && |steps| >= length
  }

  ghost predicate CanRunFor(s: State, length: nat) { exists steps :: LongRun(s, steps, length) }

  ghost predicate FlappingRun(s: State, steps: seq<Step>) {
    EnabledRun(s, steps) && MovingRun(s, steps) && Flapping(Run(s, steps))
  }

  lemma {:induction false} FlappingGoesOn(s: State, length: nat) returns (steps: seq<Step>)
    requires Inv(s) && Flapping(s)
    ensures LongRun(s, steps, length)
    decreases length
  {
    hide Inv, EnabledRun, MovingRun, Run, TwiceConflicted, RefsOk;
    if length == 0 {
      steps := [];
      EmptyRun(s);
    } else {
      var k :| k in s.queue && k in s.policies && Torn(s, k) && s.policies[k].finalizer;
      var once := RunFlaps(s, k);
      ReachableInv(s, once);
      var rest := FlappingGoesOn(Run(s, once), length - 1);
      RunsThen(s, once, rest);
      steps := once + rest;
    }
  }

  lemma EmptyRun(s: State)
    ensures EnabledRun(s, []) && MovingRun(s, []) && Run(s, []) == s
  {
  }

  /** A run that flaps somewhere has a part that ends there. */
  lemma {:induction false} FlapsSomewhere(s: State, steps: seq<Step>) returns (part: seq<Step>)
    requires EnabledRun(s, steps) && MovingRun(s, steps) && !NeverFlaps(s, steps)
    ensures FlappingRun(s, part)
    decreases |steps|
  {
    hide Apply, Enabled, Flapping, Moves;
    OneMove(s, steps[0]);
    if Flapping(Apply(s, steps[0])) {
      part := [steps[0]];
    } else {
      var rest := FlapsSomewhere(Apply(s, steps[0]), steps[1..]);
      part := [steps[0]] + rest;
      RunsThen(s, [steps[0]], rest);
    }
  }

  /** Livelock: from any state of the invariant, the worker's runs have no bound exactly if one of them comes,
      between two reconciles, to a queued live policy with finalizer and valid references that has at least
      two conflicts. */
  lemma UnboundedIff(s: State)
    requires Inv(s)
    ensures (forall length: nat :: CanRunFor(s, length)) <==> exists steps :: FlappingRun(s, steps)
  {
    hide Inv, Flapping, Within, Bound;
    if steps :| FlappingRun(s, steps) {
      ReachableInv(s, steps);
      forall length: nat ensures CanRunFor(s, length) {
        var rest := FlappingGoesOn(Run(s, steps), length);
        RunsThen(s, steps, rest);
        assert LongRun(s, steps + rest, length);
      }
    } else {
      var bound := BoundUnlessFlapping(s);
      assert !CanRunFor(s, bound);
    }
  }

  /** Otherwise there is a bound. */
  lemma BoundUnlessFlapping(s: State) returns (bound: nat)
    requires Inv(s) && !exists steps :: FlappingRun(s, steps)
    ensures !CanRunFor(s, bound)
  {
    hide Inv, Within, Bound, FlappingRun, EnabledRun, MovingRun, NeverFlaps;
    var keys, limit := LimitsExist(s);
    bound := Bound(keys, limit);
    forall steps ensures !LongRun(s, steps, bound) {
      if EnabledRun(s, steps) && MovingRun(s, steps) {
        if !NeverFlaps(s, steps) {
          var part := FlapsSomewhere(s, steps);
        }
        MovingRunsAreBounded(s, steps, keys, limit);
      }
    }
  }

  // ---------------------------------------------------------------- a condition that can be checked beforehand

  /** Somebody else owns `n`, selects it, or is being enforced with a spec that does. */
  ghost predicate Wanted(s: State, n: string, uid: string) {
    || OwnerAt(s.namespaces, n) !in {"", uid}
    || (exists l :: l in s.policies && s.policies[l].uid != uid && n in Selected(s.policies[l].spec))
    || (s.worker.Busy? && !s.worker.phase.Started? && s.worker.phase.snap.uid != uid
        && n in Selected(s.worker.phase.snap.spec))
  }

  /** No live policy selects two existing namespaces that others want too. */
  ghost predicate Uncontended(s: State) {
    forall k, m, n :: k in s.policies && !s.policies[k].deleting && m != n
                      && m in Targets(s.namespaces, s.policies[k]) && n in Targets(s.namespaces, s.policies[k]) ==>
                        !(Wanted(s, m, s.policies[k].uid) && Wanted(s, n, s.policies[k].uid))
  }

  lemma UncontendedDoesNotFlap(s: State)
    requires Uncontended(s)
    ensures !Flapping(s)
  {
    hide Selected, RefsOk;
  }

  /** The worker's policy is the one it had, or the one in the store, as far as UID and spec go. */
  ghost predicate SnapFrom(s: State, worker: Worker)
    requires s.worker.Busy?
  {
    worker.Busy? && !worker.phase.Started? ==>
      || (!s.worker.phase.Started? && worker.phase.snap.uid == s.worker.phase.snap.uid
          && worker.phase.snap.spec == s.worker.phase.snap.spec)
      || (s.worker.key in s.policies && worker.phase.snap.uid == s.policies[s.worker.key].uid
          && worker.phase.snap.spec == s.policies[s.worker.key].spec)
  }

  lemma SnapRead(s: State)
    requires s.worker.Busy?
    ensures SnapFrom(s, ReadPolicy(s, s.worker.key).worker) && SnapFrom(s, AddFinalizer(s, s.worker.key).worker)
  {
    hide SetPolicy;
  }

  lemma SnapAfter(s: State, choice: string)
    requires s.worker.Busy?
    ensures SnapFrom(s, Apply(s, Proceed(choice)).worker)
  {
    hide RemoveNext, ApplyNext, ClearNext, ReadPolicy, AddFinalizer, PoolRefError, ProfileRefError, Release, Selected,
         Owner, PatchStatus, SetPolicy, SetNamespace;
    SnapRead(s);
    match s.worker.phase
    case Removing(_, _) => RemoveNextCases(s, choice);
    case Applying(snap, todo, applied) => ApplyNextCases(s, s.worker.key, snap, todo, applied, choice);
    case Clearing(_, _) => ClearNextWorker(s, choice);
    case _ =>
  }

  lemma OwnerAfter(s: State, choice: string, n: string)
    requires Inv(s) && s.worker.Busy? && n in s.namespaces
    ensures var after := Owner(Apply(s, Proceed(choice)).namespaces[n]);
            || after in {"", Owner(s.namespaces[n])}
            || (!s.worker.phase.Started? && after == s.worker.phase.snap.uid && n in Selected(s.worker.phase.snap.spec))
  {
    hide Inv, Apply, Owner, Annotate, RemovePatch, Conflicts, Selected, Coherent;
    ProceedWrites(s, choice, n);
    if choice == n && s.worker.phase.Applying? {
      TodoSelected(s);
      AnnotateMeans(s.namespaces[n], s.worker.key, s.worker.phase.snap);
    } else if choice == n && (s.worker.phase.Removing? || s.worker.phase.Clearing?) && n in s.worker.phase.pending {
      ReleaseOwner(s, n);
    }
  }

  /** Nobody comes to want what they did not. */
  lemma WantedBefore(s: State, choice: string, n: string, uid: string)
    requires Inv(s) && s.worker.Busy? && n in s.namespaces && Wanted(Apply(s, Proceed(choice)), n, uid)
    ensures Wanted(s, n, uid)
  {
    hide Inv, Apply, Owner, Selected;
    ProceedShrinks(s, choice);
    OwnerAfter(s, choice, n);
    SnapAfter(s, choice);
  }

  lemma UncontendedStays(s: State, step: Step)
    requires Inv(s) && Moves(s, step) && Uncontended(s)
    ensures Uncontended(Apply(s, step))
  {
    hide Inv, Apply, Enabled, Selected, Wanted;
    MoveEnabled(s, step);
    if step.Dequeue? {
      DequeueUncontended(s, step.key);
    } else {
      ProceedShape(s, step.choice);
      ProceedShrinks(s, step.choice);
      hide Moves;
      var s' := Apply(s, step);
      forall k, m, n | k in s'.policies && !s'.policies[k].deleting && m != n
                       && m in Targets(s'.namespaces, s'.policies[k]) && n in Targets(s'.namespaces, s'.policies[k])
        ensures !(Wanted(s', m, s'.policies[k].uid) && Wanted(s', n, s'.policies[k].uid))
      {
        assert m in Targets(s.namespaces, s.policies[k]) && n in Targets(s.namespaces, s.policies[k]);
        if Wanted(s', m, s'.policies[k].uid) && Wanted(s', n, s'.policies[k].uid) {
          WantedBefore(s, step.choice, m, s.policies[k].uid);
          WantedBefore(s, step.choice, n, s.policies[k].uid);
          assert false;
        }
      }
    }
  }

  lemma DequeueUncontended(s: State, key: Key)
    requires Enabled(s, Dequeue(key)) && Uncontended(s)
    ensures Uncontended(Apply(s, Dequeue(key)))
  {
    hide Apply, Enabled, Selected, Owner;
    DequeueShape(s, key);
    var s' := Apply(s, Dequeue(key));
    forall n, uid | Wanted(s', n, uid) ensures Wanted(s, n, uid) {
    }
    hide Wanted;
  }

  lemma {:induction false} UncontendedNeverFlaps(s: State, steps: seq<Step>)
    requires Inv(s) && Uncontended(s) && EnabledRun(s, steps) && MovingRun(s, steps)
    ensures NeverFlaps(s, steps)
    decreases |steps|
  {
    hide Inv, Apply, Enabled, Moves, Uncontended, Flapping;
    if steps != [] {
      UncontendedStays(s, steps[0]);
      UncontendedDoesNotFlap(Apply(s, steps[0]));
      StepKeepsInv(s, steps[0]);
      UncontendedNeverFlaps(Apply(s, steps[0]), steps[1..]);
    }
  }

  /** So, where no live policy selects two existing namespaces that others own or select, or that the run in
      progress is after, the worker left alone comes to rest within a bound. */
  lemma UncontendedRunsAreBounded(s: State) returns (bound: nat)
    requires Inv(s) && Uncontended(s)
    ensures forall steps :: EnabledRun(s, steps) && MovingRun(s, steps) ==> |steps| < bound
  {
    hide Inv, Within, Bound, Uncontended, NeverFlaps, EnabledRun, MovingRun;
    var keys, limit := LimitsExist(s);
    bound := Bound(keys, limit);
    forall steps | EnabledRun(s, steps) && MovingRun(s, steps) ensures |steps| < bound {
      UncontendedNeverFlaps(s, steps);
      MovingRunsAreBounded(s, steps, keys, limit);
    }
  }
}
