/** What users can rely on, in every run of the ownership protocol. */
module PolicyTheorems {
  import opened Text
  import opened Objects
  import opened Policies
  import opened PolicyEnforcement
  import opened PolicyProtocol
  import opened PolicyInvariants

  // ---------------------------------------------------------------- every reachable state

  /** No lost wakeup, and no lie. A policy that is neither queued nor worked on is not marked for deletion,
      and its status tells the truth about its current generation. Either a lookup that failed in its latest
      run was taken for a broken reference, or a reference is broken, and the status says which; or the
      policy owns no namespace that it does not select, and either some existing namespace it selects belongs
      to somebody else, and the status names such a namespace and its holder, or the policy owns exactly the
      existing namespaces it selects, with the values its spec demands, and reports their number. */
  lemma RestingPoliciesAreSettled(s0: State, steps: seq<Step>, k: Key)
    requires Initial(s0) && EnabledRun(s0, steps)
    requires var s := Run(s0, steps); k in s.policies && AtRest(s, k)
    ensures var s := Run(s0, steps);
            var p := s.policies[k];
            var broken := RefError(k.ns, p.spec, s.pools, s.profiles, s.names);
            && !p.deleting
            && (if k in s.misled then p.status == Invalid(p.generation, s.misled[k])
                else if broken.Some? then p.status == Invalid(p.generation, broken.value)
                else
                  && Managed(s.namespaces, p.uid) <= Targets(s.namespaces, p)
                  && if exists n :: n in Targets(s.namespaces, p) && Conflicts(s.namespaces[n], p.uid) then
                       exists n :: n in Targets(s.namespaces, p) && Conflicts(s.namespaces[n], p.uid)
                                   && p.status == Blocked(p.generation, n, s.namespaces[n])
                     else
                       && Managed(s.namespaces, p.uid) == Targets(s.namespaces, p)
                       && (forall n :: n in Targets(s.namespaces, p) ==> Carries(s.namespaces[n], k, p))
                       && p.status == Enforcement(p.generation, |Targets(s.namespaces, p)|))
  {
    hide PoolRefError, ProfileRefError, Carries, Conflicts, Selected, Owner, Blocked;
    InitialInv(s0);
    ReachableInv(s0, steps);
  }

  /** Some existing namespace that the policy selects has another owner. */
  ghost predicate TakenElsewhere(nss: Namespaces, p: Policy) {
    exists n :: n in nss && n in Selected(p.spec) && "dns.astradns.com/external-policy-owner-uid" in nss[n]
                && nss[n]["dns.astradns.com/external-policy-owner-uid"] !in {"", p.uid}
  }

  /** The fields of a resting policy's status. Validated holds exactly if the references are valid, none of their
      lookups failed, and no selected existing namespace has another owner; the reason tells these three apart;
      namespaces are counted only where it holds; and all of it is about the policy's generation. */
  lemma RestingStatusTells(s0: State, steps: seq<Step>, k: Key)
    requires Initial(s0) && EnabledRun(s0, steps)
    requires var s := Run(s0, steps); k in s.policies && AtRest(s, k)
    ensures var s := Run(s0, steps);
            var p := s.policies[k];
            var found := ReferencesOk(k.ns, p.spec, s.pools, s.profiles, s.names) && k !in s.misled;
            var taken := TakenElsewhere(s.namespaces, p);
            && p.status.condition.Some?
            && var c := p.status.condition.value;
            && (c.validated <==> found && !taken)
            && (c.reason == ValidationFailed <==> !found)
            && (c.reason == EnforcementFailed <==> found && taken)
            && (c.reason == Policies.Enforced <==> c.validated)
            && p.status.applied == (if c.validated then |Selected(p.spec) * s.namespaces.Keys| else 0)
            && c.generation == p.status.generation == p.generation
  {
    hide ReferencesOk, RefError, Conflicts, Selected, Owner, Exact, OwnsWithin;
    InitialInv(s0);
    ReachableInv(s0, steps);
    var s := Run(s0, steps);
    assert Settled(s, k);
    TakenMeans(s.namespaces, s.policies[k]);
  }

  lemma TakenMeans(nss: Namespaces, p: Policy)
    ensures TakenElsewhere(nss, p) <==> Conflicted(nss, p)
  {
    hide Selected, Conflicts;
    forall n | n in nss
      ensures Conflicts(nss[n], p.uid) <==>
              "dns.astradns.com/external-policy-owner-uid" in nss[n]
              && nss[n]["dns.astradns.com/external-policy-owner-uid"] !in {"", p.uid}
    {
      ConflictsMean(nss[n], p.uid);
    }
    if TakenElsewhere(nss, p) {
      var n :| n in nss && n in Selected(p.spec) && "dns.astradns.com/external-policy-owner-uid" in nss[n]
               && nss[n]["dns.astradns.com/external-policy-owner-uid"] !in {"", p.uid};
      assert n in Targets(nss, p);
    }
  }

  /** Exactly when a resting policy is enforced and says so: its references are valid, its latest run met no
      failed lookup of them, and it is not in conflict. */
  lemma RestingEnforcedIff(s0: State, steps: seq<Step>, k: Key)
    requires Initial(s0) && EnabledRun(s0, steps)
    requires var s := Run(s0, steps); k in s.policies && AtRest(s, k)
    ensures var s := Run(s0, steps);
            var p := s.policies[k];
            Exact(s.namespaces, k, p) && p.status == Enforcement(p.generation, |Targets(s.namespaces, p)|) <==>
            ReferencesOk(k.ns, p.spec, s.pools, s.profiles, s.names) && k !in s.misled && !Conflicted(s.namespaces, p)
  {
    hide ReferencesOk, Carries, Conflicts, Selected, Owner;
    InitialInv(s0);
    ReachableInv(s0, steps);
  }

  /** The worker's next call looks up a pool or profile, and fails. */
  predicate LookupFails(s: State, step: Step) {
    step.CallFails? && s.worker.Busy? && (s.worker.phase.CheckingPool? || s.worker.phase.CheckingProfile?)
  }

  ghost predicate LookupsSucceed(s: State, steps: seq<Step>)
    requires EnabledRun(s, steps)
    decreases |steps|
  {
    steps == [] || (!LookupFails(s, steps[0]) && LookupsSucceed(Apply(s, steps[0]), steps[1..]))
  }

  /** Where no lookup fails, nothing is excepted. */
  lemma {:induction false} NoneMisled(s: State, steps: seq<Step>)
    requires s.misled == map[] && EnabledRun(s, steps) && LookupsSucceed(s, steps)
    ensures Run(s, steps).misled == map[]
    decreases |steps|
  {
    if steps != [] {
      MisledStep(s, steps[0]);
      hide Apply, Enabled, LookupFails;
      NoneMisled(Apply(s, steps[0]), steps[1..]);
    }
  }

  lemma MisledStep(s: State, step: Step)
    requires s.misled == map[] && Enabled(s, step) && !LookupFails(s, step)
    ensures Apply(s, step).misled == map[]
  {
    hide Annotate, RemovePatch, Selected, PoolRefOk, ProfileRefOk, Owner, Conflicts, Reannotated, PatchStatus;
  }

  ghost function StateAt(s: State, steps: seq<Step>, i: nat): State
    requires EnabledRun(s, steps) && i <= |steps|
    decreases i
  {
    if i == 0 then s else StateAt(Apply(s, steps[0]), steps[1..], i - 1)
  }

  /** Step `i` of the run is a failing lookup on behalf of `k`, whose key is not taken from the queue again. */
  ghost predicate LatestLookupFails(s: State, steps: seq<Step>, i: nat, k: Key)
    requires EnabledRun(s, steps) && i < |steps|
  {
    && LookupFails(StateAt(s, steps, i), steps[i]) && StateAt(s, steps, i).worker.key == k
    && Dequeue(k) !in steps[i + 1..]
  }

  /** What it takes to be misled, in terms of the run alone. */
  lemma {:induction false} MisledIff(s: State, steps: seq<Step>, k: Key)
    requires EnabledRun(s, steps)
    ensures k in Run(s, steps).misled <==>
            || (k in s.misled && Dequeue(k) !in steps)
            || exists i :: 0 <= i < |steps| && LatestLookupFails(s, steps, i, k)
    decreases |steps|
  {
    hide Apply, Enabled, LookupFails;
    if steps != [] {
      var s', rest := Apply(s, steps[0]), steps[1..];
      MisledIff(s', rest, k);
      MisledStepIff(s, steps[0], k);
      assert steps == [steps[0]] + rest;
      assert forall i :: 0 <= i < |rest| ==> steps[i + 1..][1..] == rest[i + 1..] && rest[i] == steps[i + 1];
      if i :| 0 <= i < |rest| && LatestLookupFails(s', rest, i, k) {
        assert StateAt(s, steps, i + 1) == StateAt(s', rest, i);
        assert LatestLookupFails(s, steps, i + 1, k);
      }
      if i :| 0 <= i < |steps| && LatestLookupFails(s, steps, i, k) {
        if i > 0 {
          assert StateAt(s, steps, i) == StateAt(s', rest, i - 1);
          assert LatestLookupFails(s', rest, i - 1, k);
        }
      }
      assert steps[0 + 1..] == rest;
      assert StateAt(s, steps, 0) == s;
      if LookupFails(s, steps[0]) && s.worker.key == k && Dequeue(k) !in rest {
        assert LatestLookupFails(s, steps, 0, k);
      }
    }
  }

  lemma MisledStepIff(s: State, step: Step, k: Key)
    requires Enabled(s, step)
    ensures k in Apply(s, step).misled <==>
            (LookupFails(s, step) && s.worker.key == k) || (k in s.misled && step != Dequeue(k))
    ensures LookupFails(s, step) ==> s.worker.Busy? && step != Dequeue(k)
  {
    hide Advance, Selected, PoolRefError, ProfileRefError, Reannotated;
    if step.Proceed? {
      ProceedMisleadsNobody(s, step.choice);
    }
  }

  lemma ProceedMisleadsNobody(s: State, choice: string)
    requires s.worker.Busy?
    ensures Advance(s, choice).misled == s.misled
  {
    hide RemoveNext, ApplyNext, PoolRefError, ProfileRefError, Selected, Owner, PatchStatus, SetNamespace, RemovePatch,
         Annotate, Conflicts;
    match s.worker.phase
    case Removing(_, pending) =>
      RemoveNextCases(s, choice);
      SetNamespaceSets(s, choice, RemovePatch(if choice in s.namespaces then s.namespaces[choice] else map[],
                                              if choice in pending then pending[choice] else map[]));
    case Applying(snap, todo, applied) =>
      ApplyNextCases(s, s.worker.key, snap, todo, applied, choice);
      SetNamespaceSets(s, choice,
          Annotate(if choice in s.namespaces then s.namespaces[choice] else map[], s.worker.key, snap));
    case Clearing(_, pending) =>
      SetNamespaceSets(s, choice, RemovePatch(if choice in s.namespaces then s.namespaces[choice] else map[],
                                              if choice in pending then pending[choice] else map[]));
    case _ =>
  }

  // ---------------------------------------------------------------- owners

  /** No orphans. Every owner in the cluster is the UID of a policy in the store that still has the
      finalizer, so nothing names a policy that is gone; and no two policies share a UID. */
  lemma OwnersExist(s0: State, steps: seq<Step>, n: string)
    requires Initial(s0) && EnabledRun(s0, steps) && n in Run(s0, steps).namespaces
    ensures var s := Run(s0, steps);
            && Coherent(s.namespaces[n])
            && (Owner(s.namespaces[n]) != "" ==>
                  exists k :: k in s.policies && s.policies[k].uid == Owner(s.namespaces[n]) && s.policies[k].finalizer
                              && forall l :: l in s.policies && s.policies[l].uid == s.policies[k].uid ==> l == k)
  {
    hide Coherent, Owner;
    InitialInv(s0);
    ReachableInv(s0, steps);
    var s := Run(s0, steps);
    if Owner(s.namespaces[n]) != "" {
      var k :| Owns(s.policies, k, Owner(s.namespaces[n]));
    }
  }

  // ---------------------------------------------------------------- ownership is handed over, never taken

  /** The worker is about to release `n` on behalf of the policy with this UID. */
  predicate ReleasesFor(s: State, step: Step, n: string, uid: string) {
    && step == Proceed(n) && s.worker.Busy?
    && (s.worker.phase.Removing? || s.worker.phase.Clearing?)
    && s.worker.phase.snap.uid == uid && n in s.worker.phase.pending
  }

  /** The worker is about to apply the policy with this UID to `n`. */
  predicate ClaimsFor(s: State, step: Step, n: string, uid: string) {
    step == Proceed(n) && s.worker.Busy? && s.worker.phase.Applying? && s.worker.phase.snap.uid == uid
  }

  lemma ReleaseOwner(s: State, n: string)
    requires Inv(s) && s.worker.Busy? && (s.worker.phase.Removing? || s.worker.phase.Clearing?)
    requires n in s.worker.phase.pending && n in s.namespaces
    ensures Owner(s.namespaces[n]) in {"", s.worker.phase.snap.uid}
    ensures Owner(RemovePatch(s.namespaces[n], s.worker.phase.pending[n])) == ""
  {
    hide Owner, RemovePatch, IdsOk, NoOrphans, AllCoherent, NoLostWakeup, Held, OwnsWithin;
    assert Copied(s.namespaces, n, s.worker.phase.pending[n], s.worker.phase.snap.uid);
    RemovedIsFree(s.namespaces[n], s.worker.phase.pending[n]);
  }

  lemma UserOwner(s: State, step: Step, n: string)
    requires UserStep(step) && Enabled(s, step)
    requires n in s.namespaces && n in Apply(s, step).namespaces
    ensures Owner(Apply(s, step).namespaces[n]) == Owner(s.namespaces[n])
  {
    hide Owner, SameMarks;
    if step.AnnotateNamespace? && step.name == n {
      hide Owner, SameMarks, Reannotated;
      ReannotatedMarks(s.namespaces[n], step.annotations);
      MarksMean(s.namespaces[n], Reannotated(s.namespaces[n], step.annotations), Key("", ""),
                Policy("", PolicySpec([], "", ""), 1, false, false, Status(None, 0, 0)));
    }
  }

  /** Whether, and how, the worker's next step writes namespace `n`. */
  ghost function Written(s: State, choice: string, n: string): Annotations
    requires s.worker.Busy? && n in s.namespaces
  {
    if choice == n && (s.worker.phase.Removing? || s.worker.phase.Clearing?) && n in s.worker.phase.pending then
      RemovePatch(s.namespaces[n], s.worker.phase.pending[n])
    else if choice == n && s.worker.phase.Applying? && n in s.worker.phase.todo
            && !Conflicts(s.namespaces[n], s.worker.phase.snap.uid) then
      Annotate(s.namespaces[n], s.worker.key, s.worker.phase.snap)
    else s.namespaces[n]
  }

  lemma RemovalWrites(s: State, choice: string, n: string)
    requires s.worker.Busy? && n in s.namespaces && s.worker.phase.Removing?
    ensures var s' := RemoveNext(s, s.worker.key, s.worker.phase.snap, s.worker.phase.pending, choice);
            n in s'.namespaces && s'.namespaces[n] == Written(s, choice, n)
  {
    hide RemovePatch, Selected, SetNamespace, RemoveNext;
    RemoveNextCases(s, choice);
    if choice in s.namespaces && choice in s.worker.phase.pending {
      SetNamespaceSets(s, choice, RemovePatch(s.namespaces[choice], s.worker.phase.pending[choice]));
    }
  }

  lemma ClearanceWrites(s: State, choice: string, n: string)
    requires s.worker.Busy? && n in s.namespaces && s.worker.phase.Clearing?
    ensures var s' := ClearNext(s, s.worker.key, s.worker.phase.snap, s.worker.phase.pending, choice);
            n in s'.namespaces && s'.namespaces[n] == Written(s, choice, n)
  {
    hide RemovePatch, SetNamespace;
    if choice in s.namespaces && choice in s.worker.phase.pending {
      SetNamespaceSets(s, choice, RemovePatch(s.namespaces[choice], s.worker.phase.pending[choice]));
    }
  }

  lemma ApplicationWrites(s: State, choice: string, n: string)
    requires s.worker.Busy? && n in s.namespaces && s.worker.phase.Applying?
    ensures var s' := ApplyNext(s, s.worker.key, s.worker.phase.snap, s.worker.phase.todo, s.worker.phase.applied,
                                choice);
            n in s'.namespaces && s'.namespaces[n] == Written(s, choice, n)
  {
    hide Annotate, Selected, SetNamespace, Conflicts, ApplyNext;
    var key, snap, todo, applied := s.worker.key, s.worker.phase.snap, s.worker.phase.todo, s.worker.phase.applied;
    ApplyNextCases(s, key, snap, todo, applied, choice);
    if choice in s.namespaces {
      SetNamespaceSets(s, choice, Annotate(s.namespaces[choice], key, snap));
    }
  }

  lemma ProceedWrites(s: State, choice: string, n: string)
    requires s.worker.Busy? && n in s.namespaces
    ensures var s' := Apply(s, Proceed(choice));
            n in s'.namespaces && s'.namespaces[n] == Written(s, choice, n)
  {
    hide RemoveNext, ApplyNext, ClearNext, PoolRefError, ProfileRefError, Selected, Owner, PatchStatus;
    match s.worker.phase
    case Removing(_, _) => RemovalWrites(s, choice, n);
    case Applying(_, _, _) => ApplicationWrites(s, choice, n);
    case Clearing(_, _) => ClearanceWrites(s, choice, n);
    case _ =>
  }

  /** Other steps than the worker's writes and the users' leave the namespaces alone. */
  lemma OthersWriteNothing(s: State, step: Step)
    requires Enabled(s, step) && (step.Dequeue? || step.CallFails? || step.Restart?)
    ensures Apply(s, step).namespaces == s.namespaces
  {
  }

  /** One step never moves a namespace from one owner to another: an owner that changes is either cleared
      by its own policy's run, or set by a policy's run on a namespace that nobody owned. */
  lemma OwnerStep(s: State, step: Step, n: string)
    requires Inv(s) && Enabled(s, step)
    requires n in s.namespaces && n in Apply(s, step).namespaces
    ensures var before, after := Owner(s.namespaces[n]), Owner(Apply(s, step).namespaces[n]);
            before == after
            || (after == "" && ReleasesFor(s, step, n, before))
            || (before == "" && ClaimsFor(s, step, n, after))
  {
    hide Owner, Annotate, RemovePatch, Inv, Apply, Conflicts;
    if UserStep(step) {
      hide Enabled;
      UserOwner(s, step, n);
    } else if step.Proceed? {
      ProceedWrites(s, step.choice, n);
      OwnerWritten(s, step.choice, n);
    } else {
      OthersWriteNothing(s, step);
    }
  }

  lemma OwnerWritten(s: State, choice: string, n: string)
    requires Inv(s) && s.worker.Busy? && n in s.namespaces
    ensures var before, after := Owner(s.namespaces[n]), Owner(Written(s, choice, n));
            before == after
            || (after == "" && ReleasesFor(s, Proceed(choice), n, before))
            || (before == "" && ClaimsFor(s, Proceed(choice), n, after))
  {
    hide Owner, Annotate, RemovePatch, Inv, Coherent;
    if choice == n && s.worker.phase.Applying? {
      AnnotateMeans(s.namespaces[n], s.worker.key, s.worker.phase.snap);
    } else if choice == n && (s.worker.phase.Removing? || s.worker.phase.Clearing?) && n in s.worker.phase.pending {
      ReleaseOwner(s, n);
    }
  }

  /** `n` is neither released on behalf of `uid` nor deleted during the run. */
  ghost predicate Undisturbed(s: State, steps: seq<Step>, n: string, uid: string)
    requires EnabledRun(s, steps)
    decreases |steps|
  {
    steps == [] ||
    (!ReleasesFor(s, steps[0], n, uid) && steps[0] != DeleteNamespace(n)
        && Undisturbed(Apply(s, steps[0]), steps[1..], n, uid))
  }

  lemma NamespacesStay(s: State, step: Step, n: string)
    requires Enabled(s, step) && n in s.namespaces && step != DeleteNamespace(n)
    ensures n in Apply(s, step).namespaces
  {
    if step.Proceed? {
      hide Apply;
      ProceedWrites(s, step.choice, n);
    } else if !UserStep(step) {
      OthersWriteNothing(s, step);
    }
  }

  /** Exclusive ownership over whole runs: an owner stays until its own run releases the namespace or a
      user deletes it, whatever other policies do. */
  lemma {:induction false} OwnerPersists(s: State, steps: seq<Step>, n: string)
    requires Inv(s) && EnabledRun(s, steps) && n in s.namespaces && Owner(s.namespaces[n]) != ""
    requires Undisturbed(s, steps, n, Owner(s.namespaces[n]))
    ensures n in Run(s, steps).namespaces && Owner(Run(s, steps).namespaces[n]) == Owner(s.namespaces[n])
    decreases |steps|
  {
    hide Inv, Enabled, Apply, ReleasesFor, ClaimsFor, Owner;
    if steps != [] {
      var s' := Apply(s, steps[0]);
      NamespacesStay(s, steps[0], n);
      OwnerStep(s, steps[0], n);
      StepKeepsInv(s, steps[0]);
      OwnerPersists(s', steps[1..], n);
    }
  }

  // ---------------------------------------------------------------- the users' annotations

  /** A worker step leaves the users' annotations of a namespace alone, with one exception: a release
      wipes those that were added after a listing which found none. */
  lemma OthersKeptIff(s: State, choice: string, n: string)
    requires Inv(s) && s.worker.Busy? && n in s.namespaces
    ensures var s' := Apply(s, Proceed(choice));
            var releases := choice == n && (s.worker.phase.Removing? || s.worker.phase.Clearing?)
                && n in s.worker.phase.pending;
            && n in s'.namespaces
            && (Others(s'.namespaces[n]) == Others(s.namespaces[n]) <==>
                !(releases && Others(s.worker.phase.pending[n]) == map[] && Others(s.namespaces[n]) != map[]))
  {
    hide Inv, Owner, Annotate, RemovePatch, Others, Conflicts, Copied, Apply;
    ProceedWrites(s, choice, n);
    if choice == n && s.worker.phase.Applying? {
      AnnotateKeepsOthers(s.namespaces[n], s.worker.key, s.worker.phase.snap);
    } else if choice == n && (s.worker.phase.Removing? || s.worker.phase.Clearing?) && n in s.worker.phase.pending {
      PendingCopied(s, n);
      CopiedRemoval(s.namespaces, n, s.worker.phase.pending[n], s.worker.phase.snap.uid);
    }
  }

  lemma PendingCopied(s: State, n: string)
    requires Inv(s) && s.worker.Busy? && (s.worker.phase.Removing? || s.worker.phase.Clearing?)
             && n in s.worker.phase.pending
    ensures Copied(s.namespaces, n, s.worker.phase.pending[n], s.worker.phase.snap.uid)
  {
    hide IdsOk, NoOrphans, AllCoherent, NoLostWakeup;
  }

  lemma CopiedRemoval(nss: Namespaces, n: string, copy: Annotations, uid: string)
    requires Copied(nss, n, copy, uid) && n in nss
    ensures Others(RemovePatch(nss[n], copy)) == Others(nss[n]) <==> Others(copy) != map[] || Others(nss[n]) == map[]
  {
    hide RemovePatch, Others, Owner;
    RemoveKeepsOthersIff(nss[n], copy);
  }

  // ---------------------------------------------------------------- an undisturbed run refines enforcement

  /** Only the worker moves. */
  predicate WorkerOnlySteps(steps: seq<Step>) {
    forall i :: 0 <= i < |steps| ==> steps[i].Proceed?
  }

  /** The namespaces when all but `pending` have been released, having started from `nss0`. */
  ghost predicate ReleasedUpTo(nss0: Namespaces, nss: Namespaces, p: Policy, pending: set<string>) {
    && nss.Keys == nss0.Keys
    && forall n :: n in nss0 ==> nss[n] == if n in pending then nss0[n] else Released(nss0, p)[n]
  }

  /** Where an enforcement that nobody interferes with can stand. */
  ghost predicate EnforcementPhase(nss0: Namespaces, key: Key, p: Policy, s: State) {
    s.worker.Busy? && s.worker.key == key && !Conflicted(Released(nss0, p), p) &&
    match s.worker.phase
    case ListingManaged(snap) => snap == p && s.namespaces == nss0
    case Removing(snap, pending) =>
      && snap == p && ReleasedUpTo(nss0, s.namespaces, p, pending.Keys)
      && (forall n :: n in pending ==>
         n in nss0 && pending[n] == nss0[n] && Owner(nss0[n]) == p.uid && n !in Selected(p.spec))
    case Applying(snap, todo, applied) =>
      snap == p && AppliedUpTo(Released(nss0, p), s.namespaces, key, p, todo, applied)
    case Reporting(snap, status) =>
      snap == p && s.namespaces == EnforcedState(nss0, key, p)
          && status == Enforcement(p.generation, |Targets(nss0, p)|)
    case _ => false
  }

  lemma StartsReleasing(nss0: Namespaces, p: Policy, pending: Namespaces)
    requires forall n :: n in pending <==> n in nss0 && Owner(nss0[n]) == p.uid && n !in Selected(p.spec)
    ensures ReleasedUpTo(nss0, nss0, p, pending.Keys)
  {
    hide Owner, Selected, Others;
  }

  lemma ReleasesNext(nss0: Namespaces, nss: Namespaces, p: Policy, pending: Namespaces, n: string)
    requires ReleasedUpTo(nss0, nss, p, pending.Keys) && n in pending && n in nss0
    requires pending[n] == nss0[n] && Owner(nss0[n]) == p.uid && n !in Selected(p.spec)
    ensures n in nss && ReleasedUpTo(nss0, nss[n := RemovePatch(nss[n], pending[n])], p, (pending - {n}).Keys)
  {
    hide Owner, Selected, Others, RemovePatch, Coherent;
    RemoveFresh(nss0[n]);
  }

  lemma StartsApplying(nss0: Namespaces, nss: Namespaces, key: Key, p: Policy, pending: Namespaces)
    requires ReleasedUpTo(nss0, nss, p, pending.Keys) && pending == map[]
    ensures AppliedUpTo(Released(nss0, p), nss, key, p, Selected(p.spec), 0)
  {
    hide Selected, Others, Owner, AppliedUpTo;
    assert nss == Released(nss0, p);
    AppliedStart(nss, key, p);
  }

  lemma EndsEnforced(nss0: Namespaces, nss: Namespaces, key: Key, p: Policy, applied: nat)
    requires AppliedUpTo(Released(nss0, p), nss, key, p, {}, applied)
    ensures nss == EnforcedState(nss0, key, p) && applied == |Targets(nss0, p)|
  {
    hide Selected, Annotate, Others, Owner, AppliedUpTo, Conflicts;
    AppliedEnd(Released(nss0, p), nss, key, p, applied);
    assert Released(nss0, p).Keys == nss0.Keys;
  }

  lemma SetNamespaceSets(s: State, n: string, a: Annotations)
    ensures SetNamespace(s, n, a).namespaces == s.namespaces[n := a]
    ensures SetNamespace(s, n, a).policies == s.policies && SetNamespace(s, n, a).worker == s.worker
    ensures SetNamespace(s, n, a).misled == s.misled
  {
    hide Selecting;
    if n in s.namespaces && s.namespaces[n] == a {
      assert s.namespaces == s.namespaces[n := a];
    }
  }

  lemma RemovingStep(nss0: Namespaces, key: Key, p: Policy, s: State, choice: string)
    requires EnforcementPhase(nss0, key, p, s) && s.worker.phase.Removing?
    ensures EnforcementPhase(nss0, key, p, Apply(s, Proceed(choice)))
  {
    hide Owner, Selected, Released, RemovePatch, Conflicted, ReleasedUpTo, AppliedUpTo, SetNamespace, PoolRefOk,
         ProfileRefOk;
    var pending := s.worker.phase.pending;
    if pending == map[] {
      StartsApplying(nss0, s.namespaces, key, p, pending);
    } else if choice in pending {
      ReleasesNext(nss0, s.namespaces, p, pending, choice);
      SetNamespaceSets(s, choice, RemovePatch(s.namespaces[choice], pending[choice]));
    }
  }

  lemma ApplyingStep(nss0: Namespaces, key: Key, p: Policy, s: State, todo: set<string>, applied: nat, choice: string)
    requires s.worker == Busy(key, Applying(p, todo, applied)) && EnforcementPhase(nss0, key, p, s)
    ensures EnforcementPhase(nss0, key, p, ApplyNext(s, key, p, todo, applied, choice))
  {
    hide ApplyNext, Owner, Selected, Annotate, AppliedUpTo, Conflicted, Released, SetNamespace, Conflicts, Targets,
         EnforcedState;
    ApplyNextCases(s, key, p, todo, applied, choice);
    if todo == {} {
      EndsEnforced(nss0, s.namespaces, key, p, applied);
    } else if choice in todo {
      AppliedNext(Released(nss0, p), s.namespaces, key, p, todo, applied, choice);
      if choice in s.namespaces {
        NoConflictAt(Released(nss0, p), s.namespaces, key, p, todo, applied, choice);
        SetNamespaceSets(s, choice, Annotate(s.namespaces[choice], key, p));
      }
    }
  }

  lemma NoConflictAt(base: Namespaces, nss: Namespaces, key: Key, p: Policy, todo: set<string>, applied: nat, n: string)
    requires AppliedUpTo(base, nss, key, p, todo, applied) && n in todo && n in nss && !Conflicted(base, p)
    ensures !Conflicts(nss[n], p.uid)
  {
    hide Selected, Annotate, Conflicts;
    assert n in nss.Keys && n in Targets(base, p);
  }

  lemma ProceedApplies(s: State, choice: string)
    requires s.worker.Busy? && s.worker.phase.Applying?
    ensures Enabled(s, Proceed(choice))
    ensures Apply(s, Proceed(choice)) ==
            ApplyNext(s, s.worker.key, s.worker.phase.snap, s.worker.phase.todo, s.worker.phase.applied, choice)
  {
    hide ApplyNext;
  }

  lemma ListingStep(nss0: Namespaces, key: Key, p: Policy, s: State, choice: string)
    requires EnforcementPhase(nss0, key, p, s) && s.worker.phase.ListingManaged?
    ensures EnforcementPhase(nss0, key, p, Apply(s, Proceed(choice)))
  {
    hide Owner, Selected, Released, Conflicted, ReleasedUpTo, PoolRefOk, ProfileRefOk;
    var s' := Apply(s, Proceed(choice));
    StartsReleasing(nss0, p, s'.worker.phase.pending);
  }

  /** An enforcement that no user step interrupts does what the sequential loops do, in whatever order
      they go: if no selected namespace has another owner, the worker arrives at its report with exactly
      the enforced state and the number of its targets. */
  lemma {:induction false} UninterruptedEnforcement(nss0: Namespaces, key: Key, p: Policy, s: State, steps: seq<Step>)
    requires EnforcementPhase(nss0, key, p, s) && EnabledRun(s, steps) && WorkerOnlySteps(steps)
    requires Run(s, steps).worker.Busy? && Run(s, steps).worker.phase.Reporting?
    ensures Run(s, steps).namespaces == EnforcedState(nss0, key, p)
    ensures Run(s, steps).worker == Busy(key, Reporting(p, Enforcement(p.generation, |Targets(nss0, p)|)))
    decreases |steps|
  {
    hide Apply, Enabled, ReleasedUpTo, AppliedUpTo, Conflicted, Selected, EnforcedState, Targets, Owner, Released;
    if steps != [] {
      var s' := Apply(s, steps[0]);
      if s.worker.phase.Reporting? {
        ReportEnds(s, steps[0]);
        IdleEnds(s', steps[1..]);
      } else {
        EnforcementPhaseStep(nss0, key, p, s, steps[0]);
        UninterruptedEnforcement(nss0, key, p, s', steps[1..]);
      }
    }
  }

  lemma IdleEnds(s: State, steps: seq<Step>)
    requires s.worker.Idle? && EnabledRun(s, steps) && WorkerOnlySteps(steps)
    ensures Run(s, steps).worker.Idle?
  {
  }

  lemma ReportEnds(s: State, step: Step)
    requires s.worker.Busy? && s.worker.phase.Reporting? && step.Proceed?
    ensures Apply(s, step).worker.Idle?
  {
  }

  lemma EnforcementPhaseStep(nss0: Namespaces, key: Key, p: Policy, s: State, step: Step)
    requires EnforcementPhase(nss0, key, p, s) && step.Proceed? && !s.worker.phase.Reporting?
    ensures Enabled(s, step) && EnforcementPhase(nss0, key, p, Apply(s, step))
  {
    hide Apply, ReleasedUpTo, AppliedUpTo, Conflicted, Selected, EnforcedState, Targets, Owner, Released;
    if s.worker.phase.ListingManaged? {
      ListingStep(nss0, key, p, s, step.choice);
    } else if s.worker.phase.Removing? {
      RemovingStep(nss0, key, p, s, step.choice);
    } else {
      ProceedApplies(s, step.choice);
      ApplyingStep(nss0, key, p, s, s.worker.phase.todo, s.worker.phase.applied, step.choice);
    }
  }

  lemma ReleasingConflicts(nss: Namespaces, p: Policy)
    ensures Conflicted(Released(nss, p), p) <==> Conflicted(nss, p)
  {
    hide Selected, Others;
    forall a {:trigger Others(a)} ensures Owner(Others(a)) == "" { OthersUnowned(a); }
    if n :| n in Targets(nss, p) && Conflicts(nss[n], p.uid) {
      assert n in Targets(Released(nss, p), p) && Released(nss, p)[n] == nss[n];
    }
    if n :| n in Targets(Released(nss, p), p) && Conflicts(Released(nss, p)[n], p.uid) {
      assert n in Targets(nss, p) && Released(nss, p)[n] == nss[n];
    }
  }

  /** The same from the listing on: the interleaved worker, left alone, refines the sequential enforcement. */
  lemma UninterruptedRun(key: Key, p: Policy, s: State, steps: seq<Step>)
    requires s.worker == Busy(key, ListingManaged(p)) && !Conflicted(s.namespaces, p)
    requires EnabledRun(s, steps) && WorkerOnlySteps(steps)
    requires Run(s, steps).worker.Busy? && Run(s, steps).worker.phase.Reporting?
    ensures Run(s, steps).namespaces == EnforcedState(s.namespaces, key, p)
    ensures Run(s, steps).worker == Busy(key, Reporting(p, Enforcement(p.generation, |Targets(s.namespaces, p)|)))
  {
    hide Run, EnabledRun, Conflicted, Released, EnforcedState, Targets, WorkerOnlySteps;
    ReleasingConflicts(s.namespaces, p);
    UninterruptedEnforcement(s.namespaces, key, p, s, steps);
  }

  // ---------------------------------------------------------------- the sequential effects

  /** A successful enforcement leaves the policy owning exactly its targets, with its current values. */
  lemma EnforcedIsExact(nss: Namespaces, key: Key, p: Policy)
    requires p.uid != ""
    ensures Exact(EnforcedState(nss, key, p), key, p)
  {
    hide Selected, Annotate, Others, Carries;
    forall a {:trigger Annotate(a, key, p)}
        ensures Carries(Annotate(a, key, p), key, p) && Owner(Annotate(a, key, p)) == p.uid {
      OneNamespace(a, key, p);
    }
    forall a {:trigger Others(a)} ensures Owner(Others(a)) == "" { OthersUnowned(a); }
    assert EnforcedState(nss, key, p).Keys == nss.Keys;
  }

  /** Clearing leaves a policy owning nothing, and everybody else's namespaces as they were. */
  lemma ClearedOwnsNothing(nss: Namespaces, uid: string)
    requires uid != ""
    ensures Managed(ClearedState(nss, uid), uid) == {}
    ensures forall n :: n in nss ==> OwnMove(Owner(nss[n]), Owner(ClearedState(nss, uid)[n]), uid)
                                     && Others(ClearedState(nss, uid)[n]) == Others(nss[n])
  {
    hide Others;
    forall n | n in nss ensures Owner(Others(nss[n])) == "" && Others(Others(nss[n])) == Others(nss[n]) {
      OthersUnowned(nss[n]);
    }
  }
}
