/** What holds in every reachable state of the ownership protocol. */
module PolicyInvariants {
  import opened Text
  import opened Objects
  import opened Policies
  import opened PolicyEnforcement
  import opened PolicyProtocol

  // ---------------------------------------------------------------- the invariant

  /** UIDs identify policies, and a policy marked for deletion still has its finalizer. */
  ghost predicate IdsOk(s: State) {
    && (forall k :: k in s.policies ==>
          s.policies[k].uid != "" && s.policies[k].uid in s.uids
              && (s.policies[k].deleting ==> s.policies[k].finalizer))
    && (forall k, l :: k in s.policies && l in s.policies && s.policies[k].uid == s.policies[l].uid ==> k == l)
  }

  predicate Owns(policies: map<Key, Policy>, k: Key, uid: string) {
    k in policies && policies[k].uid == uid && policies[k].finalizer
  }

  /** No orphans: every owner is a policy in the store that still carries the finalizer. */
  ghost predicate NoOrphans(s: State) {
    forall n :: n in s.namespaces && Owner(s.namespaces[n]) != "" ==>
        exists k :: Owns(s.policies, k, Owner(s.namespaces[n]))
  }

  ghost predicate AllCoherent(s: State) {
    forall n :: n in s.namespaces ==> Coherent(s.namespaces[n])
  }

  /** `uid` owns nothing outside `names`. */
  ghost predicate OwnsWithin(nss: Namespaces, uid: string, names: set<string>) {
    forall n :: n in nss && Owner(nss[n]) == uid ==> n in names
  }

  /** A listed copy of a namespace, against the namespace as it is now: it may have been deleted and
      created again, or re-annotated by users, but nobody else has taken it. */
  predicate Copied(nss: Namespaces, n: string, copy: Annotations, uid: string) {
    && OWNER_UID in copy
    && (n in nss ==> Owner(nss[n]) in {"", uid} && nss[n].Keys * POLICY_KEYS <= copy.Keys)
  }

  ghost predicate AllCopied(nss: Namespaces, pending: Namespaces, uid: string) {
    forall n :: n in pending ==> Copied(nss, n, pending[n], uid)
  }

  /** `names` is a set of namespaces on which the policy is fully applied. */
  ghost predicate Applied(nss: Namespaces, names: set<string>, key: Key, p: Policy) {
    forall n :: n in names && n in nss ==> Carries(nss[n], key, p)
  }

  ghost predicate PoolOk(s: State, k: Key, p: Policy) { PoolRefOk(k.ns, p.spec, s.pools, s.names) }

  ghost predicate RefsOk(s: State, k: Key, p: Policy) { ReferencesOk(k.ns, p.spec, s.pools, s.profiles, s.names) }

  /** The policy owns exactly its targets, with the values its spec demands. */
  ghost predicate Exact(nss: Namespaces, k: Key, p: Policy) {
    Managed(nss, p.uid) == Targets(nss, p) && Applied(nss, Targets(nss, p), k, p)
  }

  ghost function BrokenRef(s: State, k: Key, p: Policy): ReferenceError
    requires !RefsOk(s, k, p)
  {
    RefError(k.ns, p.spec, s.pools, s.profiles, s.names).value
  }

  /** The status names one of the conflicts. */
  ghost predicate TellsConflict(nss: Namespaces, p: Policy, status: Status) {
    exists n :: n in Targets(nss, p) && Conflicts(nss[n], p.uid) && status == Blocked(p.generation, n, nss[n])
  }

  /** A truthful status, of a policy that owns nothing it does not select unless its references are broken
      (or a failed lookup took them for broken): it tells these, conflict and enforcement apart, and says
      which reference is broken or which namespace is taken, and by whom. */
  ghost predicate Justified(s: State, k: Key, p: Policy, status: Status) {
    if k in s.misled then status == Invalid(p.generation, s.misled[k])
    else if !RefsOk(s, k, p) then status == Invalid(p.generation, BrokenRef(s, k, p))
    else if Conflicted(s.namespaces, p) then
      TellsConflict(s.namespaces, p, status) && OwnsWithin(s.namespaces, p.uid, Selected(p.spec))
    else status == Enforcement(p.generation, |Targets(s.namespaces, p)|) && Exact(s.namespaces, k, p)
  }

  /** Nothing is left to do for a policy, and its status is truthful. */
  ghost predicate Settled(s: State, k: Key)
    requires k in s.policies
  {
    var p := s.policies[k];
    !p.deleting && Justified(s, k, p, p.status)
  }

  /** The policy the worker works on is in the store, with its finalizer; if its key has not been queued
      since, the worker's object is current. */
  ghost predicate Held(s: State, key: Key, snap: Policy) {
    Owns(s.policies, key, snap.uid) && (key !in s.queue ==> s.policies[key] == snap)
  }

  /** The policy's references were found valid; if its key has not been queued since, they still are. */
  ghost predicate Validated(s: State, key: Key, snap: Policy) {
    Held(s, key, snap) && !snap.deleting && snap.spec.upstreamRef != "" && (key !in s.queue ==> RefsOk(s, key, snap))
  }

  ghost predicate PhaseOk(s: State, key: Key, phase: Phase) {
    match phase
    case Started => true
    case Adopting(_) => key in s.policies ==> !s.policies[key].finalizer
    case CheckingPool(snap) => Held(s, key, snap) && !snap.deleting
    case CheckingProfile(snap) =>
      && Held(s, key, snap) && !snap.deleting && snap.spec.upstreamRef != ""
      && (key !in s.queue ==> PoolOk(s, key, snap))
    case ListingManaged(snap) => Validated(s, key, snap)
    case Removing(snap, pending) =>
      && Validated(s, key, snap)
      && AllCopied(s.namespaces, pending, snap.uid)
      && OwnsWithin(s.namespaces, snap.uid, Selected(snap.spec) + pending.Keys)
    case Applying(snap, todo, applied) =>
      && Validated(s, key, snap)
      && OwnsWithin(s.namespaces, snap.uid, Selected(snap.spec))
      && todo <= Selected(snap.spec)
      && (key !in s.queue ==>
            Applied(s.namespaces, Selected(snap.spec) - todo, key, snap)
            && applied == |(Selected(snap.spec) - todo) * s.namespaces.Keys|)
    case Reporting(snap, status) =>
      Held(s, key, snap) && !snap.deleting && (key !in s.queue ==> Justified(s, key, snap, status))
    case ListingOwned(snap) => Held(s, key, snap) && s.policies[key].deleting
    case Clearing(snap, pending) =>
      && Held(s, key, snap) && s.policies[key].deleting
      && AllCopied(s.namespaces, pending, snap.uid)
      && OwnsWithin(s.namespaces, snap.uid, pending.Keys)
  }

  /** A run that is misled has nothing left to do but to say so. */
  ghost predicate WorkerOk(s: State) {
    s.worker.Busy? ==>
      && PhaseOk(s, s.worker.key, s.worker.phase)
      && (s.worker.key in s.misled ==>
            && s.worker.phase.Reporting?
            && s.worker.phase.status == Invalid(s.worker.phase.snap.generation, s.misled[s.worker.key]))
  }

  /** Neither queued nor being worked on. */
  predicate AtRest(s: State, k: Key) { k !in s.queue && !(s.worker.Busy? && s.worker.key == k) }

  /** No lost wakeup: a policy at rest is settled. */
  ghost predicate NoLostWakeup(s: State) {
    forall k :: k in s.policies && AtRest(s, k) ==> Settled(s, k)
  }

  ghost predicate Inv(s: State) {
    IdsOk(s) && NoOrphans(s) && AllCoherent(s) && WorkerOk(s) && NoLostWakeup(s)
  }

  lemma InitialInv(s: State)
    requires Initial(s)
    ensures Inv(s)
  {
  }

  // ---------------------------------------------------------------- steps that leave namespaces alone

  /** The same cluster. */
  ghost predicate SameCluster(s: State, s': State) {
    && s'.policies == s.policies && s'.namespaces == s.namespaces && s'.pools == s.pools && s'.profiles == s.profiles
    && s'.names == s.names && s'.uids == s.uids
  }

  ghost predicate SameMisled(s: State, s': State, k: Key) {
    (k in s'.misled <==> k in s.misled) && (k in s.misled ==> s'.misled[k] == s.misled[k])
  }

  lemma WorkerOnly(s: State, s': State)
    requires Inv(s) && SameCluster(s, s') && WorkerOk(s')
    requires forall k :: k in s.policies && AtRest(s', k) ==>
             (AtRest(s, k) || Settled(s, k)) && SameMisled(s, s', k)
    ensures Inv(s')
  {
    hide Owner, Coherent, WorkerOk, Exact, Conflicted, ReferencesOk;
  }

  lemma DequeueKeeps(s: State, key: Key)
    requires Inv(s) && Enabled(s, Dequeue(key))
    ensures Inv(Apply(s, Dequeue(key)))
  {
    hide Settled, NoOrphans, AllCoherent, IdsOk;
    WorkerOnly(s, Apply(s, Dequeue(key)));
  }

  lemma FailKeeps(s: State)
    requires Inv(s) && s.worker.Busy?
    ensures Inv(Fail(s, s.worker.key))
  {
    hide Settled, NoOrphans, AllCoherent, IdsOk, PhaseOk;
    WorkerOnly(s, Fail(s, s.worker.key));
  }

  lemma FailEnforcementKeeps(s: State, error: string)
    requires Inv(s) && s.worker.Busy?
             && (s.worker.phase.ListingManaged? || s.worker.phase.Removing? || s.worker.phase.Applying?)
    ensures Inv(FailEnforcement(s, s.worker.key, s.worker.phase.snap, error))
  {
    hide Settled, NoOrphans, AllCoherent, IdsOk, AllCopied, OwnsWithin, Applied, Justified;
    WorkerOnly(s, FailEnforcement(s, s.worker.key, s.worker.phase.snap, error));
  }

  lemma FailLookupKeeps(s: State, error: string)
    requires Inv(s) && s.worker.Busy? && (s.worker.phase.CheckingPool? || s.worker.phase.CheckingProfile?)
    ensures Inv(FailCall(s, error))
  {
    hide Settled, NoOrphans, AllCoherent, IdsOk, AllCopied, OwnsWithin, Applied, RefsOk, Conflicted, Exact;
    WorkerOnly(s, FailCall(s, error));
  }

  lemma FailCallKeeps(s: State, error: string)
    requires Inv(s) && s.worker.Busy?
    ensures Inv(FailCall(s, error))
  {
    hide Inv;
    match s.worker.phase
    case CheckingPool(_) => FailLookupKeeps(s, error);
    case CheckingProfile(_) => FailLookupKeeps(s, error);
    case ListingManaged(_) => FailEnforcementKeeps(s, error);
    case Removing(_, _) => FailEnforcementKeeps(s, error);
    case Applying(_, _, _) => FailEnforcementKeeps(s, error);
    case _ => FailKeeps(s);
  }

  /** The worker moves on to a phase whose facts hold. */
  lemma PhaseKeeps(s: State, phase: Phase)
    requires Inv(s) && s.worker.Busy? && PhaseOk(s, s.worker.key, phase) && s.worker.key !in s.misled
    ensures Inv(At(s, s.worker.key, phase))
  {
    hide Settled, NoOrphans, AllCoherent, IdsOk;
    var s' := At(s, s.worker.key, phase);
    SamePhase(s, s', s.worker.key, phase);
    hide PhaseOk;
    WorkerOnly(s, s');
  }

  lemma SamePhase(s: State, s': State, key: Key, phase: Phase)
    requires SameCluster(s, s') && s'.queue == s.queue && s'.misled == s.misled && PhaseOk(s, key, phase)
    ensures PhaseOk(s', key, phase)
  {
    hide Owner, Carries, Copied, ReferencesOk, Selected, Conflicts;
  }

  // ---------------------------------------------------------------- steps that change one namespace

  /** Only `n` may differ. */
  ghost predicate ExceptAt(nss: Namespaces, nss': Namespaces, n: string) {
    forall m :: m != n ==> (m in nss <==> m in nss') && (m in nss ==> nss'[m] == nss[m])
  }

  /** A change outside the selection, by which nobody but perhaps another policy gains the namespace,
      keeps what is known about policy `p`. */
  lemma UnselectedChange(nss: Namespaces, nss': Namespaces, n: string, k: Key, p: Policy, gainer: string)
    requires ExceptAt(nss, nss', n) && n !in Selected(p.spec)
    requires OwnerAt(nss', n) in {OwnerAt(nss, n), "", gainer} && gainer != p.uid && p.uid != ""
    ensures Targets(nss', p) == Targets(nss, p)
    ensures Conflicted(nss, p) <==> Conflicted(nss', p)
    ensures forall status :: TellsConflict(nss, p, status) ==> TellsConflict(nss', p, status)
    ensures OwnsWithin(nss, p.uid, Selected(p.spec)) ==> OwnsWithin(nss', p.uid, Selected(p.spec))
    ensures Exact(nss, k, p) ==> Exact(nss', k, p)
  {
    hide Owner, Carries, Selected, Conflicts, Blocked;
    assert Targets(nss', p) == Targets(nss, p);
    if Conflicted(nss, p) {
      var m :| m in Targets(nss, p) && Conflicts(nss[m], p.uid);
      assert m in Targets(nss', p) && nss'[m] == nss[m];
    }
    forall status | TellsConflict(nss, p, status) ensures TellsConflict(nss', p, status) {
      var m :| m in Targets(nss, p) && Conflicts(nss[m], p.uid) && status == Blocked(p.generation, m, nss[m]);
      assert m in Targets(nss', p) && nss'[m] == nss[m];
    }
    if Conflicted(nss', p) {
      var m :| m in Targets(nss', p) && Conflicts(nss'[m], p.uid);
      assert m in Targets(nss, p) && nss'[m] == nss[m];
    }
    if Exact(nss, k, p) {
      forall m ensures m in Managed(nss', p.uid) <==> m in Managed(nss, p.uid) {
        assert m == n ==> m !in Managed(nss, p.uid);
      }
      assert Managed(nss', p.uid) == Managed(nss, p.uid);
    }
  }

  /** Everything but `n`, the queue and the worker stays as it is, and a change of `n` is announced. */
  ghost predicate NamespaceChange(s: State, s': State, n: string) {
    && s'.policies == s.policies && s'.pools == s.pools && s'.profiles == s.profiles
    && s'.names == s.names && s'.uids == s.uids && s'.misled == s.misled
    && ExceptAt(s.namespaces, s'.namespaces, n)
    && s.queue <= s'.queue
    && (s'.namespaces == s.namespaces || Selecting(s, n) <= s'.queue)
  }

  lemma SettledKept(s: State, s': State, n: string, k: Key, gainer: string)
    requires NamespaceChange(s, s', n) && k in s.policies && s.policies[k].uid != "" && Settled(s, k)
    requires OwnerAt(s'.namespaces, n) in {OwnerAt(s.namespaces, n), "", gainer} && gainer != s.policies[k].uid
    requires k !in s'.queue
    ensures Settled(s', k)
  {
    hide OwnerAt, Conflicted, Exact, Selected, ReferencesOk, Targets;
    if s'.namespaces != s.namespaces {
      assert k !in Selecting(s, n);
      UnselectedChange(s.namespaces, s'.namespaces, n, k, s.policies[k], gainer);
    }
  }

  /** The operator's part of the annotations is the same. */
  predicate SameMarks(a: Annotations, b: Annotations) {
    forall k :: k in POLICY_KEYS ==> (k in a <==> k in b) && (k in a ==> a[k] == b[k])
  }

  lemma MarksMean(a: Annotations, b: Annotations, key: Key, p: Policy)
    requires SameMarks(a, b)
    ensures Owner(a) == Owner(b) && (Coherent(a) <==> Coherent(b)) && (Carries(a, key, p) <==> Carries(b, key, p))
  {
    hide TrimSpace, QualifiedName;
    assert forall k :: k in POLICY_KEYS ==> Get(a, k) == Get(b, k);
  }

  lemma UnmarkedMeans(a: Annotations)
    requires a.Keys !! POLICY_KEYS
    ensures Owner(a) == "" && Coherent(a)
  {
  }

  /** The user's kind of change: the namespace goes, or comes without marks, or keeps its marks. */
  predicate UserChange(nss: Namespaces, nss': Namespaces, n: string) {
    n in nss' ==> if n in nss then SameMarks(nss[n], nss'[n]) else nss'[n].Keys !! POLICY_KEYS
  }

  lemma UserChangeOwner(nss: Namespaces, nss': Namespaces, n: string)
    requires UserChange(nss, nss', n)
    ensures OwnerAt(nss', n) in {OwnerAt(nss, n), ""}
    ensures n in nss' && (n in nss ==> Coherent(nss[n])) ==> Coherent(nss'[n])
  {
    hide Owner, Coherent, SameMarks, Carries;
    if n in nss' && n in nss {
      MarksMean(nss[n], nss'[n], Key("", ""), Policy("", PolicySpec([], "", ""), 1, false, false, Status(None, 0, 0)));
    } else if n in nss' {
      UnmarkedMeans(nss'[n]);
    }
  }

  lemma UserChangeCopied(nss: Namespaces, nss': Namespaces, n: string, pending: Namespaces, uid: string)
    requires ExceptAt(nss, nss', n) && UserChange(nss, nss', n) && AllCopied(nss, pending, uid)
    ensures AllCopied(nss', pending, uid)
  {
    hide Owner;
    UserChangeOwner(nss, nss', n);
    forall m | m in pending ensures Copied(nss', m, pending[m], uid) {
      assert Copied(nss, m, pending[m], uid);
      if m == n && n in nss' && n !in nss {
        assert nss'[n].Keys * POLICY_KEYS == {};
      }
    }
  }

  lemma UserChangeWithin(nss: Namespaces, nss': Namespaces, n: string, uid: string, names: set<string>)
    requires ExceptAt(nss, nss', n) && UserChange(nss, nss', n) && uid != "" && OwnsWithin(nss, uid, names)
    ensures OwnsWithin(nss', uid, names)
  {
    hide Owner;
    UserChangeOwner(nss, nss', n);
  }

  /** A change outside the selection keeps a partial application. */
  lemma UnselectedApplied(nss: Namespaces, nss': Namespaces, n: string, names: set<string>, key: Key, p: Policy)
    requires ExceptAt(nss, nss', n) && n !in names && Applied(nss, names, key, p)
    ensures Applied(nss', names, key, p) && names * nss'.Keys == names * nss.Keys
  {
    hide Carries;
  }

  lemma UserChangePhase(s: State, s': State, n: string, key: Key, phase: Phase)
    requires NamespaceChange(s, s', n) && UserChange(s.namespaces, s'.namespaces, n)
    requires IdsOk(s) && PhaseOk(s, key, phase)
    ensures PhaseOk(s', key, phase)
  {
    hide Owner, UserChange, OwnsWithin, AllCopied, Applied, Exact, Conflicted, ReferencesOk, OwnerAt, Selected, Targets,
         ExceptAt;
    if !phase.Started? && !phase.Adopting? {
      var snap := phase.snap;
      assert snap.uid != "";
      UserChangeOwner(s.namespaces, s'.namespaces, n);
      if phase.Removing? || phase.Clearing? {
        UserChangeCopied(s.namespaces, s'.namespaces, n, phase.pending, snap.uid);
        UserChangeWithin(s.namespaces, s'.namespaces, n, snap.uid,
                         if phase.Removing? then Selected(snap.spec) + phase.pending.Keys else phase.pending.Keys);
      }
      if phase.Applying? {
        UserChangeWithin(s.namespaces, s'.namespaces, n, snap.uid, Selected(snap.spec));
      }
      if key !in s'.queue && s'.namespaces != s.namespaces {
        assert key !in Selecting(s, n);
        if phase.Applying? {
          UnselectedApplied(s.namespaces, s'.namespaces, n, Selected(snap.spec) - phase.todo, key, snap);
        }
        if phase.Reporting? {
          UnselectedChange(s.namespaces, s'.namespaces, n, key, snap, "");
        }
      }
    }
  }

  lemma CoherentExceptAt(s: State, s': State, n: string)
    requires AllCoherent(s) && ExceptAt(s.namespaces, s'.namespaces, n)
    requires n in s'.namespaces ==> Coherent(s'.namespaces[n])
    ensures AllCoherent(s')
  {
    hide Coherent;
  }

  lemma OrphansExceptAt(s: State, s': State, n: string)
    requires NoOrphans(s) && ExceptAt(s.namespaces, s'.namespaces, n) && s'.policies == s.policies
    requires OwnerAt(s'.namespaces, n) in {OwnerAt(s.namespaces, n), ""}
             || exists k :: Owns(s.policies, k, OwnerAt(s'.namespaces, n))
    ensures NoOrphans(s')
  {
    hide Owner, Owns;
    forall m | m in s'.namespaces && Owner(s'.namespaces[m]) != ""
        ensures exists k :: Owns(s'.policies, k, Owner(s'.namespaces[m])) {
      assert m in s.namespaces && s'.namespaces[m] == s.namespaces[m] ==>
          exists k :: Owns(s.policies, k, Owner(s.namespaces[m]));
      if m == n && OwnerAt(s'.namespaces, n) == OwnerAt(s.namespaces, n) {
        assert Owner(s.namespaces[m]) != "";
      }
    }
  }

  lemma UserChangeKeeps(s: State, s': State, n: string)
    requires Inv(s) && NamespaceChange(s, s', n) && UserChange(s.namespaces, s'.namespaces, n) && s'.worker == s.worker
    ensures Inv(s')
  {
    hide UserChange, Coherent, OwnerAt, Settled, PhaseOk, Owns, Owner, ExceptAt;
    UserChangeOwner(s.namespaces, s'.namespaces, n);
    CoherentExceptAt(s, s', n);
    OrphansExceptAt(s, s', n);
    if s.worker.Busy? {
      UserChangePhase(s, s', n, s.worker.key, s.worker.phase);
    }
    forall k | k in s'.policies && AtRest(s', k) ensures Settled(s', k) {
      SettledKept(s, s', n, k, "");
    }
  }

  lemma ReannotatedMarks(a: Annotations, annotations: Annotations)
    requires annotations.Keys !! POLICY_KEYS
    ensures SameMarks(a, Reannotated(a, annotations))
  {
  }

  lemma NamespaceStepsKeep(s: State, step: Step)
    requires Inv(s) && Enabled(s, step)
    requires step.CreateNamespace? || step.AnnotateNamespace? || step.DeleteNamespace?
    ensures Inv(Apply(s, step))
  {
    hide Inv, SameMarks, Reannotated;
    var s' := Apply(s, step);
    if step.AnnotateNamespace? {
      ReannotatedMarks(s.namespaces[step.name], step.annotations);
    }
    assert NamespaceChange(s, s', step.name) && UserChange(s.namespaces, s'.namespaces, step.name) by {
      if step.AnnotateNamespace? && Reannotated(s.namespaces[step.name], step.annotations) == s.namespaces[step.name] {
        assert s' == s;
      }
    }
    UserChangeKeeps(s, s', step.name);
  }

  // ---------------------------------------------------------------- steps that change one policy

  /** Only policy `key` may differ; it is announced, owners stay owners, and deletion is not taken back. */
  ghost predicate PolicyChange(s: State, s': State, key: Key) {
    && s'.namespaces == s.namespaces && s'.pools == s.pools && s'.profiles == s.profiles && s'.names == s.names
    && s'.misled == s.misled && s'.queue == s.queue + {key}
    && (forall k :: k != key ==> (k in s.policies <==> k in s'.policies))
    && (forall k :: k != key && k in s.policies ==> s'.policies[k] == s.policies[k])
    && (forall uid :: Owns(s.policies, key, uid) ==>
       Owns(s'.policies, key, uid) || uid !in set n | n in s.namespaces :: Owner(s.namespaces[n]))
  }

  lemma OthersSettled(s: State, s': State, key: Key, k: Key)
    requires PolicyChange(s, s', key) && k in s.policies && k != key
    ensures Settled(s, k) <==> Settled(s', k)
  {
    hide Conflicted, Exact, ReferencesOk, Targets, Owner, Owns;
  }

  lemma PolicyChangeOrphans(s: State, s': State, key: Key)
    requires NoOrphans(s) && PolicyChange(s, s', key)
    ensures NoOrphans(s')
  {
    hide Owner;
    forall n | n in s'.namespaces && Owner(s'.namespaces[n]) != ""
        ensures exists k :: Owns(s'.policies, k, Owner(s'.namespaces[n])) {
      var k :| Owns(s.policies, k, Owner(s.namespaces[n]));
      assert k != key ==> Owns(s'.policies, k, Owner(s.namespaces[n]));
      assert Owner(s.namespaces[n]) in set m | m in s.namespaces :: Owner(s.namespaces[m]);
    }
  }

  lemma PolicyChangeKeeps(s: State, s': State, key: Key)
    requires Inv(s) && PolicyChange(s, s', key) && IdsOk(s') && WorkerOk(s')
    requires s'.worker == s.worker || (s.worker.Busy? && s.worker.key == key)
    ensures Inv(s')
  {
    hide Coherent, Owner, Settled, PhaseOk, Owns, IdsOk, NoOrphans;
    PolicyChangeOrphans(s, s', key);
    forall k | k in s'.policies && AtRest(s', k) ensures Settled(s', k) {
      OthersSettled(s, s', key, k);
    }
  }

  /** A user's change of a policy does not disturb the worker. */
  lemma PolicyChangeWorker(s: State, s': State, key: Key)
    requires PolicyChange(s, s', key) && WorkerOk(s) && s'.worker == s.worker
    requires key in s.policies && s.policies[key].finalizer ==>
               key in s'.policies && s'.policies[key].finalizer && s'.policies[key].uid == s.policies[key].uid
               && (s.policies[key].deleting ==> s'.policies[key].deleting)
    requires key in s'.policies && s'.policies[key].finalizer ==> key in s.policies && s.policies[key].finalizer
    ensures WorkerOk(s')
  {
    hide AllCopied, OwnsWithin, Applied, Selected, Exact, Conflicted, ReferencesOk, Targets, Owner;
  }

  lemma PolicyStepIds(s: State, step: Step)
    requires IdsOk(s) && Enabled(s, step) && (step.CreatePolicy? || step.EditPolicy? || step.DeletePolicy?)
    ensures IdsOk(Apply(s, step))
  {
  }

  lemma PolicyStepShape(s: State, step: Step)
    requires Enabled(s, step) && (step.CreatePolicy? || step.EditPolicy? || step.DeletePolicy?)
    ensures var s' := Apply(s, step);
            var key := step.key;
            s' == s || (
              && PolicyChange(s, s', key) && s'.worker == s.worker
              && (key in s.policies && s.policies[key].finalizer ==>
                    key in s'.policies && s'.policies[key].finalizer && s'.policies[key].uid == s.policies[key].uid
                    && (s.policies[key].deleting ==> s'.policies[key].deleting))
              && (key in s'.policies && s'.policies[key].finalizer ==> key in s.policies && s.policies[key].finalizer))
  {
    hide Owner;
  }

  lemma PolicyStepsKeep(s: State, step: Step)
    requires Inv(s) && Enabled(s, step) && (step.CreatePolicy? || step.EditPolicy? || step.DeletePolicy?)
    ensures Inv(Apply(s, step))
  {
    hide WorkerOk, NoOrphans, NoLostWakeup, AllCoherent, IdsOk, PolicyChange, Apply, Enabled;
    PolicyStepIds(s, step);
    PolicyStepShape(s, step);
    var s' := Apply(s, step);
    if s' != s {
      PolicyChangeWorker(s, s', step.key);
      PolicyChangeKeeps(s, s', step.key);
    }
  }

  // ---------------------------------------------------------------- pools and profiles

  /** The references of policies that are not notified of a change of pools or profiles are as they were. */
  ghost predicate ReferenceChange(s: State, s': State) {
    && s'.policies == s.policies && s'.namespaces == s.namespaces && s'.names == s.names && s'.uids == s.uids
    && s'.worker == s.worker && s'.misled == s.misled && s.queue <= s'.queue
    && forall k :: k in s.policies && k !in s'.queue ==>
         SameRefs(s, s', k, s.policies[k])
  }

  ghost predicate SameRefs(s: State, s': State, k: Key, p: Policy) {
    && PoolRefError(k.ns, p.spec, s'.pools, s'.names) == PoolRefError(k.ns, p.spec, s.pools, s.names)
    && ProfileRefError(k.ns, p.spec, s'.profiles, s'.names) == ProfileRefError(k.ns, p.spec, s.profiles, s.names)
  }

  lemma SameRefsJustify(s: State, s': State, k: Key, p: Policy, status: Status)
    requires SameRefs(s, s', k, p) && s'.namespaces == s.namespaces && s'.misled == s.misled
    ensures (RefsOk(s', k, p) <==> RefsOk(s, k, p)) && (PoolOk(s', k, p) <==> PoolOk(s, k, p))
    ensures Justified(s', k, p, status) <==> Justified(s, k, p, status)
  {
    hide PoolRefError, ProfileRefError, Conflicted, TellsConflict, Exact, OwnsWithin, Targets;
  }

  lemma ReferenceChangeKeeps(s: State, s': State)
    requires Inv(s) && ReferenceChange(s, s')
    ensures Inv(s')
  {
    hide NoOrphans, AllCoherent, IdsOk, Justified, RefsOk, PoolOk, AllCopied, OwnsWithin, Applied, Selected, Owner,
         SameRefs;
    ReferenceChangeRest(s, s');
    if s.worker.Busy? && !s.worker.phase.Started? && s.worker.key !in s'.queue && s.worker.key in s.policies {
      var k, p := s.worker.key, s.policies[s.worker.key];
      SameRefsJustify(s, s', k, p, if s.worker.phase.Reporting? then s.worker.phase.status else p.status);
    }
    forall k | k in s'.policies && AtRest(s', k) ensures Settled(s', k) {
      SameRefsJustify(s, s', k, s.policies[k], s.policies[k].status);
    }
  }

  lemma ReferenceChangeRest(s: State, s': State)
    requires Inv(s) && ReferenceChange(s, s')
    ensures IdsOk(s') && NoOrphans(s') && AllCoherent(s')
  {
    hide Owner, Coherent, Owns, WorkerOk, NoLostWakeup, RefsOk;
  }

  lemma ReferrersNotified(s: State, step: Step)
    requires Enabled(s, step) && (step.CreatePool? || step.DeletePool? || step.CreateProfile? || step.DeleteProfile?)
    ensures ReferenceChange(s, Apply(s, step))
  {
    hide TrimSpace, SelectorOk;
    var s' := Apply(s, step);
    forall k | k in s.policies && k !in s'.queue
      ensures SameRefs(s, s', k, s.policies[k])
    {
    }
  }

  lemma ReferenceStepsKeep(s: State, step: Step)
    requires Inv(s) && Enabled(s, step)
             && (step.CreatePool? || step.DeletePool? || step.CreateProfile? || step.DeleteProfile?)
    ensures Inv(Apply(s, step))
  {
    hide Inv, ReferenceChange;
    ReferrersNotified(s, step);
    ReferenceChangeKeeps(s, Apply(s, step));
  }

  // ---------------------------------------------------------------- worker steps

  lemma ReadPolicyKeeps(s: State)
    requires Inv(s) && s.worker.Busy? && s.worker.phase.Started?
    ensures Inv(ReadPolicy(s, s.worker.key))
  {
    hide NoOrphans, AllCoherent, Settled;
    var key := s.worker.key;
    if key !in s.policies {
      WorkerOnly(s, ReadPolicy(s, key));
    } else {
      var p := s.policies[key];
      PhaseKeeps(s, if p.deleting then ListingOwned(p) else if p.finalizer then CheckingPool(p) else Adopting(p));
    }
  }

  lemma AddFinalizerIds(s: State)
    requires IdsOk(s) && s.worker.Busy?
    ensures IdsOk(AddFinalizer(s, s.worker.key))
  {
  }

  lemma AddFinalizerShape(s: State)
    requires WorkerOk(s) && s.worker.Busy? && s.worker.phase.Adopting? && s.worker.key in s.policies
    requires s.policies[s.worker.key].deleting ==> s.policies[s.worker.key].finalizer
    ensures var s' := AddFinalizer(s, s.worker.key);
            PolicyChange(s, s', s.worker.key) && WorkerOk(s')
  {
    hide Owner;
  }

  lemma AddFinalizerKeeps(s: State)
    requires Inv(s) && s.worker.Busy? && s.worker.phase.Adopting?
    ensures Inv(AddFinalizer(s, s.worker.key))
  {
    hide NoOrphans, AllCoherent, NoLostWakeup, WorkerOk, PolicyChange, SetPolicy;
    var key := s.worker.key;
    if key in s.policies {
      AddFinalizerIds(s);
      AddFinalizerShape(s);
      PolicyChangeKeeps(s, AddFinalizer(s, key), key);
    } else {
      FailKeeps(s);
    }
  }

  lemma CheckPoolKeeps(s: State)
    requires Inv(s) && s.worker.Busy? && s.worker.phase.CheckingPool?
    ensures Inv(CheckPool(s, s.worker.key, s.worker.phase.snap))
  {
    hide NoOrphans, AllCoherent, NoLostWakeup, IdsOk, SelectorError, ProfileRefError, Held, Conflicted, Exact, Targets;
    var snap := s.worker.phase.snap;
    PhaseKeeps(s, CheckPool(s, s.worker.key, snap).worker.phase);
  }

  lemma CheckProfileKeeps(s: State)
    requires Inv(s) && s.worker.Busy? && s.worker.phase.CheckingProfile?
    ensures Inv(CheckProfile(s, s.worker.key, s.worker.phase.snap))
  {
    hide NoOrphans, AllCoherent, NoLostWakeup, IdsOk, PoolRefError, ProfileRefError, Held, Conflicted, Exact, Targets;
    var snap := s.worker.phase.snap;
    PhaseKeeps(s, CheckProfile(s, s.worker.key, snap).worker.phase);
  }

  lemma ListedCopies(nss: Namespaces, pending: Namespaces, uid: string)
    requires uid != "" && forall n :: n in pending ==> n in nss && pending[n] == nss[n] && Owner(nss[n]) == uid
    ensures AllCopied(nss, pending, uid)
  {
  }

  lemma ListManagedKeeps(s: State)
    requires Inv(s) && s.worker.Busy? && s.worker.phase.ListingManaged?
    ensures Inv(ListManaged(s, s.worker.key, s.worker.phase.snap))
  {
    hide NoOrphans, AllCoherent, NoLostWakeup, Owner, Selected, AllCopied;
    var snap := s.worker.phase.snap;
    var s' := ListManaged(s, s.worker.key, snap);
    assert snap.uid != "";
    ListedCopies(s.namespaces, s'.worker.phase.pending, snap.uid);
    PhaseKeeps(s, s'.worker.phase);
  }

  lemma ListOwnedKeeps(s: State)
    requires Inv(s) && s.worker.Busy? && s.worker.phase.ListingOwned?
    ensures Inv(ListOwned(s, s.worker.key, s.worker.phase.snap))
  {
    hide NoOrphans, AllCoherent, NoLostWakeup, Owner, AllCopied;
    var snap := s.worker.phase.snap;
    var s' := ListOwned(s, s.worker.key, snap);
    assert snap.uid != "";
    ListedCopies(s.namespaces, s'.worker.phase.pending, snap.uid);
    PhaseKeeps(s, s'.worker.phase);
  }

  /** A worker's change of one namespace: the namespace ends up free or with the policy at hand. */
  lemma WorkerChangeKeeps(s: State, s': State, n: string)
    requires Inv(s) && NamespaceChange(s, s', n) && s.worker.Busy? && s'.worker.Busy? && s'.worker.key == s.worker.key
    requires s.worker.key in s.policies
    requires OwnerAt(s'.namespaces, n) in {OwnerAt(s.namespaces, n), "", s.policies[s.worker.key].uid}
    requires Owns(s.policies, s.worker.key, s.policies[s.worker.key].uid)
    requires n in s'.namespaces ==> Coherent(s'.namespaces[n])
    requires WorkerOk(s')
    ensures Inv(s')
  {
    hide Coherent, OwnerAt, Settled, PhaseOk, Owns, Owner, ExceptAt;
    CoherentExceptAt(s, s', n);
    OrphansExceptAt(s, s', n);
    forall k | k in s'.policies && AtRest(s', k) ensures Settled(s', k) {
      assert s.policies[k].uid != s.policies[s.worker.key].uid;
      SettledKept(s, s', n, k, s.policies[s.worker.key].uid);
    }
  }

  lemma RemovedIsFree(current: Annotations, copy: Annotations)
    requires OWNER_UID in copy && current.Keys * POLICY_KEYS <= copy.Keys
    ensures Owner(RemovePatch(current, copy)) == "" && RemovePatch(current, copy).Keys !! POLICY_KEYS
    ensures Coherent(RemovePatch(current, copy))
  {
    assert OWNER_UID in copy.Keys * POLICY_KEYS;
  }

  /** Releasing one pending namespace leaves the others as copied, and frees it. */
  lemma ReleaseFrees(nss: Namespaces, pending: Namespaces, n: string, uid: string, names: set<string>)
    requires n in pending && n in nss && uid != "" && AllCopied(nss, pending, uid)
             && OwnsWithin(nss, uid, names + pending.Keys)
    ensures var a := RemovePatch(nss[n], pending[n]);
            var nss' := nss[n := a];
            && Owner(a) == "" && Coherent(a)
            && AllCopied(nss', pending - {n}, uid)
            && OwnsWithin(nss', uid, names + (pending - {n}).Keys)
  {
    hide Owner, Coherent, RemovePatch;
    assert Copied(nss, n, pending[n], uid);
    RemovedIsFree(nss[n], pending[n]);
    var nss' := nss[n := RemovePatch(nss[n], pending[n])];
    forall m | m in pending - {n} ensures Copied(nss', m, (pending - {n})[m], uid) {
      assert Copied(nss, m, pending[m], uid);
    }
  }

  lemma SetNamespaceIsChange(s: State, n: string, a: Annotations, key: Key, phase: Phase)
    ensures var s' := At(SetNamespace(s, n, a), key, phase);
            NamespaceChange(s, s', n) && s'.namespaces == s.namespaces[n := a] && OwnerAt(s'.namespaces, n) == Owner(a)
  {
    hide Owner, Selecting;
    if n in s.namespaces && s.namespaces[n] == a {
      assert s.namespaces == s.namespaces[n := a];
    }
  }

  lemma RemoveNextCases(s: State, choice: string)
    requires s.worker.Busy? && s.worker.phase.Removing?
    ensures var key, snap, pending := s.worker.key, s.worker.phase.snap, s.worker.phase.pending;
            RemoveNext(s, key, snap, pending, choice) ==
              if pending == map[] then At(s, key, Applying(snap, Selected(snap.spec), 0))
              else if choice !in pending then s
              else if choice !in s.namespaces then FailEnforcement(s, key, snap, choice + " not found")
              else At(Release(s, choice, pending[choice]), key, Removing(snap, pending - {choice}))
  {
    hide Selected, Release, FailEnforcement;
  }

  lemma RemoveOneKeeps(s: State, choice: string)
    requires Inv(s) && s.worker.Busy? && s.worker.phase.Removing?
    requires choice in s.worker.phase.pending && choice in s.namespaces
    ensures var snap, pending := s.worker.phase.snap, s.worker.phase.pending;
            Inv(At(Release(s, choice, pending[choice]), s.worker.key, Removing(snap, pending - {choice})))
  {
    hide NoOrphans, AllCoherent, NoLostWakeup, Owner, Selected, AllCopied, OwnsWithin, RemovePatch, SetNamespace,
         ExceptAt, Coherent, OwnerAt, Selecting, Applied;
    var key, snap, pending := s.worker.key, s.worker.phase.snap, s.worker.phase.pending;
    var a := RemovePatch(s.namespaces[choice], pending[choice]);
    var s' := At(SetNamespace(s, choice, a), key, Removing(snap, pending - {choice}));
    assert snap.uid != "";
    ReleaseFrees(s.namespaces, pending, choice, snap.uid, Selected(snap.spec));
    SetNamespaceIsChange(s, choice, a, key, Removing(snap, pending - {choice}));
    WorkerChangeKeeps(s, s', choice);
  }

  lemma StartApplyingKeeps(s: State)
    requires Inv(s) && s.worker.Busy? && s.worker.phase.Removing? && s.worker.phase.pending == map[]
    ensures Inv(At(s, s.worker.key, Applying(s.worker.phase.snap, Selected(s.worker.phase.snap.spec), 0)))
  {
    hide NoOrphans, AllCoherent, NoLostWakeup, IdsOk, Owner, Selected, AllCopied, OwnsWithin, Applied;
    var key, snap, pending := s.worker.key, s.worker.phase.snap, s.worker.phase.pending;
    NothingApplied(s.namespaces, snap, key);
    assert Selected(snap.spec) + pending.Keys == Selected(snap.spec);
    PhaseKeeps(s, Applying(snap, Selected(snap.spec), 0));
  }

  lemma RemoveNextKeeps(s: State, choice: string)
    requires Inv(s) && s.worker.Busy? && s.worker.phase.Removing?
    ensures Inv(RemoveNext(s, s.worker.key, s.worker.phase.snap, s.worker.phase.pending, choice))
  {
    hide Inv, Release, Selected;
    var pending := s.worker.phase.pending;
    if pending == map[] {
      StartApplyingKeeps(s);
    } else if choice in pending && choice !in s.namespaces {
      FailEnforcementKeeps(s, choice + " not found");
    } else if choice in pending {
      RemoveOneKeeps(s, choice);
    }
  }

  lemma NothingApplied(nss: Namespaces, p: Policy, key: Key)
    ensures Applied(nss, Selected(p.spec) - Selected(p.spec), key, p)
    ensures |(Selected(p.spec) - Selected(p.spec)) * nss.Keys| == 0
  {
    hide Selected, Carries;
    assert (Selected(p.spec) - Selected(p.spec)) * nss.Keys == {};
  }

  lemma ClearOneKeeps(s: State, choice: string)
    requires Inv(s) && s.worker.Busy? && s.worker.phase.Clearing?
    requires choice in s.worker.phase.pending && choice in s.namespaces
    ensures var snap, pending := s.worker.phase.snap, s.worker.phase.pending;
            Inv(At(Release(s, choice, pending[choice]), s.worker.key, Clearing(snap, pending - {choice})))
  {
    hide NoOrphans, AllCoherent, NoLostWakeup, Owner, AllCopied, OwnsWithin, RemovePatch, SetNamespace, ExceptAt,
         Coherent, OwnerAt, Selecting;
    var key, snap, pending := s.worker.key, s.worker.phase.snap, s.worker.phase.pending;
    var a := RemovePatch(s.namespaces[choice], pending[choice]);
    var s' := At(SetNamespace(s, choice, a), key, Clearing(snap, pending - {choice}));
    assert snap.uid != "";
    assert {} + pending.Keys == pending.Keys;
    assert {} + (pending - {choice}).Keys == (pending - {choice}).Keys;
    ReleaseFrees(s.namespaces, pending, choice, snap.uid, {});
    SetNamespaceIsChange(s, choice, a, key, Clearing(snap, pending - {choice}));
    WorkerChangeKeeps(s, s', choice);
  }

  lemma ClearNextKeeps(s: State, choice: string)
    requires Inv(s) && s.worker.Busy? && s.worker.phase.Clearing?
    ensures Inv(ClearNext(s, s.worker.key, s.worker.phase.snap, s.worker.phase.pending, choice))
  {
    hide NoOrphans, AllCoherent, NoLostWakeup, IdsOk, Owner, AllCopied, OwnsWithin, Release, DropPolicy;
    var pending := s.worker.phase.pending;
    if pending == map[] {
      DropKeeps(s);
    } else if choice in pending && choice !in s.namespaces {
      FailKeeps(s);
    } else if choice in pending {
      ClearOneKeeps(s, choice);
    }
  }

  /** When the finalizer goes, no namespace names the policy. */
  lemma DropKeeps(s: State)
    requires Inv(s) && s.worker.Busy? && s.worker.phase.Clearing? && s.worker.phase.pending == map[]
    ensures Inv(Finish(DropPolicy(s, s.worker.key)))
  {
    hide NoOrphans, AllCoherent, NoLostWakeup, Owner, AllCopied;
    PolicyChangeKeeps(s, Finish(DropPolicy(s, s.worker.key)), s.worker.key);
  }

  lemma ApplyOne(nss: Namespaces, key: Key, snap: Policy, todo: set<string>, n: string)
    requires n in todo && todo <= Selected(snap.spec) && n in nss && !Conflicts(nss[n], snap.uid)
    requires OwnsWithin(nss, snap.uid, Selected(snap.spec)) && Coherent(nss[n]) && snap.uid != ""
             && snap.spec.upstreamRef != ""
    ensures var a := Annotate(nss[n], key, snap);
            && Owner(a) == snap.uid && Coherent(a) && OwnsWithin(nss[n := a], snap.uid, Selected(snap.spec))
  {
    hide Annotate, Coherent, Selected, TrimSpace;
    AnnotateMeans(nss[n], key, snap);
  }

  lemma OneMore(nss: Namespaces, key: Key, snap: Policy, todo: set<string>, n: string)
    requires n in todo && todo <= Selected(snap.spec) && Applied(nss, Selected(snap.spec) - todo, key, snap)
    requires n in nss ==> Carries(nss[n], key, snap)
    ensures Applied(nss, Selected(snap.spec) - (todo - {n}), key, snap)
    ensures |(Selected(snap.spec) - (todo - {n})) * nss.Keys| ==
            |(Selected(snap.spec) - todo) * nss.Keys| + (if n in nss then 1 else 0)
  {
    hide Carries, Selected;
    OneMoreVisited(Selected(snap.spec), todo, nss.Keys, n);
  }

  lemma ApplyNextKeeps(s: State, choice: string)
    requires Inv(s) && s.worker.Busy? && s.worker.phase.Applying?
    ensures Inv(ApplyNext(s, s.worker.key, s.worker.phase.snap, s.worker.phase.todo, s.worker.phase.applied, choice))
  {
    hide NoOrphans, AllCoherent, NoLostWakeup, Owner, Selected, OwnsWithin, SetNamespace, NamespaceChange, Annotate,
         Coherent, OwnerAt, Applied, Conflicts, Justified, ApplyNext;
    var key, snap, todo, applied := s.worker.key, s.worker.phase.snap, s.worker.phase.todo, s.worker.phase.applied;
    ApplyNextCases(s, key, snap, todo, applied, choice);
    if todo == {} {
      EnforcementJustified(s);
      PhaseKeeps(s, Reporting(snap, Enforcement(snap.generation, applied)));
    } else if choice !in todo {
    } else if choice !in s.namespaces {
      if key !in s.queue {
        OneMore(s.namespaces, key, snap, todo, choice);
      }
      PhaseKeeps(s, Applying(snap, todo - {choice}, applied));
    } else if Conflicts(s.namespaces[choice], snap.uid) {
      ConflictJustified(s, choice);
      PhaseKeeps(s, Reporting(snap, Blocked(snap.generation, choice, s.namespaces[choice])));
    } else {
      ApplyUpdateKeeps(s, choice);
    }
  }

  lemma ApplyNextCases(s: State, key: Key, snap: Policy, todo: set<string>, applied: nat, choice: string)
    ensures ApplyNext(s, key, snap, todo, applied, choice) ==
      if todo == {} then At(s, key, Reporting(snap, Enforcement(snap.generation, applied)))
      else if choice !in todo then s
      else if choice !in s.namespaces then At(s, key, Applying(snap, todo - {choice}, applied))
      else if Conflicts(s.namespaces[choice], snap.uid) then
        At(s, key, Reporting(snap, Blocked(snap.generation, choice, s.namespaces[choice])))
      else At(SetNamespace(s, choice, Annotate(s.namespaces[choice], key, snap)), key,
          Applying(snap, todo - {choice}, applied + 1))
  {
  }

  lemma EnforcementJustified(s: State)
    requires WorkerOk(s) && s.worker.Busy? && s.worker.phase.Applying? && s.worker.phase.todo == {}
    ensures s.worker.key !in s.queue ==>
            var snap := s.worker.phase.snap;
            Justified(s, s.worker.key, snap, Enforcement(snap.generation, s.worker.phase.applied))
  {
    hide Selected, Owner, RefsOk, Conflicts, Carries, Held;
    var key, snap := s.worker.key, s.worker.phase.snap;
    if key !in s.queue {
      assert Selected(snap.spec) - {} == Selected(snap.spec);
      assert Applied(s.namespaces, Selected(snap.spec), key, snap);
      forall n | n in Targets(s.namespaces, snap)
        ensures Owner(s.namespaces[n]) == snap.uid && !Conflicts(s.namespaces[n], snap.uid)
      {
        CarriersOwn(s.namespaces[n], key, snap);
      }
      assert Managed(s.namespaces, snap.uid) == Targets(s.namespaces, snap);
    }
  }

  lemma CarriersOwn(a: Annotations, key: Key, p: Policy)
    requires Carries(a, key, p)
    ensures Owner(a) == p.uid && !Conflicts(a, p.uid)
  {
  }

  lemma ConflictJustified(s: State, n: string)
    requires WorkerOk(s) && s.worker.Busy? && s.worker.phase.Applying?
    requires n in s.worker.phase.todo && n in s.namespaces && Conflicts(s.namespaces[n], s.worker.phase.snap.uid)
    ensures s.worker.key !in s.queue ==>
            var snap := s.worker.phase.snap;
            Justified(s, s.worker.key, snap, Blocked(snap.generation, n, s.namespaces[n]))
  {
    hide Selected, Conflicts, RefsOk, Exact, OwnsWithin, Blocked;
    assert n in Targets(s.namespaces, s.worker.phase.snap);
  }

  lemma ApplyUpdateKeeps(s: State, n: string)
    requires Inv(s) && s.worker.Busy? && s.worker.phase.Applying?
    requires n in s.worker.phase.todo && n in s.namespaces && !Conflicts(s.namespaces[n], s.worker.phase.snap.uid)
    ensures var key, snap := s.worker.key, s.worker.phase.snap;
            Inv(At(SetNamespace(s, n, Annotate(s.namespaces[n], key, snap)), key,
                   Applying(snap, s.worker.phase.todo - {n}, s.worker.phase.applied + 1)))
  {
    hide NoOrphans, NoLostWakeup, Owner, Selected, OwnsWithin, SetNamespace, Annotate, Carries,
         Coherent, OwnerAt, Applied, Conflicts, ExceptAt;
    var key, snap, todo, applied := s.worker.key, s.worker.phase.snap, s.worker.phase.todo, s.worker.phase.applied;
    var a := Annotate(s.namespaces[n], key, snap);
    var s' := At(SetNamespace(s, n, a), key, Applying(snap, todo - {n}, applied + 1));
    assert snap.uid != "" && Coherent(s.namespaces[n]);
    ApplyOne(s.namespaces, key, snap, todo, n);
    SetNamespaceIsChange(s, n, a, key, Applying(snap, todo - {n}, applied + 1));
    if key !in s'.queue {
      assert key !in s.queue && s.policies[key] == snap && key in Selecting(s, n);
      assert s'.namespaces == s.namespaces && a == s.namespaces[n];
      AnnotateMeans(s.namespaces[n], key, snap);
      OneMore(s.namespaces, key, snap, todo, n);
    }
    WorkerChangeKeeps(s, s', n);
  }

  lemma ReportIds(s: State)
    requires IdsOk(s) && s.worker.Busy? && s.worker.phase.Reporting?
    ensures IdsOk(ReportStatus(s, s.worker.key, s.worker.phase.snap, s.worker.phase.status))
  {
    hide PatchStatus;
  }

  lemma ReportShape(s: State)
    requires WorkerOk(s) && s.worker.Busy? && s.worker.phase.Reporting?
    ensures var key := s.worker.key;
            var s' := ReportStatus(s, key, s.worker.phase.snap, s.worker.phase.status);
            && WorkerOk(s')
            && (PolicyChange(s, s', key)
               || (s' == Finish(s) && (key !in s.queue ==> key in s.policies && Settled(s, key))))
  {
    hide Owner, Conflicted, Exact, ReferencesOk, Targets;
  }

  lemma ReportKeeps(s: State)
    requires Inv(s) && s.worker.Busy? && s.worker.phase.Reporting?
    ensures Inv(ReportStatus(s, s.worker.key, s.worker.phase.snap, s.worker.phase.status))
  {
    hide NoOrphans, AllCoherent, NoLostWakeup, IdsOk, WorkerOk, PolicyChange, ReportStatus, Settled;
    var s' := ReportStatus(s, s.worker.key, s.worker.phase.snap, s.worker.phase.status);
    ReportShape(s);
    ReportIds(s);
    if PolicyChange(s, s', s.worker.key) {
      PolicyChangeKeeps(s, s', s.worker.key);
    } else {
      WorkerOnly(s, s');
    }
  }

  lemma ProceedKeeps(s: State, choice: string)
    requires Inv(s) && s.worker.Busy?
    ensures Inv(Apply(s, Proceed(choice)))
  {
    hide Inv, ReadPolicy, AddFinalizer, CheckPool, CheckProfile, ListManaged, ListOwned, RemoveNext, ApplyNext,
         ReportStatus, ClearNext;
    match s.worker.phase {
      case Started => ReadPolicyKeeps(s);
      case Adopting(_) => AddFinalizerKeeps(s);
      case CheckingPool(_) => CheckPoolKeeps(s);
      case CheckingProfile(_) => CheckProfileKeeps(s);
      case ListingManaged(_) => ListManagedKeeps(s);
      case Removing(_, _) => RemoveNextKeeps(s, choice);
      case Applying(_, _, _) => ApplyNextKeeps(s, choice);
      case Reporting(_, _) => ReportKeeps(s);
      case ListingOwned(_) => ListOwnedKeeps(s);
      case Clearing(_, _) => ClearNextKeeps(s, choice);
    }
  }

  // ---------------------------------------------------------------- every reachable state

  lemma StepKeepsInv(s: State, step: Step)
    requires Inv(s) && Enabled(s, step)
    ensures Inv(Apply(s, step))
  {
    hide Inv, Apply, Enabled;
    match step {
      case Dequeue(key) => DequeueKeeps(s, key);
      case Proceed(choice) => EnabledBusy(s, step); ProceedKeeps(s, choice);
      case CallFails(error) => EnabledBusy(s, step); FailCallKeeps(s, error);
      case Restart => RestartKeeps(s);
      case CreatePolicy(_, _, _) => PolicyStepsKeep(s, step);
      case EditPolicy(_, _) => PolicyStepsKeep(s, step);
      case DeletePolicy(_) => PolicyStepsKeep(s, step);
      case CreateNamespace(_, _) => NamespaceStepsKeep(s, step);
      case AnnotateNamespace(_, _) => NamespaceStepsKeep(s, step);
      case DeleteNamespace(_) => NamespaceStepsKeep(s, step);
      case _ => ReferenceStepsKeep(s, step);
    }
  }

  lemma RestartKeeps(s: State)
    requires Inv(s)
    ensures Inv(Apply(s, Restart))
  {
    hide Settled, NoOrphans, AllCoherent, IdsOk, PhaseOk;
    WorkerOnly(s, Apply(s, Restart));
  }

  lemma EnabledBusy(s: State, step: Step)
    requires Enabled(s, step) && (step.Proceed? || step.CallFails?)
    ensures s.worker.Busy? && (step.CallFails? ==> Apply(s, step) == FailCall(s, step.error))
  {
  }

  /** The invariant holds in every state that any interleaving of users and worker can reach. */
  lemma {:induction false} ReachableInv(s: State, steps: seq<Step>)
    requires Inv(s) && EnabledRun(s, steps)
    ensures Inv(Run(s, steps))
    decreases |steps|
  {
    hide Inv, Apply, Enabled;
    if steps != [] {
      StepKeepsInv(s, steps[0]);
      ReachableInv(Apply(s, steps[0]), steps[1..]);
    }
  }
}
