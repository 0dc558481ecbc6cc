/** What the worker does when it is left alone, with no user step and no failing call: from any reachable state
    it can come to rest, and it does so after a number of steps that is bounded in advance, however its steps
    are scheduled, unless it gets to a queued policy with two conflicts. */
module PolicyLiveness {
  import opened Text
  import opened Objects
  import opened Policies
  import opened PolicyEnforcement
  import opened PolicyProtocol
  import opened PolicyInvariants

  /** Nothing is queued, nothing is being worked on. */
  predicate Quiet(s: State) { s.queue == {} && s.worker.Idle? }

  /** A step of the worker that succeeds and does not merely name a namespace which its loop is not at. */
  ghost predicate Moves(s: State, step: Step) {
    Enabled(s, step) && (step.Dequeue? || step.Proceed?) && Apply(s, step) != s
  }

  ghost predicate MovingRun(s: State, steps: seq<Step>)
    requires EnabledRun(s, steps)
    decreases |steps|
  {
    steps == [] || (Moves(s, steps[0]) && MovingRun(Apply(s, steps[0]), steps[1..]))
  }

  /** The worker is never stuck. */
  lemma CanMove(s: State) returns (step: Step)
    requires !Quiet(s)
    ensures Moves(s, step)
  {
    hide PoolRefError, ProfileRefError, Selected, Annotate, RemovePatch, Conflicts, Owner;
    if s.worker.Idle? {
      var k :| k in s.queue;
      step := Dequeue(k);
    } else if (s.worker.phase.Removing? || s.worker.phase.Clearing?) && s.worker.phase.pending != map[] {
      var n :| n in s.worker.phase.pending;
      step := Proceed(n);
      assert n in s.worker.phase.pending && n !in s.worker.phase.pending - {n};
    } else if s.worker.phase.Applying? && s.worker.phase.todo != {} {
      var n :| n in s.worker.phase.todo;
      step := Proceed(n);
    } else {
      step := Proceed("");
    }
  }

  // ---------------------------------------------------------------- what is left to do

  /** `k` may own `n`. */
  predicate Rightful(policies: map<Key, Policy>, k: Key, a: Annotations, n: string) {
    k in policies && policies[k].uid == Owner(a) && !policies[k].deleting && n in Selected(policies[k].spec)
  }

  /** How far a namespace is from being settled: owned by a policy that has to release it (3), free (2), with
      its rightful owner but not as its spec demands (1), or as it demands (0). */
  ghost function Debt(policies: map<Key, Policy>, a: Annotations, n: string): nat {
    if Owner(a) == "" then 2
    else if !exists k :: Rightful(policies, k, a, n) then 3
    else if exists k :: Rightful(policies, k, a, n) && !Carries(a, k, policies[k]) then 1
    else 0
  }

  ghost function Owing(policies: map<Key, Policy>, nss: Namespaces, least: nat): set<string> {
    set n | n in nss && Debt(policies, nss[n], n) >= least
  }

  ghost function Debts(policies: map<Key, Policy>, nss: Namespaces): nat {
    |Owing(policies, nss, 1)| + |Owing(policies, nss, 2)| + |Owing(policies, nss, 3)|
  }

  function Unadopted(policies: map<Key, Policy>): set<Key> { set k | k in policies && !policies[k].finalizer }

  /** Writes of objects, other than statuses, that are still to come. */
  ghost function Writes(s: State): nat {
    |s.policies| + |Unadopted(s.policies)| + Debts(s.policies, s.namespaces)
  }

  /** What a report of policy `k` may say: the first of several conflicts that its run comes across, otherwise
      exactly one thing. */
  ghost predicate Truthful(s: State, k: Key, status: Status)
    requires k in s.policies
  {
    var p := s.policies[k];
    if !RefsOk(s, k, p) then status == Invalid(p.generation, BrokenRef(s, k, p))
    else if Conflicted(s.namespaces, p) then TellsConflict(s.namespaces, p, status)
    else status == Enforcement(p.generation, |Targets(s.namespaces, p)|)
  }

  ghost function Untruthful(s: State): set<Key> {
    set k | k in s.policies && !Truthful(s, k, s.policies[k].status)
  }

  function Stage(phase: Phase): nat {
    match phase
    case Started => 8
    case Adopting(_) => 7
    case CheckingPool(_) => 6
    case CheckingProfile(_) => 5
    case ListingManaged(_) => 4
    case Removing(_, _) => 3
    case Applying(_, _, _) => 2
    case Reporting(_, _) => 1
    case ListingOwned(_) => 2
    case Clearing(_, _) => 1
  }

  function Size(phase: Phase): nat {
    match phase
    case Removing(_, pending) => |pending|
    case Applying(_, todo, _) => |todo|
    case Clearing(_, pending) => |pending|
    case _ => 0
  }

  /** Of one run: at most 9 * (limit + 1), counting 1 for its end. */
  function Remaining(worker: Worker, limit: nat): nat {
    match worker
    case Idle => 0
    case Busy(_, phase) => Stage(phase) * (limit + 1) + Size(phase)
  }

  // ---------------------------------------------------------------- runs that nothing has interfered with

  /** What the worker holds in memory is what is in the cluster. */
  ghost predicate Current(s: State) {
    s.worker.Busy? && !s.worker.phase.Started? ==>
      && s.worker.key in s.policies && s.policies[s.worker.key] == s.worker.phase.snap
      && match s.worker.phase
         case Adopting(snap) => !snap.deleting
         case CheckingProfile(snap) => PoolOk(s, s.worker.key, snap)
         case ListingManaged(snap) => RefsOk(s, s.worker.key, snap)
         case Removing(snap, pending) =>
           && RefsOk(s, s.worker.key, snap) && Fresh(s.namespaces, pending, snap.uid)
           && forall n :: n in pending ==> n !in Selected(snap.spec)
         case Applying(snap, todo, applied) =>
           && RefsOk(s, s.worker.key, snap) && Applied(s.namespaces, Selected(snap.spec) - todo, s.worker.key, snap)
           && applied == |(Selected(snap.spec) - todo) * s.namespaces.Keys|
         case Reporting(snap, status) => Truthful(s, s.worker.key, status)
         case Clearing(snap, pending) => Fresh(s.namespaces, pending, snap.uid)
         case _ => true
  }

  /** All keys are among `keys`, and no selector, listing or to-do list is longer than `limit`. */
  ghost predicate Within(s: State, keys: set<Key>, limit: nat) {
    && s.queue <= keys && s.policies.Keys <= keys && |s.namespaces| <= limit
    && (forall k :: k in s.policies ==> |Selected(s.policies[k].spec)| <= limit)
    && (s.worker.Busy? ==> s.worker.key in keys && Size(s.worker.phase) <= limit)
    && (s.worker.Busy? && !s.worker.phase.Started? ==> |Selected(s.worker.phase.snap.spec)| <= limit)
  }

  // ---------------------------------------------------------------- the measure

  function Combine(high: nat, low: nat, base: nat): nat { high * base + low }

  lemma CombineLess(high: nat, low: nat, high': nat, low': nat, base: nat)
    requires low' < base
    ensures high' < high ==> Combine(high', low', base) < Combine(high, low, base)
    ensures high' == high && low' < low ==> Combine(high', low', base) < Combine(high, low, base)
    ensures high' <= high ==> Combine(high', low', base) < Combine(high + 1, 0, base)
  {
    if high' < high {
      assert (high' + 1) * base <= high * base;
    }
    if high' <= high {
      assert (high' + 1) * base <= (high + 1) * base;
    }
  }

  /** Lexicographic in writes, untruthful statuses, the queue and the current run. */
  function Level(writes: nat, untruthful: nat, queued: nat, remaining: nat, u: nat, limit: nat): nat {
    Combine(Combine(Combine(writes, untruthful, u + 1), queued, u + 1), remaining, 9 * (limit + 1))
  }

  /** More than any level can be: see LevelBounded. */
  function Ceiling(u: nat, limit: nat): nat {
    Combine(Combine(Combine(2 * u + 3 * limit, u, u + 1), u, u + 1) + 1, 0, 9 * (limit + 1))
  }

  lemma LevelDrops(w: nat, f: nat, g: nat, h: nat, w': nat, f': nat, g': nat, h': nat, u: nat, limit: nat)
    requires f' <= u && g' <= u && h' < 9 * (limit + 1)
    requires w' < w || (w' == w && (f' < f || (f' == f && (g' < g || (g' == g && h' < h)))))
    ensures Level(w', f', g', h', u, limit) < Level(w, f, g, h, u, limit)
  {
    hide Combine;
    CombineLess(w, f, w', f', u + 1);
    CombineLess(Combine(w, f, u + 1), g, Combine(w', f', u + 1), g', u + 1);
    CombineLess(Combine(Combine(w, f, u + 1), g, u + 1), h, Combine(Combine(w', f', u + 1), g', u + 1), h',
        9 * (limit + 1));
  }

  lemma CombineGrows(high: nat, low: nat, high': nat, low': nat, base: nat)
    requires high <= high' && low <= low'
    ensures Combine(high, low, base) <= Combine(high', low', base)
  {
    assert high * base <= high' * base;
  }

  lemma LevelBounded(w: nat, f: nat, g: nat, h: nat, u: nat, limit: nat)
    requires w <= 2 * u + 3 * limit && f <= u && g <= u && h < 9 * (limit + 1)
    ensures Level(w, f, g, h, u, limit) < Ceiling(u, limit)
  {
    hide Combine;
    CombineGrows(w, f, 2 * u + 3 * limit, u, u + 1);
    CombineGrows(Combine(w, f, u + 1), g, Combine(2 * u + 3 * limit, u, u + 1), u, u + 1);
    var high := Combine(Combine(2 * u + 3 * limit, u, u + 1), u, u + 1);
    CombineLess(high, 0, Combine(Combine(w, f, u + 1), g, u + 1), h, 9 * (limit + 1));
  }

  /** How many more steps there can be. A run that has been interfered with is only bounded by its own end. */
  ghost function Rank(s: State, u: nat, limit: nat): nat {
    if Current(s) then Level(Writes(s), |Untruthful(s)|, |s.queue|, Remaining(s.worker, limit), u, limit)
    else Ceiling(u, limit) + Remaining(s.worker, limit)
  }

  lemma SubsetSmaller<T>(a: set<T>, b: set<T>)
    requires a <= b
    ensures |a| <= |b| && (a != b ==> |a| < |b|)
  {
    if a != b {
      var x :| x in b && x !in a;
      assert a <= b - {x};
      SubsetSmaller(a, b - {x});
    } else {
    }
  }

  lemma RemainingBounded(s: State, keys: set<Key>, limit: nat)
    requires Within(s, keys, limit)
    ensures Remaining(s.worker, limit) < 9 * (limit + 1)
  {
    hide Selected;
    if s.worker.Busy? {
      assert Stage(s.worker.phase) * (limit + 1) <= 8 * (limit + 1);
    }
  }

  lemma PartsBounded(s: State, keys: set<Key>, limit: nat)
    requires Within(s, keys, limit)
    ensures |Untruthful(s)| <= |keys| && |s.queue| <= |keys| && Remaining(s.worker, limit) < 9 * (limit + 1)
    ensures Writes(s) <= 2 * |keys| + 3 * limit
  {
    hide Selected, Truthful, Debt;
    RemainingBounded(s, keys, limit);
    SubsetSmaller(Untruthful(s), keys);
    SubsetSmaller(s.queue, keys);
    SubsetSmaller(s.policies.Keys, keys);
    SubsetSmaller(Unadopted(s.policies), keys);
    assert |s.policies.Keys| == |s.policies| && |s.namespaces.Keys| == |s.namespaces|;
    SubsetSmaller(Owing(s.policies, s.namespaces, 1), s.namespaces.Keys);
    SubsetSmaller(Owing(s.policies, s.namespaces, 2), s.namespaces.Keys);
    SubsetSmaller(Owing(s.policies, s.namespaces, 3), s.namespaces.Keys);
  }

  // ---------------------------------------------------------------- every step descends

  lemma RunsWithin(phase: Phase, phase': Phase, key: Key, limit: nat)
    requires Stage(phase') < Stage(phase) && Size(phase') <= limit
    ensures Remaining(Busy(key, phase'), limit) < Remaining(Busy(key, phase), limit)
  {
    assert (Stage(phase') + 1) * (limit + 1) <= Stage(phase) * (limit + 1);
  }

  lemma RunsEnd(worker: Worker, limit: nat)
    requires worker.Busy?
    ensures Remaining(Idle, limit) < Remaining(worker, limit)
  {
    assert Stage(worker.phase) * (limit + 1) >= 1 * (limit + 1);
  }

  lemma SubmapSmaller(a: Namespaces, b: Namespaces)
    requires a.Keys <= b.Keys
    ensures |a| <= |b|
  {
    SubsetSmaller(a.Keys, b.Keys);
    assert |a.Keys| == |a| && |b.Keys| == |b|;
  }

  lemma OneFewer(pending: Namespaces, n: string)
    requires n in pending
    ensures |pending - {n}| < |pending|
  {
    assert (pending - {n}).Keys == pending.Keys - {n};
    assert |(pending - {n}).Keys| == |pending - {n}|;
  }

  /** The run has ended, or gone on to a later phase, or has one namespace less to go. */
  ghost predicate Closer(worker: Worker, worker': Worker, limit: nat)
    requires worker.Busy?
  {
    worker'.Busy? ==>
      && worker'.key == worker.key && !worker'.phase.Started? && Size(worker'.phase) <= limit
      && |Selected(worker'.phase.snap.spec)| <= limit
      && (Stage(worker'.phase) < Stage(worker.phase)
          || (Stage(worker'.phase) == Stage(worker.phase) && Size(worker'.phase) < Size(worker.phase)))
  }

  lemma ReadingAdvances(s: State, keys: set<Key>, limit: nat)
    requires Within(s, keys, limit) && s.worker.Busy? && s.worker.phase.Started?
    ensures Closer(s.worker, ReadPolicy(s, s.worker.key).worker, limit)
  {
    hide Selected;
  }

  lemma AdoptionAdvances(s: State, keys: set<Key>, limit: nat)
    requires Within(s, keys, limit) && s.worker.Busy? && s.worker.phase.Adopting?
    ensures Closer(s.worker, AddFinalizer(s, s.worker.key).worker, limit)
  {
    hide Selected, SetPolicy;
  }

  lemma ChecksAdvance(s: State, choice: string, keys: set<Key>, limit: nat)
    requires Within(s, keys, limit) && s.worker.Busy?
    requires Stage(s.worker.phase) >= 5 || s.worker.phase.Reporting?
    ensures Closer(s.worker, Apply(s, Proceed(choice)).worker, limit)
  {
    hide Selected, PoolRefError, ProfileRefError, Owner, RemoveNext, ApplyNext, ClearNext, ListManaged, ListOwned,
         PatchStatus, SetPolicy, ReadPolicy, AddFinalizer;
    match s.worker.phase
    case Started => ReadingAdvances(s, keys, limit);
    case Adopting(_) => AdoptionAdvances(s, keys, limit);
    case _ =>
  }

  lemma ListingsAdvance(s: State, choice: string, keys: set<Key>, limit: nat)
    requires Within(s, keys, limit) && s.worker.Busy?
             && (s.worker.phase.ListingManaged? || s.worker.phase.ListingOwned?)
    ensures Closer(s.worker, Apply(s, Proceed(choice)).worker, limit)
  {
    hide Selected, Owner, RemoveNext, ApplyNext, ClearNext;
    SubmapSmaller(Apply(s, Proceed(choice)).worker.phase.pending, s.namespaces);
  }

  lemma FailureReports(s: State, key: Key, snap: Policy, error: string)
    ensures FailEnforcement(s, key, snap, error).worker == Busy(key, Reporting(snap, Broken(snap.generation, error)))
  {
  }

  lemma RemoveAdvances(s: State, choice: string, limit: nat)
    requires s.worker.Busy? && s.worker.phase.Removing?
    requires Size(s.worker.phase) <= limit && |Selected(s.worker.phase.snap.spec)| <= limit
    ensures var s' := RemoveNext(s, s.worker.key, s.worker.phase.snap, s.worker.phase.pending, choice);
            s' != s ==> Closer(s.worker, s'.worker, limit)
  {
    hide Selected, Release, RemoveNext, FailEnforcement;
    RemoveNextCases(s, choice);
    var key, snap, pending := s.worker.key, s.worker.phase.snap, s.worker.phase.pending;
    FailureReports(s, key, snap, choice + " not found");
    if choice in pending {
      OneFewer(pending, choice);
    }
  }

  lemma ClearNextWorker(s: State, choice: string)
    requires s.worker.Busy? && s.worker.phase.Clearing?
    ensures var key, snap, pending := s.worker.key, s.worker.phase.snap, s.worker.phase.pending;
            var s' := ClearNext(s, key, snap, pending, choice);
            && (pending == map[] || (choice in pending && choice !in s.namespaces) ==> s'.worker == Idle)
            && (pending != map[] && choice !in pending ==> s' == s)
            && (choice in pending && choice in s.namespaces ==>
               s'.worker == Busy(key, Clearing(snap, pending - {choice})))
  {
    hide Release, SetPolicy, DropPolicy;
  }

  lemma ClearAdvances(s: State, choice: string, limit: nat)
    requires s.worker.Busy? && s.worker.phase.Clearing?
    requires Size(s.worker.phase) <= limit && |Selected(s.worker.phase.snap.spec)| <= limit
    ensures var s' := ClearNext(s, s.worker.key, s.worker.phase.snap, s.worker.phase.pending, choice);
            s' != s ==> Closer(s.worker, s'.worker, limit)
  {
    hide Selected, ClearNext;
    ClearNextWorker(s, choice);
    if choice in s.worker.phase.pending {
      OneFewer(s.worker.phase.pending, choice);
    }
  }

  lemma ApplyAdvances(s: State, choice: string, limit: nat)
    requires s.worker.Busy? && s.worker.phase.Applying?
    requires Size(s.worker.phase) <= limit && |Selected(s.worker.phase.snap.spec)| <= limit
    ensures var s' := ApplyNext(s, s.worker.key, s.worker.phase.snap, s.worker.phase.todo, s.worker.phase.applied,
                                choice);
            s' != s ==> Closer(s.worker, s'.worker, limit)
  {
    hide Selected, SetNamespace, Annotate, Conflicts, ApplyNext;
    ApplyNextCases(s, s.worker.key, s.worker.phase.snap, s.worker.phase.todo, s.worker.phase.applied, choice);
  }

  lemma LoopsAdvance(s: State, choice: string, keys: set<Key>, limit: nat)
    requires Within(s, keys, limit) && s.worker.Busy? && Apply(s, Proceed(choice)) != s
    requires s.worker.phase.Removing? || s.worker.phase.Applying? || s.worker.phase.Clearing?
    ensures Closer(s.worker, Apply(s, Proceed(choice)).worker, limit)
  {
    hide Selected, RemoveNext, ApplyNext, ClearNext, Closer;
    match s.worker.phase
    case Removing(_, _) => RemoveAdvances(s, choice, limit);
    case Applying(_, _, _) => ApplyAdvances(s, choice, limit);
    case Clearing(_, _) => ClearAdvances(s, choice, limit);
  }

  /** Each step brings the current run closer to its end. */
  lemma ProceedAdvances(s: State, choice: string, keys: set<Key>, limit: nat)
    requires Within(s, keys, limit) && s.worker.Busy? && Moves(s, Proceed(choice))
    ensures Closer(s.worker, Apply(s, Proceed(choice)).worker, limit)
    ensures Remaining(Apply(s, Proceed(choice)).worker, limit) < Remaining(s.worker, limit)
  {
    hide Apply, Remaining, Selected;
    var worker := Apply(s, Proceed(choice)).worker;
    if Stage(s.worker.phase) >= 5 || s.worker.phase.Reporting? {
      ChecksAdvance(s, choice, keys, limit);
    } else if s.worker.phase.ListingManaged? || s.worker.phase.ListingOwned? {
      ListingsAdvance(s, choice, keys, limit);
    } else {
      LoopsAdvance(s, choice, keys, limit);
    }
    RunsEnd(s.worker, limit);
    if worker.Busy? && Stage(worker.phase) < Stage(s.worker.phase) {
      RunsWithin(s.worker.phase, worker.phase, s.worker.key, limit);
    } else if worker.Busy? {
      SameStage(s.worker.phase, worker, limit);
    }
  }

  lemma SameStage(phase: Phase, worker: Worker, limit: nat)
    ensures worker.Busy? && Stage(worker.phase) == Stage(phase) && Size(worker.phase) < Size(phase) ==>
              Remaining(worker, limit) < Remaining(Busy(worker.key, phase), limit)
  {
  }

  /** Namespaces, pools and profiles stay; so do policies, apart from finalizer and status, unless they are
      marked for deletion; and the queue gains policies only. */
  ghost predicate Shrinks(s: State, s': State, key: Key) {
    && s'.namespaces.Keys == s.namespaces.Keys && s'.pools == s.pools && s'.profiles == s.profiles
    && s'.names == s.names && s'.uids == s.uids && s'.misled == s.misled
    && s'.policies.Keys <= s.policies.Keys
    && (forall k :: k in s'.policies ==> SamePolicy(s.policies[k], s'.policies[k]))
    && (forall k :: k in s.policies && !s.policies[k].deleting ==> k in s'.policies)
    && s'.queue <= s.queue + s.policies.Keys + {key}
  }

  predicate SamePolicy(p: Policy, q: Policy) {
    q.uid == p.uid && q.spec == p.spec && q.generation == p.generation && q.deleting == p.deleting
  }

  lemma SetNamespaceShrinks(s: State, n: string, a: Annotations, key: Key, phase: Phase)
    requires n in s.namespaces
    ensures Shrinks(s, At(SetNamespace(s, n, a), key, phase), key)
  {
    hide Selected;
  }

  lemma RemoveShrinks(s: State, choice: string)
    requires s.worker.Busy? && s.worker.phase.Removing?
    ensures Shrinks(s, RemoveNext(s, s.worker.key, s.worker.phase.snap, s.worker.phase.pending, choice), s.worker.key)
  {
    hide Selected, SetNamespace, RemovePatch, RemoveNext;
    RemoveNextCases(s, choice);
    var key, snap, pending := s.worker.key, s.worker.phase.snap, s.worker.phase.pending;
    if choice in pending && choice in s.namespaces {
      hide Shrinks;
      SetNamespaceShrinks(s, choice, RemovePatch(s.namespaces[choice], pending[choice]), key,
                          Removing(snap, pending - {choice}));
    }
  }

  lemma ApplyShrinks(s: State, choice: string)
    requires s.worker.Busy? && s.worker.phase.Applying?
    ensures var s' := ApplyNext(s, s.worker.key, s.worker.phase.snap, s.worker.phase.todo, s.worker.phase.applied,
                                choice);
            Shrinks(s, s', s.worker.key)
  {
    hide Selected, SetNamespace, Annotate, Conflicts, ApplyNext;
    var key, snap, todo, applied := s.worker.key, s.worker.phase.snap, s.worker.phase.todo, s.worker.phase.applied;
    ApplyNextCases(s, key, snap, todo, applied, choice);
    if choice in todo && choice in s.namespaces {
      SetNamespaceShrinks(s, choice, Annotate(s.namespaces[choice], key, snap), key,
                          Applying(snap, todo - {choice}, applied + 1));
    }
  }

  lemma SetPolicyShrinks(s: State, key: Key, p: Policy, worker: Worker)
    requires key in s.policies && SamePolicy(s.policies[key], p)
    ensures Shrinks(s, SetPolicy(s, key, p).(worker := worker), key)
  {
  }

  lemma ClearEndShrinks(s: State)
    requires s.worker.Busy? && s.worker.phase.Clearing?
    ensures Shrinks(s, ClearNext(s, s.worker.key, s.worker.phase.snap, map[], ""), s.worker.key)
  {
    hide Release;
    var key := s.worker.key;
    if key in s.policies && !s.policies[key].deleting {
      SetPolicyShrinks(s, key, s.policies[key].(finalizer := false), Idle);
    }
  }

  lemma ClearShrinks(s: State, choice: string)
    requires s.worker.Busy? && s.worker.phase.Clearing?
    ensures Shrinks(s, ClearNext(s, s.worker.key, s.worker.phase.snap, s.worker.phase.pending, choice), s.worker.key)
  {
    hide SetNamespace, RemovePatch, SetPolicy, Shrinks;
    var key, snap, pending := s.worker.key, s.worker.phase.snap, s.worker.phase.pending;
    if pending == map[] {
      ClearEndShrinks(s);
    } else if choice in pending && choice in s.namespaces {
      SetNamespaceShrinks(s, choice, RemovePatch(s.namespaces[choice], pending[choice]), key,
                          Clearing(snap, pending - {choice}));
    } else {
      WorkerShrinks(s, Idle);
      WorkerShrinks(s, s.worker);
    }
  }

  lemma WorkerShrinks(s: State, worker: Worker)
    requires s.worker.Busy?
    ensures Shrinks(s, s.(worker := worker), s.worker.key)
    ensures Shrinks(s, Notify(s.(worker := worker), {s.worker.key}), s.worker.key)
  {
  }

  lemma OthersShrink(s: State, choice: string)
    requires s.worker.Busy? && !s.worker.phase.Removing? && !s.worker.phase.Applying? && !s.worker.phase.Clearing?
    ensures Shrinks(s, Apply(s, Proceed(choice)), s.worker.key)
  {
    hide Selected, Owner, PoolRefError, ProfileRefError, PatchStatus, RemoveNext, ApplyNext, ClearNext, SetPolicy,
         Shrinks;
    var key := s.worker.key;
    WorkerShrinks(s, Apply(s, Proceed(choice)).worker);
    if s.worker.phase.Adopting? && key in s.policies {
      var p := s.policies[key].(finalizer := true);
      SetPolicyShrinks(s, key, p, Busy(key, CheckingPool(p)));
    } else if s.worker.phase.Reporting? && key in s.policies {
      var p := s.policies[key];
      var status := PatchStatus(s.worker.phase.snap.status, s.worker.phase.status, p.status);
      SetPolicyShrinks(s, key, p.(status := status), Idle);
    }
  }

  /** The limits hold on. */
  lemma WithinKept(s: State, step: Step, keys: set<Key>, limit: nat)
    requires Within(s, keys, limit) && Moves(s, step)
    ensures Within(Apply(s, step), keys, limit)
  {
    hide Apply, Enabled, Selected, Closer;
    if step.Dequeue? {
      DequeueShape(s, step.key);
    } else {
      ProceedShape(s, step.choice);
      ProceedAdvances(s, step.choice, keys, limit);
      ProceedShrinks(s, step.choice);
      hide Moves;
      CloserFacts(s.worker, Apply(s, step).worker, limit);
      SubmapSmaller(Apply(s, step).namespaces, s.namespaces);
    }
  }

  lemma CloserFacts(worker: Worker, worker': Worker, limit: nat)
    requires worker.Busy? && Closer(worker, worker', limit)
    ensures worker'.Busy? ==> worker'.key == worker.key && !worker'.phase.Started? && Size(worker'.phase) <= limit
                              && |Selected(worker'.phase.snap.spec)| <= limit
  {
  }

  lemma ProceedShrinks(s: State, choice: string)
    requires s.worker.Busy?
    ensures Enabled(s, Proceed(choice)) && Shrinks(s, Apply(s, Proceed(choice)), s.worker.key)
  {
    hide Shrinks, RemoveNext, ApplyNext, ClearNext, PoolRefOk, ProfileRefOk;
    match s.worker.phase
    case Removing(_, _) => RemoveShrinks(s, choice);
    case Applying(_, _, _) => ApplyShrinks(s, choice);
    case Clearing(_, _) => ClearShrinks(s, choice);
    case _ => OthersShrink(s, choice);
  }

  lemma ProceedShape(s: State, choice: string)
    requires Enabled(s, Proceed(choice))
    ensures s.worker.Busy?
  {
  }

  lemma DequeueShape(s: State, key: Key)
    requires Enabled(s, Dequeue(key))
    ensures Apply(s, Dequeue(key)) ==
            s.(worker := Busy(key, Started), queue := s.queue - {key}, misled := s.misled - {key})
    ensures key in s.queue && s.worker.Idle?
  {
  }

  // ---------------------------------------------------------------- the steps of such runs

  /** A write, or a status that becomes truthful, or neither and nothing queued. */
  ghost predicate Settling(s: State, s': State) {
    Current(s') &&
    (|| Writes(s') < Writes(s)
     || (Writes(s') == Writes(s) && |Untruthful(s')| < |Untruthful(s)|)
     || (Writes(s') == Writes(s) && Untruthful(s') == Untruthful(s) && s'.queue == s.queue))
  }

  lemma NothingWritten(s: State, s': State)
    requires SameCluster(s, s') && s'.queue == s.queue && Current(s')
    ensures Settling(s, s')
  {
    hide Current, RefsOk, Conflicted, Targets;
    assert Untruthful(s') == Untruthful(s) by {
      forall k | k in s.policies ensures SameTruth(s, s', k) {
        TruthKept(s, s', k);
      }
    }
  }

  ghost predicate SameTruth(s: State, s': State, k: Key)
    requires k in s.policies && k in s'.policies
  {
    forall status {:trigger Truthful(s', k, status)} :: Truthful(s', k, status) <==> Truthful(s, k, status)
  }

  lemma TruthKept(s: State, s': State, k: Key)
    requires k in s.policies && k in s'.policies && s'.namespaces == s.namespaces
    requires s'.pools == s.pools && s'.profiles == s.profiles && s'.names == s.names
    requires s'.policies[k].spec == s.policies[k].spec && s'.policies[k].uid == s.policies[k].uid
    requires s'.policies[k].generation == s.policies[k].generation
    ensures SameTruth(s, s', k)
  {
    hide PoolRefError, ProfileRefError, Selected, Conflicts, Blocked;
  }

  lemma StartsCurrent(s: State)
    requires Inv(s) && s.worker.Busy? && s.worker.phase.Started?
    ensures Settling(s, ReadPolicy(s, s.worker.key))
  {
    hide NoOrphans, AllCoherent, NoLostWakeup, Writes, Untruthful, Settling, Truthful, RefsOk;
    NothingWritten(s, ReadPolicy(s, s.worker.key));
  }

  lemma ChecksCurrent(s: State)
    requires Inv(s) && Current(s) && s.worker.Busy? && (s.worker.phase.CheckingPool? || s.worker.phase.CheckingProfile?)
    ensures s.worker.phase.CheckingPool? ==> Settling(s, CheckPool(s, s.worker.key, s.worker.phase.snap))
    ensures s.worker.phase.CheckingProfile? ==> Settling(s, CheckProfile(s, s.worker.key, s.worker.phase.snap))
  {
    hide NoOrphans, AllCoherent, NoLostWakeup, Writes, Untruthful, Settling, Conflicted, Targets, PoolRefError,
         ProfileRefError;
    if s.worker.phase.CheckingPool? {
      NothingWritten(s, CheckPool(s, s.worker.key, s.worker.phase.snap));
    } else {
      NothingWritten(s, CheckProfile(s, s.worker.key, s.worker.phase.snap));
    }
  }

  lemma ListsCurrent(s: State)
    requires Current(s) && s.worker.Busy? && (s.worker.phase.ListingManaged? || s.worker.phase.ListingOwned?)
    ensures s.worker.phase.ListingManaged? ==> Settling(s, ListManaged(s, s.worker.key, s.worker.phase.snap))
    ensures s.worker.phase.ListingOwned? ==> Settling(s, ListOwned(s, s.worker.key, s.worker.phase.snap))
  {
    hide Writes, Untruthful, Settling, Truthful, PoolRefOk, ProfileRefOk, Selected, Owner;
    if s.worker.phase.ListingManaged? {
      NothingWritten(s, ListManaged(s, s.worker.key, s.worker.phase.snap));
    } else {
      NothingWritten(s, ListOwned(s, s.worker.key, s.worker.phase.snap));
    }
  }

  lemma AdoptionCurrent(s: State)
    requires Inv(s) && Current(s) && s.worker.Busy? && s.worker.phase.Adopting?
    ensures Settling(s, AddFinalizer(s, s.worker.key))
  {
    hide IdsOk, NoOrphans, AllCoherent, NoLostWakeup, Untruthful, Truthful, Debts;
    var key := s.worker.key;
    var s' := AddFinalizer(s, key);
    Rewritten(s, s', key, s.policies[key].(finalizer := true));
    assert Unadopted(s'.policies) == Unadopted(s.policies) - {key} && key in Unadopted(s.policies);
  }

  /** Debts depend on who the policies are and what they want. */
  lemma SameDebts(policies: map<Key, Policy>, policies': map<Key, Policy>, nss: Namespaces)
    requires policies'.Keys == policies.Keys
    requires forall k :: k in policies ==> policies'[k].uid == policies[k].uid && policies'[k].spec == policies[k].spec
                                           && policies'[k].deleting == policies[k].deleting
    ensures Debts(policies', nss) == Debts(policies, nss)
  {
    hide Selected, Owner;
    forall n | n in nss ensures Debt(policies', nss[n], n) == Debt(policies, nss[n], n) {
      SameDebt(policies, policies', nss[n], n);
    }
    hide Debt;
    assert Owing(policies', nss, 1) == Owing(policies, nss, 1);
    assert Owing(policies', nss, 2) == Owing(policies, nss, 2);
    assert Owing(policies', nss, 3) == Owing(policies, nss, 3);
  }

  lemma SameDebt(policies: map<Key, Policy>, policies': map<Key, Policy>, a: Annotations, n: string)
    requires policies'.Keys == policies.Keys
    requires forall k :: k in policies ==> policies'[k].uid == policies[k].uid && policies'[k].spec == policies[k].spec
                                           && policies'[k].deleting == policies[k].deleting
    ensures Debt(policies', a, n) == Debt(policies, a, n)
  {
    hide Selected, Owner, TrimSpace;
    assert forall k :: Rightful(policies', k, a, n) <==> Rightful(policies, k, a, n);
    assert forall k :: k in policies ==> (Carries(a, k, policies'[k]) <==> Carries(a, k, policies[k]));
  }

  /** A change of finalizer or status, as far as the measure sees it. */
  lemma Rewritten(s: State, s': State, key: Key, p: Policy)
    requires key in s.policies && s'.policies == s.policies[key := p] && s'.namespaces == s.namespaces
    requires s'.pools == s.pools && s'.profiles == s.profiles && s'.names == s.names
    requires p.uid == s.policies[key].uid && p.spec == s.policies[key].spec && p.deleting == s.policies[key].deleting
    requires p.generation == s.policies[key].generation
    ensures |s'.policies| == |s.policies| && Debts(s'.policies, s'.namespaces) == Debts(s.policies, s.namespaces)
    ensures s'.policies.Keys == s.policies.Keys
    ensures forall k :: k in s.policies ==> SameTruth(s, s', k)
  {
    hide Debts, Truthful;
    SameDebts(s.policies, s'.policies, s.namespaces);
    assert s'.policies.Keys == s.policies.Keys;
    assert |s'.policies.Keys| == |s'.policies| && |s.policies.Keys| == |s.policies|;
    forall k | k in s.policies ensures SameTruth(s, s', k) {
      TruthKept(s, s', k);
    }
  }

  /** The report that is due either is the policy's status already or replaces an untrue one. */
  ghost predicate Steady(s: State) {
    Current(s) && s.worker.Busy? && s.worker.phase.Reporting? ==>
      var status := s.policies[s.worker.key].status;
      status == s.worker.phase.status || !Truthful(s, s.worker.key, status)
  }

  lemma StatusCurrent(s: State)
    requires Current(s) && s.worker.Busy? && s.worker.phase.Reporting? && Steady(s)
    ensures Settling(s, ReportStatus(s, s.worker.key, s.worker.phase.snap, s.worker.phase.status))
  {
    hide Truthful, Debts;
    var key := s.worker.key;
    var p := s.policies[key].(status := s.worker.phase.status);
    var s' := ReportStatus(s, key, s.worker.phase.snap, s.worker.phase.status);
    if p == s.policies[key] {
      NothingWritten(s, s');
    } else {
      Rewritten(s, s', key, p);
      assert Unadopted(s'.policies) == Unadopted(s.policies);
      assert Untruthful(s') == Untruthful(s) - {key} && key in Untruthful(s);
    }
  }

  lemma DropCurrent(s: State)
    requires Inv(s) && Current(s) && s.worker.Busy? && s.worker.phase.Clearing? && s.worker.phase.pending == map[]
    ensures Settling(s, Finish(DropPolicy(s, s.worker.key)))
  {
    hide AllCoherent, NoLostWakeup, NoOrphans, Untruthful, Truthful, Debt, Owner, Selected;
    var key := s.worker.key;
    var s' := Finish(DropPolicy(s, key));
    forall n | n in s.namespaces ensures Debt(s'.policies, s.namespaces[n], n) == Debt(s.policies, s.namespaces[n], n) {
      DroppedDebt(s, n);
    }
    assert Owing(s'.policies, s.namespaces, 1) == Owing(s.policies, s.namespaces, 1);
    assert Owing(s'.policies, s.namespaces, 2) == Owing(s.policies, s.namespaces, 2);
    assert Owing(s'.policies, s.namespaces, 3) == Owing(s.policies, s.namespaces, 3);
    assert Unadopted(s'.policies) <= Unadopted(s.policies);
    SubsetSmaller(Unadopted(s'.policies), Unadopted(s.policies));
    assert s'.policies.Keys == s.policies.Keys - {key};
    assert |s'.policies.Keys| == |s'.policies| && |s.policies.Keys| == |s.policies|;
  }

  lemma DroppedDebt(s: State, n: string)
    requires s.worker.Busy? && s.worker.key in s.policies && n in s.namespaces
    requires s.policies[s.worker.key].deleting
    ensures Debt(s.policies - {s.worker.key}, s.namespaces[n], n) == Debt(s.policies, s.namespaces[n], n)
  {
    hide Owner, Selected, Carries;
    assert forall k :: Rightful(s.policies - {s.worker.key}, k, s.namespaces[n], n) <==>
                       Rightful(s.policies, k, s.namespaces[n], n);
  }

  /** Less debt at one namespace is less debt. */
  lemma DebtFalls(policies: map<Key, Policy>, nss: Namespaces, n: string, a: Annotations)
    requires n in nss && Debt(policies, a, n) < Debt(policies, nss[n], n)
    ensures Debts(policies, nss[n := a]) < Debts(policies, nss)
  {
    var nss' := nss[n := a];
    var d := Debt(policies, nss[n], n);
    assert 1 <= d <= 3;
    hide Debt;
    SubsetSmaller(Owing(policies, nss', 1), Owing(policies, nss, 1));
    SubsetSmaller(Owing(policies, nss', 2), Owing(policies, nss, 2));
    SubsetSmaller(Owing(policies, nss', 3), Owing(policies, nss, 3));
    assert n in Owing(policies, nss, d) && n !in Owing(policies, nss', d);
  }

  /** A release of what its owner may not keep. */
  lemma ReleaseDebt(s: State, n: string, k: Key, a: Annotations)
    requires IdsOk(s) && k in s.policies && n in s.namespaces && Owner(s.namespaces[n]) == s.policies[k].uid
    requires s.policies[k].deleting || n !in Selected(s.policies[k].spec)
    requires Owner(a) == ""
    ensures Debt(s.policies, a, n) < Debt(s.policies, s.namespaces[n], n)
  {
    hide Owner, Selected, Carries;
  }

  lemma ClaimDebt(s: State, n: string, k: Key)
    requires IdsOk(s) && k in s.policies && n in s.namespaces && !Conflicts(s.namespaces[n], s.policies[k].uid)
    requires !s.policies[k].deleting && n in Selected(s.policies[k].spec)
    requires Annotate(s.namespaces[n], k, s.policies[k]) != s.namespaces[n]
    ensures Debt(s.policies, Annotate(s.namespaces[n], k, s.policies[k]), n) < Debt(s.policies, s.namespaces[n], n)
  {
    hide Selected, Annotate, Carries, Owner;
    var p, a := s.policies[k], s.namespaces[n];
    AnnotateMeans(a, k, p);
    CarriersOwn(Annotate(a, k, p), k, p);
    assert Rightful(s.policies, k, Annotate(a, k, p), n);
    assert forall l :: Rightful(s.policies, l, Annotate(a, k, p), n) ==> l == k;
    if Owner(a) != "" {
      assert Rightful(s.policies, k, a, n) && !Carries(a, k, p);
    }
  }

  lemma NamespaceWritten(s: State, s': State, n: string, a: Annotations)
    requires n in s.namespaces && s'.namespaces == s.namespaces[n := a] && s'.policies == s.policies && Current(s')
    requires Debt(s.policies, a, n) < Debt(s.policies, s.namespaces[n], n)
    ensures Settling(s, s')
  {
    hide Current, Debt, Debts;
    DebtFalls(s.policies, s.namespaces, n, a);
  }

  lemma FreshExcept(nss: Namespaces, pending: Namespaces, uid: string, n: string, a: Annotations)
    requires Fresh(nss, pending, uid) && n in nss
    ensures Fresh(nss[n := a], pending - {n}, uid)
  {
    hide Owner;
  }

  lemma RemovalCurrent(s: State, choice: string)
    requires Inv(s) && Current(s) && s.worker.Busy? && s.worker.phase.Removing? && choice in s.worker.phase.pending
    ensures Settling(s, RemoveNext(s, s.worker.key, s.worker.phase.snap, s.worker.phase.pending, choice))
  {
    hide NoOrphans, AllCoherent, NoLostWakeup, Settling, Owner, Selected, RemovePatch, SetNamespace, RemoveNext, Debt,
         Fresh, OwnsWithin, PoolRefOk, ProfileRefOk, Coherent;
    var key, snap, pending := s.worker.key, s.worker.phase.snap, s.worker.phase.pending;
    assert choice in s.namespaces && pending[choice] == s.namespaces[choice]
        && Owner(s.namespaces[choice]) == snap.uid by {
      FreshAt(s.namespaces, pending, snap.uid, choice);
    }
    var a := RemovePatch(s.namespaces[choice], pending[choice]);
    RemoveNextCases(s, choice);
    RemoveFresh(s.namespaces[choice]);
    SetNamespaceIsChange(s, choice, a, key, Removing(snap, pending - {choice}));
    FreshExcept(s.namespaces, pending, snap.uid, choice, a);
    ReleaseDebt(s, choice, key, a);
    NamespaceWritten(s, At(SetNamespace(s, choice, a), key, Removing(snap, pending - {choice})), choice, a);
  }

  lemma FreshAt(nss: Namespaces, pending: Namespaces, uid: string, n: string)
    requires Fresh(nss, pending, uid) && n in pending
    ensures n in nss && pending[n] == nss[n] && Owner(nss[n]) == uid
  {
  }

  lemma ClearanceCurrent(s: State, choice: string)
    requires Inv(s) && Current(s) && s.worker.Busy? && s.worker.phase.Clearing? && choice in s.worker.phase.pending
    ensures Settling(s, ClearNext(s, s.worker.key, s.worker.phase.snap, s.worker.phase.pending, choice))
  {
    hide NoOrphans, AllCoherent, NoLostWakeup, Settling, Owner, Selected, RemovePatch, SetNamespace, Debt, Fresh,
         OwnsWithin, PoolRefOk, ProfileRefOk, Coherent;
    var key, snap, pending := s.worker.key, s.worker.phase.snap, s.worker.phase.pending;
    FreshAt(s.namespaces, pending, snap.uid, choice);
    var a := RemovePatch(s.namespaces[choice], pending[choice]);
    RemoveFresh(s.namespaces[choice]);
    SetNamespaceIsChange(s, choice, a, key, Clearing(snap, pending - {choice}));
    FreshExcept(s.namespaces, pending, snap.uid, choice, a);
    ReleaseDebt(s, choice, key, a);
    NamespaceWritten(s, At(SetNamespace(s, choice, a), key, Clearing(snap, pending - {choice})), choice, a);
  }

  lemma ApplyingStartsCurrent(s: State)
    requires Inv(s) && Current(s) && s.worker.Busy? && s.worker.phase.Removing? && s.worker.phase.pending == map[]
    ensures Settling(s, At(s, s.worker.key, Applying(s.worker.phase.snap, Selected(s.worker.phase.snap.spec), 0)))
  {
    hide Inv, Settling, Selected, PoolRefOk, ProfileRefOk, Applied;
    NothingApplied(s.namespaces, s.worker.phase.snap, s.worker.key);
    NothingWritten(s, At(s, s.worker.key, Applying(s.worker.phase.snap, Selected(s.worker.phase.snap.spec), 0)));
  }

  /** When all is applied, everything is as the report will say. */
  lemma AppliedTruth(s: State)
    requires Inv(s) && Current(s) && s.worker.Busy? && s.worker.phase.Applying? && s.worker.phase.todo == {}
    ensures Truthful(s, s.worker.key, Enforcement(s.worker.phase.snap.generation, s.worker.phase.applied))
  {
    hide NoOrphans, AllCoherent, NoLostWakeup, WorkerOk, Selected, RefsOk, Carries, Owner, Conflicts;
    var key, snap := s.worker.key, s.worker.phase.snap;
    assert Selected(snap.spec) - {} == Selected(snap.spec);
    forall n | n in Targets(s.namespaces, snap) ensures !Conflicts(s.namespaces[n], snap.uid) {
      CarriersOwn(s.namespaces[n], key, snap);
    }
  }

  lemma ConflictTruth(s: State, n: string)
    requires Inv(s) && Current(s) && s.worker.Busy? && s.worker.phase.Applying? && n in s.worker.phase.todo
    requires n in s.namespaces && Conflicts(s.namespaces[n], s.worker.phase.snap.uid)
    ensures Truthful(s, s.worker.key, Blocked(s.worker.phase.snap.generation, n, s.namespaces[n]))
  {
    hide IdsOk, NoOrphans, AllCoherent, NoLostWakeup, Selected, RefsOk, Conflicts, Applied, OwnsWithin, Blocked;
    assert n in Targets(s.namespaces, s.worker.phase.snap);
  }

  lemma ReportStartsCurrent(s: State, status: Status)
    requires Current(s) && s.worker.Busy? && s.worker.phase.Applying? && Truthful(s, s.worker.key, status)
    ensures Settling(s, At(s, s.worker.key, Reporting(s.worker.phase.snap, status)))
  {
    hide Settling, Truthful, RefsOk, Applied, Selected;
    var s' := At(s, s.worker.key, Reporting(s.worker.phase.snap, status));
    TruthKept(s, s', s.worker.key);
    NothingWritten(s, s');
  }

  lemma TodoSelected(s: State)
    requires Inv(s) && s.worker.Busy? && s.worker.phase.Applying?
    ensures s.worker.phase.todo <= Selected(s.worker.phase.snap.spec)
  {
    hide IdsOk, NoOrphans, AllCoherent, NoLostWakeup, Selected, Held, OwnsWithin, Applied;
  }

  lemma ApplyingIsCurrent(s: State)
    requires s.worker.Busy? && s.worker.phase.Applying?
    ensures var key, snap := s.worker.key, s.worker.phase.snap;
            Current(s) <==>
            && key in s.policies && s.policies[key] == snap && RefsOk(s, key, snap)
            && Applied(s.namespaces, Selected(snap.spec) - s.worker.phase.todo, key, snap)
            && s.worker.phase.applied == |(Selected(snap.spec) - s.worker.phase.todo) * s.namespaces.Keys|
  {
    hide RefsOk, Applied, Selected;
  }

  /** One target done, and nothing written. */
  lemma TargetDone(s: State, n: string)
    requires Inv(s) && Current(s) && s.worker.Busy? && s.worker.phase.Applying? && n in s.worker.phase.todo
    requires n in s.namespaces ==>
               !Conflicts(s.namespaces[n], s.worker.phase.snap.uid)
               && Annotate(s.namespaces[n], s.worker.key, s.worker.phase.snap) == s.namespaces[n]
    ensures var applied := s.worker.phase.applied + if n in s.namespaces then 1 else 0;
            Settling(s, At(s, s.worker.key, Applying(s.worker.phase.snap, s.worker.phase.todo - {n}, applied)))
  {
    hide Inv, Current, Settling, Selected, Annotate, Carries, Conflicts, PoolRefOk, ProfileRefOk, Applied, Coherent;
    var key, snap, todo := s.worker.key, s.worker.phase.snap, s.worker.phase.todo;
    TodoSelected(s);
    ApplyingIsCurrent(s);
    if n in s.namespaces {
      AnnotateMeans(s.namespaces[n], key, snap);
    }
    OneMore(s.namespaces, key, snap, todo, n);
    var s' := At(s, key, Applying(snap, todo - {n}, s.worker.phase.applied + if n in s.namespaces then 1 else 0));
    ApplyingIsCurrent(s');
    NothingWritten(s, s');
  }

  lemma AppliedExcept(nss: Namespaces, names: set<string>, key: Key, p: Policy, n: string, a: Annotations)
    requires Applied(nss, names, key, p) && n in nss && Carries(a, key, p)
    ensures Applied(nss[n := a], names, key, p) && nss[n := a].Keys == nss.Keys
  {
    hide Carries;
  }

  /** One target written. */
  lemma TargetWritten(s: State, n: string)
    requires Inv(s) && Current(s) && s.worker.Busy? && s.worker.phase.Applying? && n in s.worker.phase.todo
    requires n in s.namespaces && !Conflicts(s.namespaces[n], s.worker.phase.snap.uid)
    requires Annotate(s.namespaces[n], s.worker.key, s.worker.phase.snap) != s.namespaces[n]
    ensures var key, snap := s.worker.key, s.worker.phase.snap;
            Settling(s, At(SetNamespace(s, n, Annotate(s.namespaces[n], key, snap)), key,
                           Applying(snap, s.worker.phase.todo - {n}, s.worker.phase.applied + 1)))
  {
    hide NoOrphans, AllCoherent, NoLostWakeup, Settling, Selected, Annotate, Carries, Owner, Conflicts, PoolRefOk,
         ProfileRefOk, Applied, OwnsWithin, SetNamespace, Debt;
    var key, snap, todo := s.worker.key, s.worker.phase.snap, s.worker.phase.todo;
    var a := Annotate(s.namespaces[n], key, snap);
    AnnotateMeans(s.namespaces[n], key, snap);
    AppliedExcept(s.namespaces, Selected(snap.spec) - todo, key, snap, n, a);
    OneMore(s.namespaces[n := a], key, snap, todo, n);
    SetNamespaceIsChange(s, n, a, key, Applying(snap, todo - {n}, s.worker.phase.applied + 1));
    ClaimDebt(s, n, key);
    NamespaceWritten(s, At(SetNamespace(s, n, a), key, Applying(snap, todo - {n}, s.worker.phase.applied + 1)), n, a);
  }

  lemma SetNamespaceSame(s: State, n: string)
    requires n in s.namespaces
    ensures SetNamespace(s, n, s.namespaces[n]) == s
  {
  }

  lemma ApplicationCurrent(s: State, choice: string)
    requires Inv(s) && Current(s) && s.worker.Busy? && s.worker.phase.Applying?
    ensures var s' := ApplyNext(s, s.worker.key, s.worker.phase.snap, s.worker.phase.todo, s.worker.phase.applied,
                                choice);
            s' == s || Settling(s, s')
  {
    hide Inv, Current, Settling, SetNamespace, Annotate, Conflicts, ApplyNext, Truthful;
    var key, snap, todo, applied := s.worker.key, s.worker.phase.snap, s.worker.phase.todo, s.worker.phase.applied;
    ApplyNextCases(s, key, snap, todo, applied, choice);
    if todo == {} {
      AppliedTruth(s);
      CurrentKey(s);
      ReportStartsCurrent(s, Enforcement(snap.generation, applied));
    } else if choice in todo && choice !in s.namespaces {
      TargetDone(s, choice);
    } else if choice in todo && Conflicts(s.namespaces[choice], snap.uid) {
      ConflictTruth(s, choice);
      CurrentKey(s);
      ReportStartsCurrent(s, Blocked(snap.generation, choice, s.namespaces[choice]));
    } else if choice in todo && Annotate(s.namespaces[choice], key, snap) == s.namespaces[choice] {
      SetNamespaceSame(s, choice);
      TargetDone(s, choice);
    } else if choice in todo {
      TargetWritten(s, choice);
    }
  }

  lemma CurrentKey(s: State)
    requires Current(s) && s.worker.Busy? && !s.worker.phase.Started?
    ensures s.worker.key in s.policies
  {
  }

  lemma ProceedSettles(s: State, choice: string)
    requires Inv(s) && Current(s) && Steady(s) && s.worker.Busy?
    ensures Apply(s, Proceed(choice)) == s || Settling(s, Apply(s, Proceed(choice)))
  {
    hide Inv, Current, Steady, Settling, ReadPolicy, AddFinalizer, CheckPool, CheckProfile, ListManaged, ListOwned,
         RemoveNext,
         ApplyNext, ReportStatus;
    match s.worker.phase {
      case Started => StartsCurrent(s);
      case Adopting(_) => AdoptionCurrent(s);
      case CheckingPool(_) => ChecksCurrent(s);
      case CheckingProfile(_) => ChecksCurrent(s);
      case ListingManaged(_) => ListsCurrent(s);
      case Removing(snap, pending) =>
        RemoveNextCases(s, choice);
        if pending == map[] {
          ApplyingStartsCurrent(s);
        } else if choice in pending {
          RemovalCurrent(s, choice);
        }
      case Applying(_, _, _) => ApplicationCurrent(s, choice);
      case Reporting(_, _) => StatusCurrent(s);
      case ListingOwned(_) => ListsCurrent(s);
      case Clearing(_, pending) =>
        if pending == map[] {
          ClearingEnds(s, choice);
          DropCurrent(s);
        } else if choice in pending {
          ClearanceCurrent(s, choice);
        }
    }
  }

  lemma ClearingEnds(s: State, choice: string)
    requires Inv(s) && s.worker.Busy? && s.worker.phase.Clearing? && s.worker.phase.pending == map[]
    ensures ClearNext(s, s.worker.key, s.worker.phase.snap, s.worker.phase.pending, choice) ==
            Finish(DropPolicy(s, s.worker.key))
  {
    hide IdsOk, NoOrphans, AllCoherent, NoLostWakeup, AllCopied, OwnsWithin;
  }

  // ---------------------------------------------------------------- every run ends

  lemma DequeueDescends(s: State, key: Key, keys: set<Key>, limit: nat)
    requires Enabled(s, Dequeue(key)) && Within(s, keys, limit) && Within(Apply(s, Dequeue(key)), keys, limit)
    ensures Rank(Apply(s, Dequeue(key)), |keys|, limit) < Rank(s, |keys|, limit)
  {
    hide Within, Writes, Truthful, Level, RefsOk, PoolOk, Selected;
    DequeueShape(s, key);
    var s' := Apply(s, Dequeue(key));
    hide Apply, Enabled;
    PartsBounded(s', keys, limit);
    assert Untruthful(s') == Untruthful(s) by {
      forall k | k in s.policies ensures SameTruth(s, s', k) {
        TruthKept(s, s', k);
      }
    }
    assert Writes(s') == Writes(s) by { SameWrites(s, s'); }
    SubsetSmaller(s'.queue, s.queue);
    LevelDrops(Writes(s), |Untruthful(s)|, |s.queue|, Remaining(s.worker, limit),
               Writes(s'), |Untruthful(s')|, |s'.queue|, Remaining(s'.worker, limit), |keys|, limit);
  }

  lemma SameWrites(s: State, s': State)
    requires s'.policies == s.policies && s'.namespaces == s.namespaces
    ensures Writes(s') == Writes(s)
  {
  }

  lemma ProceedDescends(s: State, choice: string, keys: set<Key>, limit: nat)
    requires Inv(s) && Steady(s) && s.worker.Busy? && Moves(s, Proceed(choice))
    requires Within(s, keys, limit) && Within(Apply(s, Proceed(choice)), keys, limit)
    ensures Rank(Apply(s, Proceed(choice)), |keys|, limit) < Rank(s, |keys|, limit)
  {
    hide Inv, Within, Writes, Untruthful, Level, Ceiling, Current, Closer, Remaining, Apply;
    var s' := Apply(s, Proceed(choice));
    PartsBounded(s', keys, limit);
    ProceedAdvances(s, choice, keys, limit);
    hide Moves, Enabled;
    LevelBounded(Writes(s'), |Untruthful(s')|, |s'.queue|, Remaining(s'.worker, limit), |keys|, limit);
    if Current(s) {
      ProceedSettles(s, choice);
      LevelDrops(Writes(s), |Untruthful(s)|, |s.queue|, Remaining(s.worker, limit),
                 Writes(s'), |Untruthful(s')|, |s'.queue|, Remaining(s'.worker, limit), |keys|, limit);
    }
  }

  lemma MoveDescends(s: State, step: Step, keys: set<Key>, limit: nat)
    requires Inv(s) && Steady(s) && Moves(s, step) && Within(s, keys, limit)
    ensures Within(Apply(s, step), keys, limit)
    ensures Rank(Apply(s, step), |keys|, limit) < Rank(s, |keys|, limit)
  {
    hide Inv, Within, Rank, Apply, Enabled;
    WithinKept(s, step, keys, limit);
    if step.Dequeue? {
      DequeueDescends(s, step.key, keys, limit);
    } else {
      ProceedShape(s, step.choice);
      ProceedDescends(s, step.choice, keys, limit);
    }
  }

  // ---------------------------------------------------------------- runs end unless a conflict keeps changing

  /** At least two existing namespaces that the policy selects belong to others. */
  ghost predicate TwiceConflicted(nss: Namespaces, p: Policy) {
    exists m, n :: m != n && m in Targets(nss, p) && n in Targets(nss, p)
                   && Conflicts(nss[m], p.uid) && Conflicts(nss[n], p.uid)
  }

  /** A live policy with valid references and at least two conflicts. */
  ghost predicate Torn(s: State, k: Key) {
    && k in s.policies && !s.policies[k].deleting && RefsOk(s, k, s.policies[k])
    && TwiceConflicted(s.namespaces, s.policies[k])
  }

  /** Between two runs, such a policy is queued, with its finalizer. */
  ghost predicate Flapping(s: State) {
    s.worker.Idle? && exists k :: k in s.queue && Torn(s, k) && s.policies[k].finalizer
  }

  ghost predicate NeverFlaps(s: State, steps: seq<Step>)
    requires EnabledRun(s, steps)
    decreases |steps|
  {
    steps == [] || (!Flapping(Apply(s, steps[0])) && NeverFlaps(Apply(s, steps[0]), steps[1..]))
  }

  /** Two truthful statuses that differ name two conflicts. */
  lemma TwoTruths(s: State, k: Key, a: Status, b: Status)
    requires k in s.policies && Truthful(s, k, a) && Truthful(s, k, b) && a != b
    ensures RefsOk(s, k, s.policies[k]) && TwiceConflicted(s.namespaces, s.policies[k])
  {
    hide RefsOk, Conflicts, Selected, Conflicted, Blocked;
    var p := s.policies[k];
    var m :| m in Targets(s.namespaces, p) && Conflicts(s.namespaces[m], p.uid)
             && a == Blocked(p.generation, m, s.namespaces[m]);
    var n :| n in Targets(s.namespaces, p) && Conflicts(s.namespaces[n], p.uid)
             && b == Blocked(p.generation, n, s.namespaces[n]);
    assert m != n;
  }

  /** A true status is replaced by another true one only for a policy that is torn, and that is queued again. */
  lemma FlapsAfter(s: State)
    requires Inv(s) && s.worker.Busy? && s.worker.phase.Reporting? && !Steady(s)
    ensures Flapping(ReportStatus(s, s.worker.key, s.worker.phase.snap, s.worker.phase.status))
  {
    hide IdsOk, NoOrphans, AllCoherent, NoLostWakeup, Truthful, TwiceConflicted, RefsOk, Justified;
    var key := s.worker.key;
    var p, p' := s.policies[key], s.policies[key].(status := s.worker.phase.status);
    TwoTruths(s, key, p.status, p'.status);
    var s' := ReportStatus(s, key, s.worker.phase.snap, s.worker.phase.status);
    assert s' == Finish(SetPolicy(s, key, p'));
    TornKept(s, s', key);
  }

  /** Being torn depends on the references, the namespaces and the identity of the policy only. */
  lemma TornKept(s: State, s': State, k: Key)
    requires Torn(s, k) && s'.namespaces == s.namespaces && k in s'.policies
    requires s'.pools == s.pools && s'.profiles == s.profiles && s'.names == s.names
    requires s'.policies[k].spec == s.policies[k].spec && s'.policies[k].uid == s.policies[k].uid
    requires s'.policies[k].deleting == s.policies[k].deleting
    ensures Torn(s', k)
  {
    hide PoolRefError, ProfileRefError, Selected, Conflicts;
    var p, p' := s.policies[k], s'.policies[k];
    var m, n :| m != n && m in Targets(s.namespaces, p) && n in Targets(s.namespaces, p)
                && Conflicts(s.namespaces[m], p.uid) && Conflicts(s.namespaces[n], p.uid);
    assert m in Targets(s'.namespaces, p') && n in Targets(s'.namespaces, p');
  }

  lemma {:induction false} RankBounds(s: State, steps: seq<Step>, keys: set<Key>, limit: nat)
    requires Inv(s) && Within(s, keys, limit) && EnabledRun(s, steps) && MovingRun(s, steps) && NeverFlaps(s, steps)
    ensures |steps| <= Rank(s, |keys|, limit)
    decreases |steps|
  {
    hide Inv, Within, Rank, Apply, Enabled, Moves, Steady, Flapping;
    if steps != [] {
      SteadyBefore(s, steps[0]);
      MoveDescends(s, steps[0], keys, limit);
      StepKeepsInv(s, steps[0]);
      RankBounds(Apply(s, steps[0]), steps[1..], keys, limit);
    }
  }

  lemma SteadyBefore(s: State, step: Step)
    requires Inv(s) && Moves(s, step) && !Flapping(Apply(s, step))
    ensures Steady(s)
  {
    hide Inv, Flapping, ReportStatus, Current, Truthful;
    if s.worker.Busy? && s.worker.phase.Reporting? && !Steady(s) {
      FlapsAfter(s);
      ReportIsNext(s, step);
      assert false;
    }
  }

  lemma ReportIsNext(s: State, step: Step)
    requires Moves(s, step) && s.worker.Busy? && s.worker.phase.Reporting?
    ensures Apply(s, step) == ReportStatus(s, s.worker.key, s.worker.phase.snap, s.worker.phase.status)
  {
    hide ReportStatus;
  }

  /** How long a run can be that never flaps. */
  function Bound(keys: set<Key>, limit: nat): nat { Ceiling(|keys|, limit) + 9 * (limit + 1) }

  /** Left alone, the worker takes a bounded number of steps, however its queue and its loops are ordered, as
      long as no policy that is queued has two conflicts. The bound depends on the number of keys and on the
      sizes of the cluster and of the selectors only. */
  lemma MovingRunsAreBounded(s: State, steps: seq<Step>, keys: set<Key>, limit: nat)
    requires Inv(s) && Within(s, keys, limit) && EnabledRun(s, steps) && MovingRun(s, steps) && NeverFlaps(s, steps)
    ensures |steps| < Bound(keys, limit)
  {
    hide Inv, Within, Writes, Untruthful, Level, Ceiling, Current, Remaining, Run, EnabledRun, MovingRun, NeverFlaps;
    RankBounds(s, steps, keys, limit);
    PartsBounded(s, keys, limit);
    LevelBounded(Writes(s), |Untruthful(s)|, |s.queue|, Remaining(s.worker, limit), |keys|, limit);
  }

  lemma {:induction false} SelectorLimit(policies: map<Key, Policy>) returns (limit: nat)
    ensures forall k :: k in policies ==> |Selected(policies[k].spec)| <= limit
    decreases |policies|
  {
    hide Selected;
    if policies == map[] {
      limit := 0;
    } else {
      var k :| k in policies;
      var fewer := policies - {k};
      assert fewer.Keys == policies.Keys - {k} && |fewer.Keys| == |fewer| && |policies.Keys| == |policies|;
      limit := SelectorLimit(fewer);
      limit := limit + |Selected(policies[k].spec)|;
      forall l | l in policies ensures |Selected(policies[l].spec)| <= limit {
        assert l != k ==> l in fewer && fewer[l] == policies[l];
      }
    }
  }

  /** Every state has its limits. */
  lemma LimitsExist(s: State) returns (keys: set<Key>, limit: nat)
    ensures Within(s, keys, limit)
  {
    hide Selected;
    keys := s.queue + s.policies.Keys + if s.worker.Busy? then {s.worker.key} else {};
    limit := SelectorLimit(s.policies);
    limit := limit + |s.namespaces|;
    if s.worker.Busy? {
      limit := limit + Size(s.worker.phase) + if s.worker.phase.Started? then 0
          else |Selected(s.worker.phase.snap.spec)|;
    }
  }

  /** At the end of every run that cannot be continued, the queue is empty, no policy that was marked for
      deletion is left, and every policy is settled. */
  lemma EverythingSettles(s0: State, history: seq<Step>, steps: seq<Step>)
    requires Initial(s0) && EnabledRun(s0, history)
    requires EnabledRun(Run(s0, history), steps) && MovingRun(Run(s0, history), steps)
    requires forall step :: !Moves(Run(Run(s0, history), steps), step)
    ensures var s := Run(Run(s0, history), steps);
            && Quiet(s)
            && forall k :: k in s.policies ==> Settled(s, k)
  {
    hide Settled, Moves, Enabled, Apply, MovingRun;
    InitialInv(s0);
    ReachableInv(s0, history);
    ReachableInv(Run(s0, history), steps);
    var s := Run(Run(s0, history), steps);
    if !Quiet(s) {
      var step := CanMove(s);
      assert false;
    }
  }

  // ---------------------------------------------------------------- some run always ends

  /** With the right choice, even a torn policy reports what its status says already. */
  lemma SteadyMove(s: State) returns (step: Step)
    requires Inv(s) && Current(s) && Steady(s) && !Quiet(s)
    ensures Moves(s, step) && Current(Apply(s, step)) && Steady(Apply(s, step))
  {
    hide Inv, Current, Steady, Apply, Enabled;
    if s.worker.Idle? {
      step := CanMove(s);
      IdleMoves(s, step);
    } else if s.worker.phase.Applying? && TellsConflict(s.namespaces, s.worker.phase.snap, s.worker.phase.snap.status) {
      var n := ToldConflict(s);
      step := Proceed(n);
    } else {
      step := CanMove(s);
      SteadyOtherwise(s, step);
    }
  }

  lemma IdleMoves(s: State, step: Step)
    requires s.worker.Idle? && Moves(s, step)
    ensures Current(Apply(s, step)) && Steady(Apply(s, step))
  {
    hide Moves;
    assert step.Dequeue? by { MoveIsDequeue(s, step); }
  }

  lemma MoveIsDequeue(s: State, step: Step)
    requires s.worker.Idle? && Moves(s, step)
    ensures step.Dequeue?
  {
    hide Apply;
  }

  lemma ToldConflict(s: State) returns (n: string)
    requires Inv(s) && Current(s) && s.worker.Busy? && s.worker.phase.Applying?
    requires TellsConflict(s.namespaces, s.worker.phase.snap, s.worker.phase.snap.status)
    ensures Moves(s, Proceed(n)) && Current(Apply(s, Proceed(n))) && Steady(Apply(s, Proceed(n)))
  {
    hide Inv, RefsOk, Owner, Annotate, Conflicts, SetNamespace, Blocked, Truthful, Selected, Carries;
    var key, snap, todo, applied := s.worker.key, s.worker.phase.snap, s.worker.phase.todo, s.worker.phase.applied;
    n :| n in Targets(s.namespaces, snap) && Conflicts(s.namespaces[n], snap.uid)
         && snap.status == Blocked(snap.generation, n, s.namespaces[n]);
    if n !in todo {
      CarriersOwn(s.namespaces[n], key, snap);
      assert false;
    }
    ConflictTruth(s, n);
    ReportStartsCurrent(s, snap.status);
  }

  /** Where the status tells no conflict, what a run is going to report is unique or the status is not true. */
  lemma SteadyOtherwise(s: State, step: Step)
    requires Inv(s) && Current(s) && Steady(s) && s.worker.Busy? && Moves(s, step)
    requires s.worker.phase.Applying? ==> !TellsConflict(s.namespaces, s.worker.phase.snap, s.worker.phase.snap.status)
    ensures Current(Apply(s, step)) && Steady(Apply(s, step))
  {
    hide Inv, Current, Steady, Apply, Truthful, TellsConflict, RefsOk;
    BusyProceeds(s, step);
    hide Moves, Enabled;
    ProceedSettles(s, step.choice);
    var s' := Apply(s, step);
    if s'.worker.Busy? && s'.worker.phase.Reporting? {
      ReportsAfter(s, step.choice);
      CurrentSnap(s);
      CurrentSnap(s');
      OneTruth(s');
    }
    NotReporting(s');
  }

  lemma BusyProceeds(s: State, step: Step)
    requires s.worker.Busy? && Moves(s, step)
    ensures step.Proceed? && Apply(s, step) != s
  {
    hide Apply;
  }

  lemma NotReporting(s: State)
    ensures s.worker.Idle? || !s.worker.phase.Reporting? ==> Steady(s)
  {
    hide Current, Truthful;
  }

  lemma CurrentSnap(s: State)
    requires Current(s) && s.worker.Busy? && !s.worker.phase.Started?
    ensures s.worker.key in s.policies && s.policies[s.worker.key] == s.worker.phase.snap
  {
    hide RefsOk, Truthful, Applied, Fresh;
  }

  lemma OneTruth(s: State)
    requires Current(s) && s.worker.Busy? && s.worker.phase.Reporting? && s.worker.key in s.policies
    requires var p := s.policies[s.worker.key];
             !RefsOk(s, s.worker.key, p) || !TellsConflict(s.namespaces, p, p.status)
    ensures Steady(s)
  {
    hide RefsOk, Conflicted, TellsConflict;
  }

  /** A run gets to its report from its checks, or from the loop that applies the policy. */
  ghost predicate ComesToReport(s: State, s': State)
    requires s.worker.Busy?
  {
    s'.worker.Busy? && s'.worker.phase.Reporting? && s' != s ==>
      && s'.policies == s.policies && s'.namespaces == s.namespaces
      && s'.worker.key == s.worker.key && s.worker.key in s.policies
      && (s.worker.phase.Applying? || !RefsOk(s', s.worker.key, s.policies[s.worker.key]))
      && !s.worker.phase.Started?
  }

  lemma ChecksReport(s: State)
    requires Current(s) && s.worker.Busy? && (s.worker.phase.CheckingPool? || s.worker.phase.CheckingProfile?)
    ensures s.worker.phase.CheckingPool? ==> ComesToReport(s, CheckPool(s, s.worker.key, s.worker.phase.snap))
    ensures s.worker.phase.CheckingProfile? ==> ComesToReport(s, CheckProfile(s, s.worker.key, s.worker.phase.snap))
  {
    hide PoolRefError, ProfileRefError;
  }

  lemma ApplicationReports(s: State, choice: string)
    requires Current(s) && s.worker.Busy? && s.worker.phase.Applying?
    ensures ComesToReport(s,
            ApplyNext(s, s.worker.key, s.worker.phase.snap, s.worker.phase.todo, s.worker.phase.applied,
                                       choice))
  {
    hide ApplyNext, SetNamespace, Annotate, Conflicts, RefsOk, Applied, Selected;
    ApplyNextCases(s, s.worker.key, s.worker.phase.snap, s.worker.phase.todo, s.worker.phase.applied, choice);
  }

  lemma RemovalReports(s: State, choice: string)
    requires Current(s) && s.worker.Busy? && s.worker.phase.Removing?
    ensures ComesToReport(s, RemoveNext(s, s.worker.key, s.worker.phase.snap, s.worker.phase.pending, choice))
  {
    hide RemoveNext, Release, RefsOk, Selected, Owner;
    RemoveNextCases(s, choice);
  }

  lemma ReportsAfter(s: State, choice: string)
    requires Inv(s) && Current(s) && s.worker.Busy?
    ensures ComesToReport(s, Apply(s, Proceed(choice)))
  {
    hide Inv, Current, ComesToReport, CheckPool, CheckProfile, RemoveNext, ApplyNext;
    match s.worker.phase
    case CheckingPool(_) => ChecksReport(s);
    case CheckingProfile(_) => ChecksReport(s);
    case Removing(_, _) => RemovalReports(s, choice);
    case Applying(_, _, _) => ApplicationReports(s, choice);
    case _ => OthersDoNotReport(s, choice);
  }

  lemma OthersDoNotReport(s: State, choice: string)
    requires s.worker.Busy? && !s.worker.phase.CheckingPool? && !s.worker.phase.CheckingProfile?
    requires !s.worker.phase.Removing? && !s.worker.phase.Applying?
    ensures ComesToReport(s, Apply(s, Proceed(choice)))
  {
    hide RefsOk, RemoveNext, ApplyNext, CheckPool, CheckProfile, Release, PatchStatus, Selected, Owner;
  }

  /** From every state that satisfies the invariant some run comes to rest. */
  lemma SomeRunSettles(s: State) returns (steps: seq<Step>)
    requires Inv(s)
    ensures EnabledRun(s, steps) && MovingRun(s, steps) && Quiet(Run(s, steps))
  {
    hide Inv, Within, Current, Steady, Run, EnabledRun, MovingRun, Moves, Apply, Enabled;
    var keys, limit := LimitsExist(s);
    var first := SomeRunEnds(s, keys, limit);
    ReachableInv(s, first);
    var s' := Run(s, first);
    IdleIsSteady(s');
    var keys', limit' := LimitsExist(s');
    var second := SteadyRunSettles(s', keys', limit');
    RunsThen(s, first, second);
    steps := first + second;
  }

  lemma IdleIsSteady(s: State)
    requires s.worker.Idle?
    ensures Current(s) && Steady(s)
  {
  }

  lemma {:induction false} SomeRunEnds(s: State, keys: set<Key>, limit: nat) returns (steps: seq<Step>)
    requires Inv(s) && Within(s, keys, limit)
    ensures EnabledRun(s, steps) && MovingRun(s, steps) && Run(s, steps).worker.Idle?
    decreases Remaining(s.worker, limit)
  {
    hide Inv, Within, Apply, Remaining, Closer;
    if s.worker.Idle? {
      steps := [];
    } else {
      var step := CanMove(s);
      BusyProceeds(s, step);
      ProceedAdvances(s, step.choice, keys, limit);
      WithinKept(s, step, keys, limit);
      StepKeepsInv(s, step);
      hide Moves, Enabled;
      var rest := SomeRunEnds(Apply(s, step), keys, limit);
      steps := [step] + rest;
      assert steps[0] == step && steps[1..] == rest;
    }
  }

  lemma {:induction false} SteadyRunSettles(s: State, keys: set<Key>, limit: nat) returns (steps: seq<Step>)
    requires Inv(s) && Within(s, keys, limit) && Current(s) && Steady(s)
    ensures EnabledRun(s, steps) && MovingRun(s, steps) && Quiet(Run(s, steps))
    decreases Rank(s, |keys|, limit)
  {
    hide Inv, Within, Rank, Apply, Current, Steady;
    if Quiet(s) {
      steps := [];
    } else {
      var step := SteadyMove(s);
      MoveDescends(s, step, keys, limit);
      StepKeepsInv(s, step);
      hide Moves, Enabled;
      var rest := SteadyRunSettles(Apply(s, step), keys, limit);
      steps := [step] + rest;
      assert steps[0] == step && steps[1..] == rest;
    }
  }

  lemma {:induction false} RunsThen(s: State, first: seq<Step>, second: seq<Step>)
    requires EnabledRun(s, first) && EnabledRun(Run(s, first), second)
    ensures EnabledRun(s, first + second) && Run(s, first + second) == Run(Run(s, first), second)
    ensures MovingRun(s, first) && MovingRun(Run(s, first), second) ==> MovingRun(s, first + second)
    decreases |first|
  {
    hide Apply, Enabled, Moves;
    if first == [] {
      assert first + second == second;
    } else {
      RunsThen(Apply(s, first[0]), first[1..], second);
      assert (first + second)[1..] == first[1..] + second;
    }
  }
}
