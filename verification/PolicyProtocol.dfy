/** The ownership protocol: users, a deduplicating work queue, and one worker whose reconcile proceeds
    API call by API call, with the users' steps in between. */
module PolicyProtocol {
  import opened Text
  import opened Objects
  import opened Policies

  /** Where the worker stands in Reconcile. `snap` is the policy object it holds in memory; `pending` are
      the namespaces still to be released, as they were listed. */
  datatype Phase =
    | Started
    | Adopting(snap: Policy)
    | CheckingPool(snap: Policy)
    | CheckingProfile(snap: Policy)
    | ListingManaged(snap: Policy)
    | Removing(snap: Policy, pending: Namespaces)
    | Applying(snap: Policy, todo: set<string>, applied: nat)
    | Reporting(snap: Policy, status: Status)
    | ListingOwned(snap: Policy)
    | Clearing(snap: Policy, pending: Namespaces)

  datatype Worker = Idle | Busy(key: Key, phase: Phase)

  /** `queue`: the keys that are queued, or will be queued again when the worker is done with them;
      `uids`: all UIDs ever given out; `names` never changes; `misled`: the keys whose latest run took a
      failed lookup of a pool or profile for a broken reference, and what it reported. */
  datatype State = State(
    policies: map<Key, Policy>,
    namespaces: Namespaces,
    pools: set<Key>,
    profiles: set<Key>,
    queue: set<Key>,
    worker: Worker,
    uids: set<string>,
    names: Names,
    misled: map<Key, ReferenceError>)

  datatype Step =
    // users
    | CreatePolicy(key: Key, uid: string, spec: PolicySpec)
    | EditPolicy(key: Key, spec: PolicySpec)
    | DeletePolicy(key: Key)
    | CreateNamespace(name: string, annotations: Annotations)
    | AnnotateNamespace(name: string, annotations: Annotations)
    | DeleteNamespace(name: string)
    | CreatePool(key: Key)
    | DeletePool(key: Key)
    | CreateProfile(key: Key)
    | DeleteProfile(key: Key)
    // the worker; `choice` is the next namespace of a loop
    | Dequeue(key: Key)
    | Proceed(choice: string)
    | CallFails(error: string)  // the worker's next API call fails, otherwise than by not finding the object
    | Restart  // the operator starts anew: the run in progress is lost, and all policies are queued

  // ---------------------------------------------------------------- events

  function Notify(s: State, keys: set<Key>): State { s.(queue := s.queue + keys) }

  /** mapNamespaceToPolicies */
  function Selecting(s: State, name: string): set<Key> {
    set k | k in s.policies && name in Selected(s.policies[k].spec)
  }

  /** mapUpstreamPoolToPolicies */
  function PoolReferrers(s: State, pool: Key): set<Key> {
    set k | k in s.policies && k.ns == pool.ns && TrimSpace(s.policies[k].spec.upstreamRef) == pool.name
  }

  /** mapCacheProfileToPolicies */
  function ProfileReferrers(s: State, profile: Key): set<Key> {
    set k | k in s.policies && k.ns == profile.ns && TrimSpace(s.policies[k].spec.cacheRef) == profile.name
  }

  /** Writing an object notifies the watchers if the object changes. */
  function SetPolicy(s: State, key: Key, p: Policy): State {
    if key in s.policies && s.policies[key] == p then s
    else Notify(s.(policies := s.policies[key := p]), {key})
  }

  function DropPolicy(s: State, key: Key): State { Notify(s.(policies := s.policies - {key}), {key}) }

  function SetNamespace(s: State, name: string, a: Annotations): State {
    if name in s.namespaces && s.namespaces[name] == a then s
    else Notify(s.(namespaces := s.namespaces[name := a]), Selecting(s, name))
  }

  function DropNamespace(s: State, name: string): State {
    Notify(s.(namespaces := s.namespaces - {name}), Selecting(s, name))
  }

  // ---------------------------------------------------------------- user steps

  predicate UserStep(step: Step) { !step.Dequeue? && !step.Proceed? && !step.CallFails? && !step.Restart? }

  /** The worker's next move is an API call: not the end of a loop, and not the verdict on a reference that is
      malformed or, for the profile, absent. */
  predicate MakesCall(s: State)
    requires s.worker.Busy?
  {
    match s.worker.phase
    case CheckingPool(snap) =>
      SelectorError(snap.spec.selector, s.names).None? && RefName(snap.spec.upstreamRef, true, s.names).Some?
    case CheckingProfile(snap) => RefName(snap.spec.cacheRef, false, s.names).Some? && snap.spec.cacheRef != ""
    case Removing(_, pending) => pending != map[]
    case Applying(_, todo, _) => todo != {}
    case _ => true
  }

  /** Users write neither the four annotations nor the finalizer, and UIDs are never reused. */
  predicate Enabled(s: State, step: Step) {
    match step
    case CreatePolicy(key, uid, _) => key !in s.policies && uid != "" && uid !in s.uids
    case EditPolicy(key, _) => key in s.policies
    case DeletePolicy(key) => key in s.policies
    case CreateNamespace(name, annotations) => name !in s.namespaces && annotations.Keys !! POLICY_KEYS
    case AnnotateNamespace(name, annotations) => name in s.namespaces && annotations.Keys !! POLICY_KEYS
    case DeleteNamespace(name) => name in s.namespaces
    case Dequeue(key) => s.worker.Idle? && key in s.queue
    case Proceed(_) => s.worker.Busy?
    case CallFails(_) => s.worker.Busy? && MakesCall(s)
    case _ => true
  }

  /** A user's rewrite of the annotations leaves the operator's in place. */
  function Reannotated(a: Annotations, annotations: Annotations): Annotations {
    annotations + (a - (a.Keys - POLICY_KEYS))
  }

  function ApplyUser(s: State, step: Step): State
    requires UserStep(step) && Enabled(s, step)
  {
    match step
    case CreatePolicy(key, uid, spec) =>
      SetPolicy(s.(uids := s.uids + {uid}), key, Policy(uid, spec, 1, false, false, Status(None, 0, 0)))
    case EditPolicy(key, spec) =>
      var p := s.policies[key];
      if spec == p.spec then s else SetPolicy(s, key, p.(spec := spec, generation := p.generation + 1))
    case DeletePolicy(key) =>
      // with the finalizer set, deletion only marks the object
      var p := s.policies[key];
      if !p.finalizer then DropPolicy(s, key)
      else if p.deleting then s
      else SetPolicy(s, key, p.(deleting := true, generation := p.generation + 1))
    case CreateNamespace(name, annotations) => SetNamespace(s, name, annotations)
    case AnnotateNamespace(name, annotations) => SetNamespace(s, name, Reannotated(s.namespaces[name], annotations))
    case DeleteNamespace(name) => DropNamespace(s, name)
    case CreatePool(key) => Notify(s.(pools := s.pools + {key}), PoolReferrers(s, key))
    case DeletePool(key) => Notify(s.(pools := s.pools - {key}), PoolReferrers(s, key))
    case CreateProfile(key) => Notify(s.(profiles := s.profiles + {key}), ProfileReferrers(s, key))
    case DeleteProfile(key) => Notify(s.(profiles := s.profiles - {key}), ProfileReferrers(s, key))
  }

  // ---------------------------------------------------------------- worker steps

  function At(s: State, key: Key, phase: Phase): State { s.(worker := Busy(key, phase)) }

  function Finish(s: State): State { s.(worker := Idle) }

  function Fail(s: State, key: Key): State { Notify(s.(worker := Idle), {key}) }

  /** A failure within enforcePolicy is reported before the run returns its error, which queues the key. */
  function FailEnforcement(s: State, key: Key, snap: Policy, error: string): State {
    Notify(At(s, key, Reporting(snap, Broken(snap.generation, error))), {key})
  }

  /** A lookup that fails for any reason counts as a broken reference, and the run reports that without
      returning an error; other failures end the run with one. */
  function FailCall(s: State, error: string): State
    requires s.worker.Busy?
  {
    var key := s.worker.key;
    match s.worker.phase
    case CheckingPool(snap) => Mislead(s, key, snap, UpstreamPoolUnknown(error))
    case CheckingProfile(snap) => Mislead(s, key, snap, CacheProfileUnknown(error))
    case ListingManaged(snap) => FailEnforcement(s, key, snap, error)
    case Removing(snap, _) => FailEnforcement(s, key, snap, error)
    case Applying(snap, _, _) => FailEnforcement(s, key, snap, error)
    case _ => Fail(s, key)
  }

  function Mislead(s: State, key: Key, snap: Policy, e: ReferenceError): State {
    At(s.(misled := s.misled[key := e]), key, Reporting(snap, Invalid(snap.generation, e)))
  }

  /** The status patch holds the fields that differ from those of the object in memory. */
  function PatchStatus(held: Status, wanted: Status, server: Status): Status {
    Status(if wanted.condition != held.condition then wanted.condition else server.condition,
           if wanted.generation != held.generation then wanted.generation else server.generation,
           if wanted.applied != held.applied then wanted.applied else server.applied)
  }

  function ReadPolicy(s: State, key: Key): State {
    if key !in s.policies then Finish(s)
    else
      var p := s.policies[key];
      if p.deleting then (if p.finalizer then At(s, key, ListingOwned(p)) else Finish(s))
      else At(s, key, if p.finalizer then CheckingPool(p) else Adopting(p))
  }

  /** The patch's response replaces the object in memory. */
  function AddFinalizer(s: State, key: Key): State {
    if key !in s.policies then Fail(s, key)
    else
      var p := s.policies[key].(finalizer := true);
      At(SetPolicy(s, key, p), key, CheckingPool(p))
  }

  function CheckPool(s: State, key: Key, snap: Policy): State {
    var e := PoolRefError(key.ns, snap.spec, s.pools, s.names);
    At(s, key, if e.None? then CheckingProfile(snap) else Reporting(snap, Invalid(snap.generation, e.value)))
  }

  function CheckProfile(s: State, key: Key, snap: Policy): State {
    var e := ProfileRefError(key.ns, snap.spec, s.profiles, s.names);
    At(s, key, if e.None? then ListingManaged(snap) else Reporting(snap, Invalid(snap.generation, e.value)))
  }

  function ListManaged(s: State, key: Key, snap: Policy): State {
    var pending := map n | n in s.namespaces && Owner(s.namespaces[n]) == snap.uid && n !in Selected(snap.spec)
                      :: s.namespaces[n];
    At(s, key, Removing(snap, pending))
  }

  function ListOwned(s: State, key: Key, snap: Policy): State {
    At(s, key, Clearing(snap, map n | n in s.namespaces && Owner(s.namespaces[n]) == snap.uid :: s.namespaces[n]))
  }

  /** The patch that releases a listed namespace; it fails if the namespace is gone. */
  function Release(s: State, name: string, copy: Annotations): State
    requires name in s.namespaces
  {
    SetNamespace(s, name, RemovePatch(s.namespaces[name], copy))
  }

  function RemoveNext(s: State, key: Key, snap: Policy, pending: Namespaces, choice: string): State {
    if pending == map[] then At(s, key, Applying(snap, Selected(snap.spec), 0))
    else if choice !in pending then s
    else if choice !in s.namespaces then FailEnforcement(s, key, snap, choice + " not found")
    else At(Release(s, choice, pending[choice]), key, Removing(snap, pending - {choice}))
  }

  function ApplyNext(s: State, key: Key, snap: Policy, todo: set<string>, applied: nat, choice: string): State {
    if todo == {} then At(s, key, Reporting(snap, Enforcement(snap.generation, applied)))
    else if choice !in todo then s
    else if choice !in s.namespaces then At(s, key, Applying(snap, todo - {choice}, applied))
    else if Conflicts(s.namespaces[choice], snap.uid) then
      At(s, key, Reporting(snap, Blocked(snap.generation, choice, s.namespaces[choice])))
    else At(SetNamespace(s, choice, Annotate(s.namespaces[choice], key, snap)), key,
            Applying(snap, todo - {choice}, applied + 1))
  }

  function ReportStatus(s: State, key: Key, snap: Policy, status: Status): State {
    if key !in s.policies then Fail(s, key)
    else
      var p := s.policies[key];
      Finish(SetPolicy(s, key, p.(status := PatchStatus(snap.status, status, p.status))))
  }

  function ClearNext(s: State, key: Key, snap: Policy, pending: Namespaces, choice: string): State {
    if pending == map[] then
      // removing the last finalizer of a deleted object removes the object
      if key !in s.policies then Fail(s, key)
      else if s.policies[key].deleting then Finish(DropPolicy(s, key))
      else Finish(SetPolicy(s, key, s.policies[key].(finalizer := false)))
    else if choice !in pending then s
    else if choice !in s.namespaces then Fail(s, key)
    else At(Release(s, choice, pending[choice]), key, Clearing(snap, pending - {choice}))
  }

  function Advance(s: State, choice: string): State
    requires s.worker.Busy?
  {
    var key := s.worker.key;
    match s.worker.phase
    case Started => ReadPolicy(s, key)
    case Adopting(_) => AddFinalizer(s, key)
    case CheckingPool(snap) => CheckPool(s, key, snap)
    case CheckingProfile(snap) => CheckProfile(s, key, snap)
    case ListingManaged(snap) => ListManaged(s, key, snap)
    case Removing(snap, pending) => RemoveNext(s, key, snap, pending, choice)
    case Applying(snap, todo, applied) => ApplyNext(s, key, snap, todo, applied, choice)
    case Reporting(snap, status) => ReportStatus(s, key, snap, status)
    case ListingOwned(snap) => ListOwned(s, key, snap)
    case Clearing(snap, pending) => ClearNext(s, key, snap, pending, choice)
  }

  function Apply(s: State, step: Step): State
    requires Enabled(s, step)
  {
    match step
    case Dequeue(key) => At(s.(queue := s.queue - {key}, misled := s.misled - {key}), key, Started)
    case Proceed(choice) => Advance(s, choice)
    case CallFails(error) => FailCall(s, error)
    case Restart => s.(worker := Idle, queue := s.policies.Keys)
    case _ => ApplyUser(s, step)
  }

  // ---------------------------------------------------------------- runs

  /** A cluster before the operator has done anything in it. */
  ghost predicate Initial(s: State) {
    && s.policies == map[] && s.queue == {} && s.misled == map[] && s.worker.Idle?
    && forall n :: n in s.namespaces ==> s.namespaces[n].Keys !! POLICY_KEYS
  }

  ghost predicate EnabledRun(s: State, steps: seq<Step>)
    decreases |steps|
  {
    steps == [] || (Enabled(s, steps[0]) && EnabledRun(Apply(s, steps[0]), steps[1..]))
  }

  ghost function Run(s: State, steps: seq<Step>): State
    requires EnabledRun(s, steps)
    decreases |steps|
  {
    if steps == [] then s else Run(Apply(s, steps[0]), steps[1..])
  }
}
