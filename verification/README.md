# AstraDNS operator: verified model

A Dafny model of the three parts of the AstraDNS operator in which several functions have to cooperate,
with proofs of what they guarantee together.

1. **Namespace ownership.** `ExternalDNSPolicy` objects compete for namespaces. A policy owns a namespace
   through four annotations, is protected by a finalizer, and is reconciled from a deduplicating work queue
   that watches fill. `PolicyProtocol` is a transition system: users create, edit, annotate and delete
   objects between any two API calls of the reconciler, any API call may fail, and the operator may restart. `PolicyInvariants` gives
   its inductive invariant, `PolicyTheorems` what follows for every run: no lost wakeup, no orphaned
   ownership, ownership that is handed over and never taken. `PolicyLiveness` shows how the worker, left
   alone, comes to rest, `PolicyLivelock` exactly when it need not, and `PolicyWitnesses` has runs to the
   exceptions. `PolicyEnforcement` and
   `PolicyController` hold the sequential algorithms and the reconciler as a class.
2. **Pools.** `DNSUpstreamPool` objects of a namespace compete to be the active one, whose configuration is
   published in a ConfigMap. `PoolSelection` and `PoolLifecycle` treat the comparator, the sort and the
   stamps that fix the order; `CircuitBreaker` and `CircuitInterleaving` the breaker in front of the writes;
   `ActivePoolMetric` the gauge and its shadow map; `PoolReconcile`, `PoolReports`, `PoolConvergence` and
   `PoolController` whole reconciles, with every API call failing or not.
3. **Configurations.** `PoolValidation`, `CacheProfiles`, `ConfigGenerator`, `Normalisation`, `Unbound`,
   `CoreDNS`, `PowerDNS` and `Acceptance` follow a spec through validation, generation, the renderer's own second
   normalisation and the engine's compatibility check.

`Text`, `StableSorting`, `Engine`, `Objects` and `Pools` hold what these share.

Code that changes state is a method, of a class where the source has an object, and is proved equal to a
specification function; the theorems are about those functions. `dafny verify dfyconfig.toml` checks
everything.

## Where the code falls short of a plain reading

- Sorting: the comparator is not an order on all pools. Two stamped pools and an unstamped one of the same
  second form a cycle exactly when the unstamped name lies between the two stamped names and those run
  against their revisions (`PoolSelection.OrderIffNoneStraddled`); a creation can bring that about
  (`PoolLifecycle.StraddledNewcomer`).
- Incumbency: the incumbent of a fully stamped state loses its place, without being deleted, exactly to an
  unstamped pool of the same second with an earlier name (`PoolLifecycle.IncumbentStaysIff`); this happens
  (`PoolLifecycle.UnstampedNewcomerCanWin`).
- Normalisation: an encrypted upstream without server name whose address ends in white space and a dot is
  normalised differently by generator and renderer; these are all the cases
  (`Normalisation.GeneratedFixpointIff`), and they occur (`Normalisation.SpacedDotWitness`).
- Deletion path: it reports success without publishing exactly when the configuration is too large or the
  circuit is open, and does not ask to be run again (`PoolReconcile.DeletionSkipsPublishing`); the deleted
  pool's configuration is then still published (`PoolReconcile.DeletionCanLeaveStale`).
- Releases: a release patch that finds no other annotation in its copy sets the whole map to null. It wipes
  what users added since the listing, in exactly this case (`PolicyTheorems.OthersKeptIff`), which a run
  reaches (`PolicyWitnesses.ReleaseCanWipe`).
- Lookups: a failing lookup of a pool or profile is reported as a broken reference and not retried. A valid,
  unopposed policy at rest is not enforced with a status that says so exactly if its latest run met such a
  failure (`PolicyTheorems.RestingEnforcedIff`, `PolicyTheorems.MisledIff`); two failures in a row, with the
  same error text, get it there (`PolicyWitnesses.FailedLookupStrands`).
- Livelock: a run stops at the first conflict that it comes across, in the random order of a Go map, and names
  the namespace in the status, whose change queues the policy again. A policy with two conflicts can so keep
  itself busy for as long as one likes (`PolicyWitnesses.LivelockOccurs`). The worker's runs are unbounded in
  exactly this case (`PolicyLivelock.UnboundedIff`), and bounded where no policy selects two namespaces that
  others want too (`PolicyLivelock.UncontendedRunsAreBounded`).

## Model

| member | source | states |
|---|---|---|
| PolicyTheorems.RestingPoliciesAreSettled | controllers/externaldnspolicy_controller.go:54-227 | No lost wakeup: in every reachable state, with users, failing calls and restarts interleaved, a policy that is neither queued nor worked on is not marked for deletion, and its status tells the truth about its current generation: the lookup that failed in its latest run, else the reference that is broken, else a namespace that is taken and by whom, else that it owns exactly the existing selected namespaces, with its current values and their number. If its references are valid it owns nothing that it does not select, conflict or not |
| PolicyTheorems.RestingStatusTells | controllers/externaldnspolicy_controller.go:91-138 | The fields of a resting policy's status: Validated holds exactly if its references are valid, no lookup of them failed and no selected existing namespace has another owner; the reason is ValidationFailed, EnforcementFailed or Enforced accordingly; namespaces are counted only if it holds; condition and status are about its generation |
| Policies.StatusesMean | controllers/externaldnspolicy_controller.go:510-533 | The fields of the four kinds of status |
| PolicyTheorems.RestingEnforcedIff | controllers/externaldnspolicy_controller.go:91-138 | A resting policy is enforced and says so exactly when its references are valid, its latest run met no failed lookup, and it is not in conflict |
| PolicyTheorems.MisledIff | controllers/externaldnspolicy_controller.go:91-105 | In terms of the run alone: a policy counts as misled exactly when a lookup on its behalf failed and its key has not been taken from the queue since |
| PolicyLivelock.UnboundedIff | controllers/externaldnspolicy_controller.go:110-124 | Livelock: the runs of the worker left alone, without users and failing calls, have no bound exactly if one of them comes, between two reconciles, to a queued live policy with finalizer and valid references that has at least two conflicts |
| PolicyWitnesses.LivelockOccurs | controllers/externaldnspolicy_controller.go:345-434 | A reachable state with two policies from which the worker can go on for as long as one likes: each run may name another conflict in the status, and so queue the policy again |
| PolicyLivelock.UncontendedRunsAreBounded | controllers/externaldnspolicy_controller.go:54-227 | Where no live policy selects two existing namespaces that others own or select, or that the run in progress is after, the worker left alone comes to rest within a bound, whatever the order of its queue and its loops |
| PolicyLiveness.MovingRunsAreBounded | controllers/externaldnspolicy_controller.go:54-227 | The bound, from the number of keys and the sizes of cluster and selectors, for every run that never gets to such a policy, although every write queues policies again |
| PolicyLiveness.EverythingSettles | controllers/externaldnspolicy_controller.go:54-227 | Wherever such a run ends, the queue is empty and every policy is settled; none is left that was marked for deletion |
| PolicyLiveness.CanMove | controllers/externaldnspolicy_controller.go:54-227 | The worker is never stuck while anything is queued or being worked on |
| PolicyLiveness.MoveDescends | controllers/externaldnspolicy_controller.go:54-227 | Every step of the worker, except a report that replaces one true status by another, lowers a rank made of the writes that are owed, the statuses that are not true, the queue and the rest of the current run |
| PolicyLiveness.SomeRunSettles | controllers/externaldnspolicy_controller.go:54-227 | From every state that satisfies the invariant some run comes to rest, conflicts notwithstanding |
| PolicyTheorems.NoneMisled | controllers/externaldnspolicy_controller.go:91-105 | In runs whose pool and profile lookups succeed, no policy falls under that exception |
| PolicyWitnesses.FailedLookupStrands | controllers/externaldnspolicy_controller.go:91-105 | For every error text, a concrete run in which a lookup fails twice with this text leaves a valid, unopposed policy at rest that owns nothing |
| PolicyWitnesses.LookupFailsOnce | controllers/externaldnspolicy_controller.go:91-105 | A failed lookup queues the policy again unless its status names the same error already |
| PolicyTheorems.OwnersExist | controllers/externaldnspolicy_controller.go:65-89 | No orphans: in every reachable state every owner is the UID of exactly one policy in the store, which still has the finalizer, and the four annotations are coherent |
| PolicyTheorems.OwnerStep | controllers/externaldnspolicy_controller.go:407-508 | No step moves a namespace from one owner to another: an owner changes only by its own policy's release or by a claim on an unowned namespace |
| PolicyTheorems.OwnerPersists | controllers/externaldnspolicy_controller.go:407-434 | Over whole runs an owner stays until its own run releases the namespace or a user deletes it |
| PolicyTheorems.OthersKeptIff | controllers/externaldnspolicy_controller.go:473-508 | A worker step changes a namespace's other annotations exactly when it releases it from a copy that had none although there are some now |
| PolicyWitnesses.ReleaseCanWipe | controllers/externaldnspolicy_controller.go:499-501 | A concrete run, from creation over enforcement to deletion, whose last step wipes an annotation that a user added after the listing |
| PolicyTheorems.UninterruptedEnforcement | controllers/externaldnspolicy_controller.go:320-362 | From any point of an enforcement on, the interleaved worker left alone arrives at the sequential result, whatever order its loops take |
| PolicyTheorems.UninterruptedRun | controllers/externaldnspolicy_controller.go:320-362 | The same from the listing on: the protocol refines the sequential enforcement |
| PolicyTheorems.EnforcedIsExact | controllers/externaldnspolicy_controller.go:320-362 | A successful enforcement leaves the policy owning exactly its existing selected namespaces, with its current values |
| PolicyTheorems.ClearedOwnsNothing | controllers/externaldnspolicy_controller.go:364-381 | Clearing leaves nothing owned, takes nothing from other owners and keeps the users' annotations |
| PolicyInvariants.StepKeepsInv | controllers/externaldnspolicy_controller.go:54-533 | Every step of users and worker, failing calls included, keeps the protocol's invariant |
| PolicyInvariants.ReachableInv | controllers/externaldnspolicy_controller.go:54-533 | The invariant holds after every run |
| PolicyInvariants.NamespaceStepsKeep | controllers/externaldnspolicy_controller.go:201-227 | Users' changes of namespaces keep the invariant, because the selecting policies are queued |
| PolicyInvariants.ReferenceStepsKeep | controllers/externaldnspolicy_controller.go:153-199 | So do pools and profiles that come and go, because their referrers are queued |
| PolicyInvariants.PolicyStepsKeep | controllers/externaldnspolicy_controller.go:65-89 | So do creation, edits and deletion of policies, because deletion waits for the finalizer |
| PolicyInvariants.ApplyNextKeeps | controllers/externaldnspolicy_controller.go:344-361 | One round of the apply loop, on a namespace that is absent, taken or free, keeps the invariant |
| PolicyInvariants.RemoveNextKeeps | controllers/externaldnspolicy_controller.go:334-342 | One round of the release loop, from a copy that may be stale, keeps the invariant |
| PolicyInvariants.ClearNextKeeps | controllers/externaldnspolicy_controller.go:364-381 | One round of clearing, and the removal of the finalizer after the last, keep the invariant |
| PolicyInvariants.FailCallKeeps | controllers/externaldnspolicy_controller.go:91-128 | A failing API call anywhere in a run keeps the invariant |
| PolicyEnforcement.EnforceIgnoresOrder | controllers/externaldnspolicy_controller.go:320-362 | For every iteration order, enforcement fails exactly when a selected existing namespace has another owner; on success all orders give the same namespaces and the same count |
| PolicyEnforcement.EnforceOwnership | controllers/externaldnspolicy_controller.go:320-362 | For every order and outcome the policy owns selected existing namespaces only, all of them on success; ownership passes only between it and nobody; other annotations stay |
| PolicyEnforcement.EnforcementsCommuteIff | controllers/externaldnspolicy_controller.go:320-405 | Two policies can be enforced in both orders exactly when no existing namespace is selected by both and neither is in conflict; then both orders give the same cluster |
| PolicyEnforcement.SecondConflicts | controllers/externaldnspolicy_controller.go:407-434 | After one policy's enforcement another is in conflict exactly when they share an existing namespace or it was in conflict with a third |
| PolicyController.ExternalDNSPolicyReconciler.Reconcile | controllers/externaldnspolicy_controller.go:54-141 | One run without user steps, with any of its calls failing: what becomes of the policy, its status, the namespaces and the retry in each case; a deleted policy goes exactly when it has been cleared; of the runs that do not enforce, only those that end on a conflict, which the status names, or on a reference that is broken or was not looked up are not tried again |
| PolicyController.ExternalDNSPolicyReconciler.ReconcileAdopted | controllers/externaldnspolicy_controller.go:91-138 | The same for the part that validates and enforces a live policy |
| PolicyController.LiveRunTells | controllers/externaldnspolicy_controller.go:91-138 | The fields of the status that such a run writes: Validated exactly without broken reference, conflict and failing call; the reason, the count and the generations with it |
| PolicyController.ExternalDNSPolicyReconciler.EnforcePolicy | controllers/externaldnspolicy_controller.go:320-362 | Succeeds exactly if there is no conflict and no call fails, and then reaches the enforced state and counts the targets; whatever happens, every namespace is as before or as enforced |
| PolicyController.ExternalDNSPolicyReconciler.ReleaseUnselected | controllers/externaldnspolicy_controller.go:329-342 | Succeeds exactly if no call that it has to make fails, and then has released exactly the namespaces owned outside the selection; otherwise some of them |
| PolicyController.ExternalDNSPolicyReconciler.ApplySelected | controllers/externaldnspolicy_controller.go:344-361 | Visits the selected set in an arbitrary order; succeeds exactly without conflict and failing call, and then has annotated and counted exactly the existing selected namespaces; tells a conflict from a failing call |
| PolicyController.ExternalDNSPolicyReconciler.ClearPolicyEnforcement | controllers/externaldnspolicy_controller.go:364-381 | Succeeds exactly if no call that it has to make fails, and then has released exactly the policy's namespaces; otherwise some of them |
| PolicyController.ExternalDNSPolicyReconciler.ReconcileDeleted | controllers/externaldnspolicy_controller.go:65-82 | The policy goes exactly when it has been cleared and the patch of its finalizer succeeds |
| PolicyController.ExternalDNSPolicyReconciler.ListManagedPolicyNamespaces | controllers/externaldnspolicy_controller.go:383-405 | Returns exactly the namespaces that name the policy, unless the listing fails |
| PolicyController.ExternalDNSPolicyReconciler.UpdateNamespacePolicyAnnotations | controllers/externaldnspolicy_controller.go:407-471 | Refuses exactly another non-empty owner, and names it; otherwise sets the policy's annotations, with a patch, that can fail, only if there is something to change |
| PolicyController.ExternalDNSPolicyReconciler.RemoveNamespacePolicyAnnotations | controllers/externaldnspolicy_controller.go:473-508 | Sends the merge patch that a possibly stale copy gives, if there is anything to take out; changes nothing if that fails, as it does for a namespace that is gone |
| PolicyController.ExternalDNSPolicyReconciler.MapNamespaceToPolicies | controllers/externaldnspolicy_controller.go:201-227 | Requests exactly the policies that select the namespace |
| PolicyController.ExternalDNSPolicyReconciler.MapUpstreamPoolToPolicies | controllers/externaldnspolicy_controller.go:153-175 | Requests exactly the policies of the namespace that refer to the pool |
| PolicyController.ExternalDNSPolicyReconciler.MapCacheProfileToPolicies | controllers/externaldnspolicy_controller.go:177-199 | Requests exactly the policies of the namespace that refer to the profile |
| Policies.ValidateReferences | controllers/externaldnspolicy_controller.go:229-294 | Accepts exactly valid selectors with existing references that can be looked up, and otherwise reports the first error, a failed lookup in the place of the missing object |
| Policies.RefErrorMeans | controllers/externaldnspolicy_controller.go:229-294 | When references are valid, and exactly when each error is the one reported |
| Policies.ValidateSelector | controllers/externaldnspolicy_controller.go:237-256 | Accepts exactly non-empty selectors of valid distinct names, else reports the first one at fault |
| Policies.SelectorErrorMeans | controllers/externaldnspolicy_controller.go:237-256 | On the raw names: no error is reported exactly for non-empty lists of distinct, trimmed, non-empty DNS-1123 labels |
| Policies.SelectorErrorAt | controllers/externaldnspolicy_controller.go:237-256 | Otherwise the first entry at fault is reported, as invalid before as repeated |
| Policies.RefName | controllers/externaldnspolicy_controller.go:296-318 | Accepts, as it stands, exactly text that is its own trimmed form and a DNS-1123 subdomain, and an absent reference where none is required |
| Policies.AnnotateMeans | controllers/externaldnspolicy_controller.go:436-471 | Afterwards the namespace carries what the spec demands; one that already did is not changed; coherence is kept |
| Policies.AnnotationsWritten | controllers/externaldnspolicy_controller.go:436-471 | The four annotations of a fresh namespace, by their full names and values |
| Policies.ConflictsMean | controllers/externaldnspolicy_controller.go:419-434 | A namespace is taken exactly if its owner annotation is there with another, non-empty UID; whom the conflict names |
| Policies.QualifiedNameMeans | controllers/externaldnspolicy_controller.go:437 | Namespace and name can be read off a policy's qualified name |
| Policies.SelectedMeans | controllers/externaldnspolicy_controller.go:324-327 | Which namespaces a selector stands for |
| Policies.RemoveFresh | controllers/externaldnspolicy_controller.go:473-508 | A release from a fresh copy removes exactly the four annotations |
| Policies.RemoveKeepsOthersIff | controllers/externaldnspolicy_controller.go:489-508 | A release from a stale copy removes the owner, and keeps the other annotations exactly when the copy had some or there are none |
| PoolSelection.OrderIffNoneStraddled | controllers/dnsupstreampool_controller.go:513-547 | For distinct names and non-zero creation times the comparator is a strict total order exactly when no unstamped pool is straddled |
| PoolSelection.SelectsBeforeMeans | controllers/dnsupstreampool_controller.go:513-535 | The older pool comes first, in the same second the lower positive stamp, otherwise the name |
| PoolSelection.CycleIsStraddled | controllers/dnsupstreampool_controller.go:513-535 | Every cycle of the comparator is of that one kind |
| PoolLifecycle.StraddledNewcomer | controllers/dnsupstreampool_controller.go:513-547 | Such a triple occurs: a concrete creation after which the comparator is cyclic and no pool is the incumbent |
| PoolSelection.UniformlyStampedOrder | controllers/dnsupstreampool_controller.go:513-535 | It is an order when within each second all pools are stamped or none is |
| PoolSelection.SelectionIgnoresListOrder | controllers/dnsupstreampool_controller.go:434-454 | Whatever order pools are listed in, the same one is selected |
| PoolSelection.SortedFirst | controllers/dnsupstreampool_controller.go:447-453 | What comes out first precedes all others |
| PoolSelection.SortPoolsForSelection | controllers/dnsupstreampool_controller.go:513-535 | Sorts in place: a permutation, and sorted whenever the comparator is an order |
| PoolLifecycle.InvPreserved | controllers/dnsupstreampool_controller.go:538-573 | Creation, stamping, updates and deletion keep every stamp a readable revision not newer than the cluster's |
| PoolLifecycle.StampIsForever | controllers/dnsupstreampool_controller.go:549-573 | A stamped pool keeps its stamp and its creation time until it is deleted |
| PoolLifecycle.SelectionPicksIncumbent | controllers/dnsupstreampool_controller.go:434-454 | Among stamped pools there is an incumbent and every listing selects it |
| PoolLifecycle.IncumbentStaysIff | controllers/dnsupstreampool_controller.go:513-573 | A run from a fully stamped state that does not delete the incumbent keeps it exactly if it leaves no unstamped pool of the incumbent's second with an earlier name |
| PoolLifecycle.SelectionStaysIff | controllers/dnsupstreampool_controller.go:434-454 | Wherever the comparator orders the listing, selection names the incumbent exactly under that condition |
| PoolLifecycle.IncumbentStays | controllers/dnsupstreampool_controller.go:513-573 | Between two fully stamped states the incumbent changes only if it was deleted |
| PoolLifecycle.ActivePoolStable | controllers/dnsupstreampool_controller.go:434-454 | Two selections in fully stamped states of one run name the same pool unless the first was deleted in between |
| PoolLifecycle.UnstampedNewcomerCanWin | controllers/dnsupstreampool_controller.go:513-547 | A concrete unstamped newcomer that comes before the incumbent until it is stamped |
| CircuitBreaker.AfterKeepsInv | controllers/dnsupstreampool_controller.go:599-671 | After any calls all counts are below 3 and an open namespace counts nothing |
| CircuitBreaker.CountIsFailuresModulo | controllers/dnsupstreampool_controller.go:622-643 | Without a success the stored count is the number of failed writes modulo 3 |
| CircuitBreaker.ThirdFailureOpens | controllers/dnsupstreampool_controller.go:622-671 | Every third failed write opens the circuit: calls are refused exactly up to 30 000 000 000 ns after its end |
| CircuitBreaker.OtherFailuresDoNot | controllers/dnsupstreampool_controller.go:622-643 | The other failures leave it closed |
| CircuitBreaker.SuccessCloses | controllers/dnsupstreampool_controller.go:645-652 | A success closes it and forgets the failures |
| CircuitBreaker.RefusedIff | controllers/dnsupstreampool_controller.go:654-671 | A call is refused exactly while an entry's time has not passed |
| CircuitBreaker.CountSinceSuccess | controllers/dnsupstreampool_controller.go:645-652 | After a success it is the number of failed writes since, modulo 3 |
| CircuitBreaker.FailuresTakeTime | controllers/dnsupstreampool_controller.go:599-671 | N failed writes without a success between them span at least 30 000 000 000 ns times (N - 1) / 3 rounded down, strictly more from N = 4 on |
| CircuitInterleaving.RunKeepsInv | controllers/dnsupstreampool_controller.go:599-671 | The same invariant when check, write and record of many callers interleave |
| CircuitInterleaving.WindowHolds | controllers/dnsupstreampool_controller.go:622-643 | While an entry is open, and unless an attempt admitted earlier succeeds, late failures neither count nor extend it and no new attempt starts |
| CircuitInterleaving.OpeningKeepsOut | controllers/dnsupstreampool_controller.go:636-642 | A failure after two others keeps new attempts out for 30 000 000 000 ns |
| ActivePoolMetric.GaugeShowsLastSelection | controllers/dnsupstreampool_controller.go:456-511 | After any calls the gauge has exactly one series of value 1 per namespace last recorded and not cleared since, with its last pool and reason |
| PoolReconcile.EveryWriteRefines | controllers/dnsupstreampool_controller.go:108-419 | Whatever path a run takes and whichever calls fail, it leaves all ConfigMaps alone, or writes the encoded, accepted and size-checked configuration of the first pool, or removes config.json when no pool is left; when the comparator orders the listing, that pool is its minimum |
| PoolReconcile.OtherEntriesUntouched | controllers/dnsupstreampool_controller.go:575-707 | No run touches any other entry of any ConfigMap |
| PoolReconcile.LastPoolGone | controllers/dnsupstreampool_controller.go:328-352 | Reconciling the deletion of the last pool, whenever it reports success, leaves no config.json; it succeeds if no call fails |
| PoolReconcile.DeletionSkipsPublishing | controllers/dnsupstreampool_controller.go:357-419 | The deletion path succeeds exactly when it can encode, and publishes then exactly when the text fits and the circuit is closed; it never asks to be run again |
| PoolReconcile.DeletionCanLeaveStale | controllers/dnsupstreampool_controller.go:375-419 | For every open circuit and every oversized text, on a concrete cluster: the run is done and the deleted pool's configuration is still published |
| PoolReconcile.SkippingOccurs | controllers/dnsupstreampool_controller.go:375-419 | Such circuits and such texts exist |
| PoolReports.ReconcileReports | controllers/dnsupstreampool_controller.go:108-300 | For an existing pool, with any calls failing: the outcome, the condition and its reason, the ConfigMaps and the breaker in each case, from InvalidSpec to Ready; behind an open circuit the run comes back after 30 s |
| PoolReports.InvalidPoolStops | controllers/dnsupstreampool_controller.go:132-145 | A pool that is not acceptable is not published, selected or counted, whatever fails; without failures the run says InvalidSpec and is done |
| PoolReports.ReadyIff | controllers/dnsupstreampool_controller.go:108-300 | A run newly sets Ready=True exactly if the pool is acceptable and first of its listing, its configuration renders, encodes and fits, the circuit is closed and no call fails; then that configuration is published |
| PoolReports.DeletionReports | controllers/dnsupstreampool_controller.go:328-419 | The same table for the reconcile of a deletion |
| PoolReports.GaugeAfter | controllers/dnsupstreampool_controller.go:456-511 | The gauge shows the first pool of the listing, as the single or the oldest one, and none for a namespace without pools |
| PoolReports.SizesMean | controllers/dnsupstreampool_controller.go:50-56 | The size limit of 1 MiB less 4 KiB with the key, the threshold and the interval, in numbers |
| PoolReports.StampMeans | controllers/dnsupstreampool_controller.go:538-573 | The stamp is the pool's revision, under its annotation; what reading it gives |
| PoolReports.OperatorNamespaceMeans | controllers/dnsupstreampool_controller.go:883-888 | Where ConfigMaps are written |
| PoolReports.SelectionReasonMeans | controllers/dnsupstreampool_controller.go:447-451 | The reason for one pool and for several |
| PoolConvergence.VisitEffect | controllers/dnsupstreampool_controller.go:108-300 | What one fault-free reconcile of a stable namespace does, to the last field |
| PoolConvergence.VisitElsewhere | controllers/dnsupstreampool_controller.go:883-888 | Runs for other namespaces, failing or not, change nothing of this one |
| PoolConvergence.Converges | controllers/dnsupstreampool_controller.go:108-300 | Any run that visits every pool once, in any order and among visits elsewhere, ends with the minimum pool published and Ready and all others Superseded |
| PoolConvergence.StaysConverged | controllers/dnsupstreampool_controller.go:108-300 | In that state a further reconcile changes nothing |
| PoolConvergence.OneRoundStamps | controllers/dnsupstreampool_controller.go:124-135 | From any namespace of valid pools, one fault-free round over its pools stamps them all and so makes the namespace stable |
| PoolConvergence.ConvergesInTwoRounds | controllers/dnsupstreampool_controller.go:108-300 | So two rounds converge, from stamped and unstamped pools alike, to the pool that comes first once all are stamped |
| PoolController.DNSUpstreamPoolReconciler.Reconcile | controllers/dnsupstreampool_controller.go:108-300 | Equals PoolReconcile.Reconcile for some outcome of its sort, failures included |
| PoolController.DNSUpstreamPoolReconciler.ReconcilePool | controllers/dnsupstreampool_controller.go:124-300 | Equals the specification for a pool that exists |
| PoolController.DNSUpstreamPoolReconciler.ReconcileAfterPoolDeletion | controllers/dnsupstreampool_controller.go:328-419 | Equals the specification of the deletion path |
| PoolController.DNSUpstreamPoolReconciler.PublishConfig | controllers/dnsupstreampool_controller.go:181-300 | Equals the specification from the profile lookup on |
| PoolController.DNSUpstreamPoolReconciler.SelectActivePool | controllers/dnsupstreampool_controller.go:434-454 | Sorts the listing and records its first pool with the reason its length gives |
| PoolController.DNSUpstreamPoolReconciler.UpsertConfigMapWithCircuitBreaker | controllers/dnsupstreampool_controller.go:599-620 | Writes only through a closed circuit, and counts or resets by the outcome |
| PoolController.DNSUpstreamPoolReconciler.IsConfigMapCircuitOpen | controllers/dnsupstreampool_controller.go:654-671 | Tells whether the circuit is open and drops an entry whose time has passed |
| PoolController.DNSUpstreamPoolReconciler.RecordConfigMapUpdateFailure | controllers/dnsupstreampool_controller.go:622-643 | Counts a failure, or opens the circuit at the third |
| PoolController.DNSUpstreamPoolReconciler.UpsertConfigMap | controllers/dnsupstreampool_controller.go:575-597 | Sets config.json and no other key |
| PoolController.DNSUpstreamPoolReconciler.RemoveConfigKey | controllers/dnsupstreampool_controller.go:682-707 | Removes config.json and no other key; an absent ConfigMap is fine |
| PoolController.DNSUpstreamPoolReconciler.RecordActivePoolSelectionMetric | controllers/dnsupstreampool_controller.go:456-490 | Moves the namespace's series to the new selection |
| PoolController.DNSUpstreamPoolReconciler.ClearActivePoolSelectionMetric | controllers/dnsupstreampool_controller.go:492-511 | Drops the namespace's series |
| PoolController.DNSUpstreamPoolReconciler.EnsureInitialRVAnnotation | controllers/dnsupstreampool_controller.go:552-573 | Stamps once, with the revision at hand |
| PoolValidation.ValidateDNSUpstreamPool | controllers/dnsupstreampool_controller.go:747-814 | Accepts exactly the acceptable specs, a statement on the raw fields, and reports the first thing wrong with the others |
| PoolValidation.ValidSpecMeans | controllers/dnsupstreampool_controller.go:747-881 | Acceptable are non-empty lists of upstreams with trimmed, valid addresses, known transports, ports from 0 to 65535, server names only and valid on encrypted ones, weights up to 100, preferences up to 1000 and distinct endpoints, up to 256 threads, and a known DNSSEC mode |
| PoolValidation.ErrorAtMeans | controllers/dnsupstreampool_controller.go:756-803 | For each error exactly when it is the one reported for an upstream, by its raw fields |
| PoolValidation.LooksLikeMeans | controllers/dnsupstreampool_controller.go:871-881 | What is refused as an address are digits with exactly three dots |
| PoolValidation.ValidateUpstreams | controllers/dnsupstreampool_controller.go:756-803 | Accepts exactly the acceptable lists, else reports the first upstream at fault |
| PoolValidation.UpstreamKeyInjective | controllers/dnsupstreampool_controller.go:798 | The text key tells (transport, address, port) apart, colons in addresses notwithstanding |
| PoolValidation.ValidationSound | controllers/dnsupstreampool_controller.go:747-839 | An accepted pool generates, all values are in range, and no two upstreams share transport, address and port |
| ConfigGenerator.Generate | pkg/engineconfig/defaultgen.go:42-145 | Equals the specification function, for which see the next rows |
| ConfigGenerator.GeneratedMeans | pkg/engineconfig/defaultgen.go:52-120 | On the raw spec: allow and deny are the spec's lists, with the action "nxdomain" or "refused" if there is one; DNSSEC mode, threads, cache, address and port |
| ConfigGenerator.ConfigOfMeans | pkg/engineconfig/defaultgen.go:83-112 | The fields of each upstream by the raw ones |
| ConfigGenerator.GeneratedCacheMeans | pkg/engineconfig/defaultgen.go:122-142 | Each of the profile's positive numbers over its default, and its prefetch switch |
| ConfigGenerator.GenerateErrorMeans | pkg/engineconfig/defaultgen.go:46-98 | Failure names the missing upstreams or the first blank address in sorted order |
| ConfigGenerator.ConvertUpstreams | pkg/engineconfig/defaultgen.go:83-112 | Converts the sorted list, or names the first blank address |
| ConfigGenerator.ConvertUpstream | pkg/engineconfig/defaultgen.go:90-111 | Normalises one upstream |
| ConfigGenerator.GeneratesIff | pkg/engineconfig/defaultgen.go:46-52 | Generation fails exactly on an empty list or a blank address |
| CacheProfiles.ValidateDNSCacheProfile | controllers/dnscacheprofile_controller.go:110-145 | The validation, with defaults of its own, accepts exactly profiles without negative numbers for which the generator's TTL range is not empty, and reports that range otherwise |
| CacheProfiles.GeneratedCacheFixed | pkg/engineconfig/defaultgen.go:118-142 | Whatever the profile, all numbers of the generated cache are positive, and asking for that cache gives it back |
| CacheProfiles.GeneratedRangeEmptyIff | pkg/engineconfig/defaultgen.go:129-134 | The generator, which does not consult the validation, makes an empty TTL range exactly when the bounds, each with its default, cross |
| ConfigGenerator.GeneratedOrder | pkg/engineconfig/defaultgen.go:69-112 | The result is the one stable sort of the normalised input, by preference ascending and weight descending as they stand in the result |
| StableSorting.StableSortIsStable | pkg/engineconfig/defaultgen.go:69-81 | The sort is a sorted permutation that keeps ties in order |
| StableSorting.StableSortUnique | pkg/engineconfig/defaultgen.go:69-81 | Those conditions determine the result |
| StableSorting.MapStableSort | pkg/engineconfig/defaultgen.go:69-112 | Normalising before or after sorting gives the same list |
| Normalisation.GeneratedFixpointIff | pkg/engineconfig/defaultgen.go:83-112 | A renderer's normalisation leaves a generated configuration unchanged exactly when no upstream is a spaced dot |
| Normalisation.NormalizedMeans | pkg/engineconfig/unbound/renderer.go:65-181 | The fields of a normalised configuration by the raw ones |
| Engine.TransportMeans | pkg/engineconfig/defaultgen.go:158-168 | Which raw texts stand for which transport |
| Engine.DNSSECModeMeans | pkg/engineconfig/defaultgen.go:170-180 | Which stand for which DNSSEC mode |
| Engine.DomainFilterActionMeans | pkg/engineconfig/defaultgen.go:215-223 | And for which filter action |
| Engine.NumbersMean | pkg/engineconfig/defaultgen.go:147-213 | Ports, weights, preferences and threads that are given are kept, and their defaults |
| Engine.DefaultTLSServerNameMeans | pkg/engineconfig/defaultgen.go:225-235 | The default server name is the trimmed address without one final dot, and none for an IP |
| Normalisation.GeneratedFixpoint | pkg/engineconfig/unbound/renderer.go:65-93 | It does for all addresses without white space |
| Normalisation.NormalizedIdempotentIff | pkg/engineconfig/coredns/renderer.go:65-93 | It is idempotent exactly on configurations without a spaced dot, and always where no server name is filled in |
| Normalisation.DefaultNameTrimmed | pkg/engineconfig/defaultgen.go:225-235 | The default server name ends in white space exactly in the spaced-dot case |
| Normalisation.SpacedDotWitness | pkg/engineconfig/defaultgen.go:225-235 | The address "foo ." is such a case |
| Unbound.NormalizeConfig | pkg/engineconfig/unbound/renderer.go:65-93 | Equals the common normalisation, server names filled in |
| CoreDNS.NormalizeConfig | pkg/engineconfig/coredns/renderer.go:65-93 | Equals the common normalisation, server names filled in |
| PowerDNS.NormalizeConfig | pkg/engineconfig/powerdns/renderer.go:66-91 | Equals the common normalisation, server names left alone |
| Unbound.ValidateUnboundCompatibility | pkg/engineconfig/unbound/renderer.go:95-115 | Rejects exactly DoH, at its first occurrence, and mixtures of plain DNS and DoT |
| CoreDNS.ValidateCoreDNSCompatibility | pkg/engineconfig/coredns/renderer.go:95-122 | Rejects exactly DNSSEC, unknown transports and several server names, each in its case |
| PowerDNS.ValidatePowerDNSCompatibility | pkg/engineconfig/powerdns/renderer.go:93-101 | Rejects exactly the first upstream that is not plain DNS |
| Acceptance.UnboundAcceptance | pkg/engineconfig/unbound/renderer.go:95-115 | Unbound accepts exactly raw specs without DoH that do not mix plain DNS and DoT |
| Acceptance.CoreDNSAcceptance | pkg/engineconfig/coredns/renderer.go:95-122 | CoreDNS accepts exactly raw specs with DNSSEC off and at most one non-empty resolved server name among encrypted upstreams |
| Acceptance.PowerDNSAcceptance | pkg/engineconfig/powerdns/renderer.go:93-101 | PowerDNS accepts exactly raw specs of plain DNS |
| Acceptance.AcceptanceIgnoresOrder | pkg/engineconfig/defaultgen.go:69-112 | Reordering the upstreams changes neither generation nor any engine's verdict |
| Text.ParseDecimal | controllers/dnsupstreampool_controller.go:538-547 | A 64-bit revision survives printing and parsing |
| Text.DecimalInjective | controllers/dnsupstreampool_controller.go:798 | Different ports print differently |
| Text.StringLessTrichotomy | controllers/dnsupstreampool_controller.go:533 | The order of names is total |
| Text.StringLessTransitive | controllers/dnsupstreampool_controller.go:533 | And transitive |
| Text.TrimSpaceFacts | pkg/engineconfig/defaultgen.go:92 | Trimming yields a trimmed part of the text, and a trimmed text unchanged |
| Text.TrimSpaceMeans | pkg/engineconfig/defaultgen.go:92 | Trimming leaves the part between the white space at the edges |
| Text.SpellsMeans | pkg/engineconfig/defaultgen.go:159 | Trimmed and in lower case a text is a word exactly if it is the word in any case with white space around it |
| Text.StringLessMeans | controllers/dnsupstreampool_controller.go:533 | The first difference of two names decides, otherwise the shorter one comes first |
| Text.ParseInt64Means | controllers/dnsupstreampool_controller.go:538-547 | Which texts are read as 64-bit numbers, and as which |

## Left out

- Kubernetes client plumbing, logging, events, Prometheus export, manager setup, `cmd/`, Helm charts and CRD files.
- The webhooks and the DNSCacheProfile controller apart from its validation, which would add only easy members; webhook uniqueness also needs admission and commit to be one step.
- Templates, template validation, `engine.NewTemplateData` and JSON encoding are not part of this model: a renderer's verdict and the encoding are arbitrary functions of the configuration.
- `netip.ParseAddr` and the DNS-1123 checks are arbitrary predicates, the number of CPUs is a constant.
- Transition times of conditions; the messages and observed generations of pools' conditions. A policy's message is modelled by what its text depends on.
- Nil objects and the nil checks for them; a nil annotation map counts as an empty one, except in the merge patch (section 2 of RFC 7396), where null removes the map.
- Integer widths: the 32-bit fields are only compared and copied, never added to, so they are plain integers; revisions are parsed as 64-bit with the range errors.
- Characters beyond ASCII: `strings.ToLower` is modelled on ASCII and the two other letters that have an ASCII lower case. An encoded configuration is a string with one character for each byte.
- `sort.Slice` on a comparator that is no order: the result is some permutation. The method sorts by insertion, as Go does for short slices; all theorems hold for every outcome.
- Zero creation timestamps, which the API server never stores.
- Runs of the pool controller in the middle of other runs: each run reads and writes one snapshot. The breaker alone is modelled with interleaved callers.
- The revision a pool gets by being stamped, within PoolReconcile: nothing reads it again. PoolLifecycle has it.
- PoolConvergence.Converges: assumes `POD_NAMESPACE` is blank, because with it set all namespaces share one ConfigMap and the last writer wins; and stamped pools, because a stamped incumbent can lose to an unstamped pool and is not queued again.
- PoolConvergence.ConvergesInTwoRounds: assumes a blank `POD_NAMESPACE` likewise, and that the first round does not reconcile deletions in the namespace: these can report on a pool that is not stamped yet, and so give it another revision.
- PoolConvergence.VisitElsewhere: assumes `POD_NAMESPACE` is blank, for the same reason.
- PoolReconcile.EveryWriteRefines: does not say that the published pool passed validateDNSUpstreamPool, because the deletion path does not call it.
- PolicyTheorems.RestingPoliciesAreSettled: says nothing about progress of policies in conflict, because partial claims are kept and two policies can each hold what the other needs; nor that Validated=False means nothing is owned, because earlier annotations stay. Events are taken to be delivered: a map function whose own listing fails loses its event.
- PolicyLiveness.EverythingSettles: the requeue after an error is immediate, without backoff; users and failing calls are over. Nothing is said about probabilities: a random order of visits makes an endless livelock improbable.
- Finalizers of other controllers on a policy: with one, a deleted policy would stay in the store, at rest, after its own finalizer is gone.
- PolicyController.ExternalDNSPolicyReconciler.Reconcile: calls fail, but no user interferes within the run; PolicyProtocol has both.
- More than one worker, and reads that lag behind writes (a stale cache); between the read of one namespace in the apply loop and its patch no user step happens. Copies of listed namespaces do go stale.
- Users who write the four annotations or the finalizer themselves, and reused UIDs.
